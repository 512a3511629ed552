# Peripheral_macOS: the GATT peripheral view controller

This project models the `ViewController` of a macOS Bluetooth LE peripheral
app. The controller is the `CBPeripheralManagerDelegate`:

- when the adapter reports `poweredOn` it builds one primary service "A001"
  holding one characteristic "C001" (notify with encryption,
  write-without-response, write permission with encryption, no static value),
  enters the characteristic in its table `charDic` and submits the service;
- once the service has been added without error it starts advertising the
  service's uuid under the empty local name;
- a subscription stops advertising;
- the send button appends the typed text to the text log, pushes it to all
  subscribed centrals through `sendData` and clears the field; `sendData`
  throws `CharacteristicNotFound` for a uuid not in `charDic`;
- a write batch contributes only its first request, decoded as UTF-8 (or
  "error string"), to the text log, and is never answered;
- every read request is answered exactly once with `.success`.

CoreBluetooth is an abstract transport: every call the controller makes on
its `CBPeripheralManager` (`add`, `startAdvertising`, `stopAdvertising`,
`updateValue`, `respond`) is appended to a recorded call list.

Layout:

- `wrappers.dfy` (`Wrappers`): `Option` (Swift's optional) and `Outcome` (the
  result of a `throws` function).
- `gatt.dfy` (`Gatt`): the CoreBluetooth values as datatypes: adapter state,
  properties, permissions, characteristic, service, advertisement, ATT
  request, ATT result, and the recorded calls.
- `log_text.dfy` (`LogText`): the text-log append rule, and the lines of a
  text with their round trip to and from the text.
- `peripheral.dfy` (`Peripheral`): the controller state as a value and one
  pure step function per handler. Their contracts state what each handler
  does.
- `runs.dfy` (`Runs`): any sequence of events handled in arrival order, the
  controller invariant, and counting lemmas over such sequences.
- `view_controller.dfy` (`Controller`): the class `ViewController`. Its fields
  are updated in place, and each method is proved to compute the matching
  step function and to keep the invariant.

Behaviour of the code worth noting, modelled as written:

- The code keeps no subscriber set. It stops advertising on every
  subscription that arrives while advertising, not only on a first subscriber.
- Reads are always answered with `.success`, whatever characteristic they
  address. The value "heartRate: 62" is set only when the characteristic's
  uuid string is "", not when it is "C001".
- `sendData` does not look at the adapter state. It pushes whenever `charDic`
  has the uuid, even after the adapter has left `poweredOn`.
- The advertised local name is "", not the device name "peripheral_macOS".

## Model

| member | source | states |
|---|---|---|
| `Peripheral.Initial` | Peripheral_macOS/ViewController.swift:22-28 | the controller starts with an empty `charDic`, no service, not advertising, an empty log and field, and no calls |
| `Peripheral.DidUpdateState` | Peripheral_macOS/ViewController.swift:62-104 | outside `poweredOn` only the recorded adapter state changes; on `poweredOn` the key "C001" is added to `charDic`, mapped to a characteristic with exactly the app's uuid, properties, permission and nil value; that characteristic is the only one of a primary service "A001"; exactly one `add` of that service is appended to the calls; other keys, flags and the log are kept |
| `Peripheral.DidAdd` | Peripheral_macOS/ViewController.swift:107-122 | with an error the state is unchanged and no call is made; without one exactly one `startAdvertising` is made, carrying just the added service's uuid and the local name "" (not the device name), and nothing but the flag and the calls changes |
| `Peripheral.DidStartAdvertising` | Peripheral_macOS/ViewController.swift:125-127 | the start-advertising callback changes no state |
| `Peripheral.DidSubscribeTo` | Peripheral_macOS/ViewController.swift:135-144 | afterwards the controller is not advertising; a `stopAdvertising` is made exactly when it was advertising; no other call and no change to `charDic` or the log |
| `Peripheral.DidUnsubscribeFrom` | Peripheral_macOS/ViewController.swift:147-151 | an unsubscription changes no state |
| `Peripheral.SendData` | Peripheral_macOS/ViewController.swift:154-161 | it throws `CharacteristicNotFound` exactly when the uuid is not in `charDic`, and then makes no call; otherwise it makes exactly one `updateValue` of the unchanged payload for the table's characteristic with nil centrals (all subscribers) |
| `Peripheral.SendClick` | Peripheral_macOS/ViewController.swift:41-54 | the typed text is appended to the log and the field is cleared, whether or not `sendData` throws; an `updateValue` of the encoded text is made exactly when "C001" is in `charDic` |
| `Peripheral.DisplayText` | Peripheral_macOS/ViewController.swift:179 | a written value shows as its UTF-8 decoding, or as "error string" when decoding fails |
| `Peripheral.DidReceiveWrite` | Peripheral_macOS/ViewController.swift:164-187 | no call (no `respond`) is ever made; an empty batch or a first request without a value leaves the state unchanged; otherwise the first request's text is appended to the log and only the log changes |
| `Peripheral.WriteUsesFirstOnly` | Peripheral_macOS/ViewController.swift:165-171 | requests after the first in a write batch have no effect |
| `Peripheral.DidReceiveRead` | Peripheral_macOS/ViewController.swift:190-196 | exactly one call is appended, a `respond` with `.success` for the same characteristic; its value is the encoding of "heartRate: 62" when the uuid string is "", and the request is unchanged otherwise; nothing else changes |
| `LogText.AppendLog` | Peripheral_macOS/ViewController.swift:43-47 | the old log is a prefix of the new one and the appended string its suffix; a non-empty log gets exactly one newline between the two, an empty log none |
| `LogText.AppendAddsLine` | Peripheral_macOS/ViewController.swift:180-184 | appending a newline-free entry makes it the last line of the log, after the unchanged earlier lines, or the only line of an empty log |
| `LogText.JoinLines` | Peripheral_macOS/ViewController.swift:180-184 | splitting the log into lines and joining them with newlines gives the log back |
| `LogText.LinesJoin` | Peripheral_macOS/ViewController.swift:180-184 | joining newline-free entries with newlines and splitting the result gives the entries back |
| `Runs.InitialInv` | Peripheral_macOS/ViewController.swift:22-28 | the initial state satisfies the controller invariant |
| `Runs.StepInv` | Peripheral_macOS/ViewController.swift:41-196 | every handler keeps the invariant: `charDic` is empty or exactly {"C001" to the app characteristic}, in step with the submitted service, and every call so far has its expected shape (the app service, one uuid and name "", the app characteristic to all centrals, `.success`) |
| `Runs.RunInv` | Peripheral_macOS/ViewController.swift:41-196 | any sequence of events keeps the invariant |
| `Runs.PoweredOnRegistersOnce` | Peripheral_macOS/ViewController.swift:69-102 | after any history, a `poweredOn` update leaves exactly the key "C001" in `charDic`, mapped to the submitted service's characteristic |
| `Runs.NoPowerNoRegistration` | Peripheral_macOS/ViewController.swift:62-67 | without a `poweredOn` update nothing enters `charDic`, no service is set, the earlier calls are kept and none of the calls appended after them is an `add` or an `updateValue` |
| `Runs.RunCounts` | Peripheral_macOS/ViewController.swift:102-195 | over any event sequence: the number of `respond` calls grows by exactly the number of read requests; `startAdvertising` calls by exactly the number of services added without error; the `stopAdvertising` calls by at most the number of subscriptions; the `updateValue` calls by at most the number of send presses; the `add` calls by exactly the number of `poweredOn` updates |
| `Runs.StaysStopped` | Peripheral_macOS/ViewController.swift:107-140 | once the controller is not advertising, it starts again only after a service is added without error |
| `Runs.FirstConnection` | Peripheral_macOS/ViewController.swift:62-195 | power on, service added, subscription, a write of "hi" and a read leave the controller registered and not advertising, with log "hi" and exactly the calls `add`, `startAdvertising`, `stopAdvertising` and one `.success` `respond` |
| `Controller.ViewController.constructor` | Peripheral_macOS/ViewController.swift:22-28 | a new controller is in the initial state and satisfies the invariant |
| `Controller.ViewController.AppendToTextView` | Peripheral_macOS/ViewController.swift:43-47 | the text view is updated in place by the append rule and nothing else changes |
| `Controller.ViewController.PeripheralManagerDidUpdateState` | Peripheral_macOS/ViewController.swift:62-104 | the fields change as `DidUpdateState` says; outside `poweredOn` `charDic`, the service and the calls are untouched; on `poweredOn` `charDic` is exactly {"C001"} and one `add` is recorded |
| `Controller.ViewController.DidAdd` | Peripheral_macOS/ViewController.swift:107-122 | the fields change as `DidAdd` says; a `startAdvertising` is recorded only without an error |
| `Controller.ViewController.DidStartAdvertising` | Peripheral_macOS/ViewController.swift:125-127 | nothing changes |
| `Controller.ViewController.DidSubscribeTo` | Peripheral_macOS/ViewController.swift:135-144 | the fields change as `DidSubscribeTo` says; advertising is off afterwards and `charDic` and the text view are untouched |
| `Controller.ViewController.DidUnsubscribeFrom` | Peripheral_macOS/ViewController.swift:147-151 | nothing changes |
| `Controller.ViewController.SendData` | Peripheral_macOS/ViewController.swift:154-161 | the fields and the outcome are those of `SendData`; it fails exactly for a uuid missing from `charDic`; a success records one `updateValue` of the payload for the app characteristic |
| `Controller.ViewController.SendClick` | Peripheral_macOS/ViewController.swift:41-54 | the fields change as `SendClick` says; the typed text is appended to the text view and the field is emptied |
| `Controller.ViewController.DidReceiveWrite` | Peripheral_macOS/ViewController.swift:164-187 | the fields change as `DidReceiveWrite` says; no call is recorded |
| `Controller.ViewController.DidReceiveRead` | Peripheral_macOS/ViewController.swift:190-196 | the fields change as `DidReceiveRead` says; exactly one `.success` response is recorded |

## Left out

- CoreBluetooth itself (the radio, pairing, encryption enforcement, the real effect of `add`, `startAdvertising` and `updateValue`) is abstract: the calls are only recorded. The `Bool` that `updateValue` returns, and its back-pressure, are ignored by the code and not modelled.
- `isAdvertising` belongs to the peripheral manager. The model sets it when the controller requests advertising and clears it when the controller stops it. An advertising start that the radio confirms late, or that fails, is not modelled.
- `viewDidLoad` (lines 32-39) is not modelled. It creates the peripheral manager on a global dispatch queue. The constructor stands for the controller's initial state.
- Dispatch queues and threading are not modelled: handlers run one at a time, in arrival order. The main-queue update of the text view in the write handler runs at once, inside the handler.
- AppKit is not modelled (`textView`, `textField`, `representedObject`, button wiring). Only the two strings are kept: the text view's content (the log) and the field's content. The user's typing appears as the `FieldEdited` event of `Runs`.
- `print` diagnostics are not modelled.
- `String(data:encoding:)` and `String.data(using:)` are library calls. UTF-8 decoding is an abstract partial function `Bytes -> Option<string>`; encoding is an abstract total function, since the forced unwrap at line 49 cannot fail for UTF-8.
- `CBATTRequest` is a reference object that the read handler changes in place. The model records the changed request as a value inside the `respond` call, so aliasing of the request object is not captured.
- `CBCentral` is only an identity, and a subscribed characteristic is only its uuid string. The handlers do nothing with either beyond an empty uuid comparison.
