/**
 * The view controller as an object: its delegate callbacks and the send
 * action update its fields in place. Each method is proved to compute the
 * matching step function of `Peripheral`, and to keep `Runs.Inv`.
 */
module Controller {
  import opened Wrappers
  import opened Gatt
  import opened LogText
  import opened Peripheral
  import Runs

  class ViewController {
    /** `String(data:encoding: .utf8)`: decoding may fail. */
    const decode: Bytes -> Option<string>
    /** `String.data(using: .utf8)!`: encoding a string always succeeds. */
    const encode: string -> Bytes

    /** The adapter state in the last `peripheralManagerDidUpdateState`. */
    var adapter: AdapterState
    var charDic: map<string, Characteristic>
    /** The service last submitted with `add`. */
    var service: Option<Service>
    /** The manager's `isAdvertising`, as requested by this controller. */
    var isAdvertising: bool
    /** `textView.string`. */
    var textView: string
    /** `textField.stringValue`. */
    var textField: string
    /** The calls made on the peripheral manager, oldest first. */
    var calls: seq<Call>

    function Snapshot(): State
      reads this
    {
      State(adapter, charDic, service, isAdvertising, textView, textField, calls)
    }

    predicate Valid()
      reads this
    {
      Runs.Inv(Snapshot())
    }

    constructor (decode: Bytes -> Option<string>, encode: string -> Bytes)
      ensures Valid()
      ensures Snapshot() == Initial()
      ensures this.decode == decode && this.encode == encode
    {
      this.decode := decode;
      this.encode := encode;
      adapter := Unknown;
      charDic := map[];
      service := None;
      isAdvertising := false;
      textView := "";
      textField := "";
      calls := [];
    }

    /** Appends `s` to the text view by the set-or-append-with-newline rule. */
    method AppendToTextView(s: string)
      modifies this
      ensures textView == AppendLog(old(textView), s)
      ensures Snapshot() == old(Snapshot()).(log := textView)
    {
      if textView == "" {
        textView := s;
      } else {
        textView := textView + "\n" + s;
      }
    }

    /** `peripheralManagerDidUpdateState(_:)`. */
    method PeripheralManagerDidUpdateState(state: AdapterState)
      requires Valid()
      modifies this
      ensures Valid()
      ensures Snapshot() == DidUpdateState(old(Snapshot()), state)
      ensures state != PoweredOn ==> charDic == old(charDic) && calls == old(calls) && service == old(service)
      ensures state == PoweredOn ==>
        && charDic == map[UUID_CHARACTERISTIC := APP_CHARACTERISTIC]
        && calls == old(calls) + [Add(APP_SERVICE)]
    {
      ghost var before := Snapshot();
      Runs.StepInv(before, Runs.StateUpdated(state), decode, encode);
      adapter := state;
      if state != PoweredOn {
        assert Snapshot() == Runs.Step(before, Runs.StateUpdated(state), decode, encode);
        return;
      }
      var svc := Service(UUID_SERVICE, true, []);
      var characteristic := Characteristic(UUID_CHARACTERISTIC,
                                           {NotifyEncryptionRequired, WriteWithoutResponse},
                                           None,
                                           {WriteEncryptionRequired});
      var charArray: seq<Characteristic> := [];
      charArray := charArray + [characteristic];
      charDic := charDic[UUID_CHARACTERISTIC := characteristic];
      svc := svc.(characteristics := charArray);
      service := Some(svc);
      calls := calls + [Add(svc)];
      assert svc == APP_SERVICE;
      assert Snapshot() == Runs.Step(before, Runs.StateUpdated(state), decode, encode);
    }

    /** `peripheralManager(_:didAdd:error:)`. */
    method DidAdd(added: Service, error: Option<string>)
      requires Valid()
      modifies this
      ensures Valid()
      ensures Snapshot() == Peripheral.DidAdd(old(Snapshot()), added, error)
      ensures error.Some? ==> calls == old(calls) && isAdvertising == old(isAdvertising)
      ensures error.None? ==> calls == old(calls) + [StartAdvertising(Advertisement([added.uuid], ""))]
    {
      if error.Some? {
        return;
      }
      calls := calls + [StartAdvertising(Advertisement([added.uuid], ""))];
      isAdvertising := true;
      Runs.StepInv(old(Snapshot()), Runs.ServiceAdded(added, error), decode, encode);
    }

    /** `peripheralManagerDidStartAdvertising(_:error:)`: only prints. */
    method DidStartAdvertising(error: Option<string>)
      requires Valid()
      ensures Valid()
      ensures Snapshot() == Peripheral.DidStartAdvertising(old(Snapshot()), error)
    {
    }

    /** `peripheralManager(_:central:didSubscribeTo:)`. */
    method DidSubscribeTo(central: CentralId, characteristicUuid: string)
      requires Valid()
      modifies this
      ensures Valid()
      ensures Snapshot() == Peripheral.DidSubscribeTo(old(Snapshot()), central, characteristicUuid)
      ensures !isAdvertising
      ensures calls == if old(isAdvertising) then old(calls) + [StopAdvertising] else old(calls)
      ensures charDic == old(charDic) && textView == old(textView)
    {
      if isAdvertising {
        calls := calls + [StopAdvertising];
        isAdvertising := false;
      }
      Runs.StepInv(old(Snapshot()), Runs.Subscribed(central, characteristicUuid), decode, encode);
    }

    /** `peripheralManager(_:central:didUnsubscribeFrom:)`: its body is empty. */
    method DidUnsubscribeFrom(central: CentralId, characteristicUuid: string)
      requires Valid()
      ensures Valid()
      ensures Snapshot() == Peripheral.DidUnsubscribeFrom(old(Snapshot()), central, characteristicUuid)
    {
    }

    /** `sendData(_:uuidString:)`: throws `CharacteristicNotFound` for an unknown uuid. */
    method SendData(data: Bytes, uuidString: string) returns (r: Outcome<SendDataError>)
      requires Valid()
      modifies this
      ensures Valid()
      ensures (Snapshot(), r) == Peripheral.SendData(old(Snapshot()), data, uuidString)
      ensures r == Fail(CharacteristicNotFound) <==> uuidString !in charDic
      ensures uuidString !in charDic ==> calls == old(calls)
      ensures uuidString in charDic ==> calls == old(calls) + [UpdateValue(data, APP_CHARACTERISTIC, None)]
    {
      if uuidString !in charDic {
        return Fail(CharacteristicNotFound);
      }
      var characteristic := charDic[uuidString];
      calls := calls + [UpdateValue(data, characteristic, None)];
      r := Pass;
      assert Runs.WellFormedCall(UpdateValue(data, characteristic, None));
    }

    /** `snedClick(_:)`: the send button's action. */
    method SendClick()
      requires Valid()
      modifies this
      ensures Valid()
      ensures Snapshot() == Peripheral.SendClick(old(Snapshot()), encode)
      ensures textView == AppendLog(old(textView), old(textField)) && textField == ""
    {
      var text := textField;
      AppendToTextView(text);
      var _ := SendData(encode(text), UUID_CHARACTERISTIC);
      textField := "";
    }

    /** `peripheralManager(_:didReceiveWrite:)`; the main-queue block runs at once. */
    method DidReceiveWrite(requests: seq<AttRequest>)
      requires Valid()
      modifies this
      ensures Valid()
      ensures Snapshot() == Peripheral.DidReceiveWrite(old(Snapshot()), requests, decode)
      ensures calls == old(calls)
    {
      if requests == [] {
        return;
      }
      var at := requests[0];
      if at.value.None? {
        return;
      }
      var data := at.value.value;
      var text := DisplayText(decode, data);
      AppendToTextView(text);
    }

    /** `peripheralManager(_:didReceiveRead:)`. */
    method DidReceiveRead(request: AttRequest)
      requires Valid()
      modifies this
      ensures Valid()
      ensures Snapshot() == Peripheral.DidReceiveRead(old(Snapshot()), request, encode)
      ensures |calls| == |old(calls)| + 1 && calls[..|old(calls)|] == old(calls)
      ensures calls[|old(calls)|].Respond? && calls[|old(calls)|].result == Success
    {
      var answered := request;
      if request.characteristicUuid == "" {
        var data := Some(encode(HEART_RATE));
        answered := answered.(value := data);
      }
      calls := calls + [Respond(answered, Success)];
      Runs.StepInv(old(Snapshot()), Runs.ReadReceived(request), decode, encode);
    }
  }
}
