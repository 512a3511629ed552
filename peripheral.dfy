/**
 * The state of the macOS peripheral's view controller and one pure step
 * function per event handler. Each step function is the specification the
 * corresponding method of `Controller.ViewController` is proved against.
 */
module Peripheral {
  import opened Wrappers
  import opened Gatt
  import opened LogText

  const UUID_SERVICE: string := "A001"
  const UUID_CHARACTERISTIC: string := "C001"
  /** The device name the service-added handler defines; it is never advertised. */
  const DEVICE_NAME: string := "peripheral_macOS"
  /** Shown in place of a written value that does not decode as UTF-8. */
  const ERROR_STRING: string := "error string"
  /** The text of the value a read of the characteristic with uuid "" gets. */
  const HEART_RATE: string := "heartRate: 62"

  /** The error `sendData` throws. */
  datatype SendDataError = CharacteristicNotFound

  /**
   * The controller's state: the last adapter state it was told, the
   * characteristic table `charDic`, the service it submitted (if any), the
   * advertising flag, the text log, the text field, and every call made
   * on the peripheral manager, oldest first.
   */
  datatype State = State(
    adapter: AdapterState,
    charDic: map<string, Characteristic>,
    service: Option<Service>,
    isAdvertising: bool,
    log: string,
    field: string,
    calls: seq<Call>)

  /** The state right after the view has loaded. */
  function Initial(): (st: State)
    ensures st.charDic == map[] && st.service == None && !st.isAdvertising
    ensures st.log == "" && st.field == "" && st.calls == []
  {
    State(Unknown, map[], None, false, "", "", [])
  }

  /** The one characteristic the peripheral exposes. */
  predicate IsAppCharacteristic(c: Characteristic) {
    && c.uuid == UUID_CHARACTERISTIC
    && c.properties == {NotifyEncryptionRequired, WriteWithoutResponse}
    && c.permissions == {WriteEncryptionRequired}
    && c.value == None
  }

  /** The one service the peripheral registers. */
  predicate IsAppService(s: Service) {
    && s.uuid == UUID_SERVICE
    && s.primary
    && |s.characteristics| == 1
    && IsAppCharacteristic(s.characteristics[0])
  }

  const APP_CHARACTERISTIC: Characteristic :=
    Characteristic(UUID_CHARACTERISTIC, {NotifyEncryptionRequired, WriteWithoutResponse}, None, {WriteEncryptionRequired})

  const APP_SERVICE: Service := Service(UUID_SERVICE, true, [APP_CHARACTERISTIC])

  /** The text displayed for a written value: its decoding, or the error string. */
  function DisplayText(decode: Bytes -> Option<string>, data: Bytes): (s: string)
    ensures decode(data).Some? ==> s == decode(data).value
    ensures decode(data).None? ==> s == ERROR_STRING
  {
    match decode(data)
    case Some(text) => text
    case None => ERROR_STRING
  }

  /**
   * `peripheralManagerDidUpdateState`: on `poweredOn` build the service
   * with its characteristic, enter the characteristic in `charDic` and
   * submit the service; in any other state do nothing.
   */
  function DidUpdateState(st: State, state: AdapterState): (r: State)
    ensures r.adapter == state
    ensures state != PoweredOn ==> r == st.(adapter := state)
    ensures state == PoweredOn ==>
      && r.charDic.Keys == st.charDic.Keys + {UUID_CHARACTERISTIC}
      && IsAppCharacteristic(r.charDic[UUID_CHARACTERISTIC])
      && (forall k :: k in st.charDic && k != UUID_CHARACTERISTIC ==> r.charDic[k] == st.charDic[k])
      && r.service.Some? && IsAppService(r.service.value)
      && r.charDic[UUID_CHARACTERISTIC] == r.service.value.characteristics[0]
      && |r.calls| == |st.calls| + 1 && r.calls[..|st.calls|] == st.calls
      && r.calls[|st.calls|] == Add(r.service.value)
      && r.isAdvertising == st.isAdvertising && r.log == st.log && r.field == st.field
  {
    if state != PoweredOn then st.(adapter := state)
    else
      st.(adapter := state,
          charDic := st.charDic[UUID_CHARACTERISTIC := APP_CHARACTERISTIC],
          service := Some(APP_SERVICE),
          calls := st.calls + [Add(APP_SERVICE)])
  }

  /**
   * `peripheralManager(_:didAdd:error:)`: after an error do nothing;
   * otherwise start advertising the added service under the empty name.
   */
  function DidAdd(st: State, service: Service, error: Option<string>): (r: State)
    ensures error.Some? ==> r == st
    ensures error.None? ==>
      && r.isAdvertising
      && |r.calls| == |st.calls| + 1 && r.calls[..|st.calls|] == st.calls
      && r.calls[|st.calls|].StartAdvertising?
      && r.calls[|st.calls|].advertisement.serviceUuids == [service.uuid]
      && r.calls[|st.calls|].advertisement.localName == ""
      && r.calls[|st.calls|].advertisement.localName != DEVICE_NAME
      && r == st.(isAdvertising := true, calls := r.calls)
  {
    if error.Some? then st
    else
      st.(isAdvertising := true,
          calls := st.calls + [StartAdvertising(Advertisement([service.uuid], ""))])
  }

  /** `peripheralManagerDidStartAdvertising`: only prints. */
  function DidStartAdvertising(st: State, error: Option<string>): (r: State)
    ensures r == st
  {
    st
  }

  /**
   * `peripheralManager(_:central:didSubscribeTo:)`: stop advertising if
   * advertising; never start it, and touch nothing else.
   */
  function DidSubscribeTo(st: State, central: CentralId, characteristicUuid: string): (r: State)
    ensures !r.isAdvertising
    ensures r == st.(isAdvertising := false, calls := r.calls)
    ensures st.isAdvertising ==> r.calls == st.calls + [StopAdvertising]
    ensures !st.isAdvertising ==> r == st
  {
    if st.isAdvertising then
      st.(isAdvertising := false, calls := st.calls + [StopAdvertising])
    else st
  }

  /** `peripheralManager(_:central:didUnsubscribeFrom:)`: its body is empty. */
  function DidUnsubscribeFrom(st: State, central: CentralId, characteristicUuid: string): (r: State)
    ensures r == st
  {
    st
  }

  /**
   * `sendData(_:uuidString:)`: look the uuid up in `charDic`; throw
   * `CharacteristicNotFound` if it is absent, else push the payload to all
   * subscribed centrals.
   */
  function SendData(st: State, data: Bytes, uuidString: string): (r: (State, Outcome<SendDataError>))
    ensures r.1 == Fail(CharacteristicNotFound) <==> uuidString !in st.charDic
    ensures r.1.Pass? <==> uuidString in st.charDic
    ensures uuidString !in st.charDic ==> r.0 == st
    ensures uuidString in st.charDic ==>
      r.0 == st.(calls := st.calls + [UpdateValue(data, st.charDic[uuidString], None)])
  {
    if uuidString !in st.charDic then (st, Fail(CharacteristicNotFound))
    else
      var characteristic := st.charDic[uuidString];
      (st.(calls := st.calls + [UpdateValue(data, characteristic, None)]), Pass)
  }

  /**
   * `snedClick`: log the text field's content, send its encoding to the
   * app characteristic (a thrown error is only printed), clear the field.
   */
  function SendClick(st: State, encode: string -> Bytes): (r: State)
    ensures r.field == ""
    ensures r.log == AppendLog(st.log, st.field)
    ensures st.log <= r.log
    ensures r == st.(log := r.log, field := "", calls := r.calls)
    ensures UUID_CHARACTERISTIC !in st.charDic ==> r.calls == st.calls
    ensures UUID_CHARACTERISTIC in st.charDic ==>
      r.calls == st.calls + [UpdateValue(encode(st.field), st.charDic[UUID_CHARACTERISTIC], None)]
  {
    var text := st.field;
    var logged := st.(log := AppendLog(st.log, text));
    var (sent, _) := SendData(logged, encode(text), UUID_CHARACTERISTIC);
    sent.(field := "")
  }

  /**
   * `peripheralManager(_:didReceiveWrite:)`: use only the first request
   * of the batch; if it carries a value, append its text to the log. No
   * response is sent.
   */
  function DidReceiveWrite(st: State, requests: seq<AttRequest>, decode: Bytes -> Option<string>): (r: State)
    ensures r.calls == st.calls
    ensures r == st.(log := r.log)
    ensures st.log <= r.log
    ensures requests == [] || requests[0].value.None? ==> r == st
    ensures requests != [] && requests[0].value.Some? ==>
      r.log == AppendLog(st.log, DisplayText(decode, requests[0].value.value))
  {
    if requests == [] then st
    else
      var first := requests[0];
      match first.value
      case None => st
      case Some(data) => st.(log := AppendLog(st.log, DisplayText(decode, data)))
  }

  /**
   * `peripheralManager(_:didReceiveRead:)`: answer the request exactly
   * once with `.success`, having set its value to "heartRate: 62" when its
   * characteristic's uuid string is empty.
   */
  function DidReceiveRead(st: State, request: AttRequest, encode: string -> Bytes): (r: State)
    ensures |r.calls| == |st.calls| + 1 && r.calls[..|st.calls|] == st.calls
    ensures r == st.(calls := r.calls)
    ensures r.calls[|st.calls|].Respond? && r.calls[|st.calls|].result == Success
    ensures r.calls[|st.calls|].request.characteristicUuid == request.characteristicUuid
    ensures request.characteristicUuid == "" ==>
      r.calls[|st.calls|].request.value == Some(encode(HEART_RATE))
    ensures request.characteristicUuid != "" ==> r.calls[|st.calls|].request == request
  {
    var answered :=
      if request.characteristicUuid == "" then request.(value := Some(encode(HEART_RATE)))
      else request;
    st.(calls := st.calls + [Respond(answered, Success)])
  }

  /** Only the first request of a write batch matters; the rest are dropped. */
  lemma WriteUsesFirstOnly(st: State, first: AttRequest, rest: seq<AttRequest>, decode: Bytes -> Option<string>)
    ensures DidReceiveWrite(st, [first] + rest, decode) == DidReceiveWrite(st, [first], decode)
  {
  }
}
