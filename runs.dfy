/**
 * Sequences of delegate callbacks and button presses delivered to the
 * controller, and what holds over every such sequence.
 */
module Runs {
  import opened Wrappers
  import opened Gatt
  import opened LogText
  import opened Peripheral

  /** One event the controller reacts to. */
  datatype Event =
    | StateUpdated(state: AdapterState)
    | ServiceAdded(service: Service, error: Option<string>)
    | AdvertisingStarted(error: Option<string>)
    | Subscribed(central: CentralId, characteristicUuid: string)
    | Unsubscribed(central: CentralId, characteristicUuid: string)
    /** The user edits the text field (done by AppKit, not by the controller). */
    | FieldEdited(text: string)
    | SendClicked
    | WriteReceived(requests: seq<AttRequest>)
    | ReadReceived(request: AttRequest)

  /** The handler of each event. */
  function Step(st: State, e: Event, decode: Bytes -> Option<string>, encode: string -> Bytes): State {
    match e
    case StateUpdated(state) => DidUpdateState(st, state)
    case ServiceAdded(service, error) => DidAdd(st, service, error)
    case AdvertisingStarted(error) => DidStartAdvertising(st, error)
    case Subscribed(central, uuid) => DidSubscribeTo(st, central, uuid)
    case Unsubscribed(central, uuid) => DidUnsubscribeFrom(st, central, uuid)
    case FieldEdited(text) => st.(field := text)
    case SendClicked => SendClick(st, encode)
    case WriteReceived(requests) => DidReceiveWrite(st, requests, decode)
    case ReadReceived(request) => DidReceiveRead(st, request, encode)
  }

  /** The events handled one after the other, in arrival order. */
  function Run(st: State, es: seq<Event>, decode: Bytes -> Option<string>, encode: string -> Bytes): State
    decreases |es|
  {
    if es == [] then st else Run(Step(st, es[0], decode, encode), es[1..], decode, encode)
  }

  /** Nothing registered yet. */
  predicate Unregistered(st: State) {
    st.service == None && st.charDic == map[]
  }

  /** The app service submitted and its characteristic the only entry of `charDic`. */
  predicate Registered(st: State) {
    st.service == Some(APP_SERVICE) && st.charDic == map[UUID_CHARACTERISTIC := APP_CHARACTERISTIC]
  }

  /** The shape every recorded call of this controller has. */
  predicate WellFormedCall(c: Call) {
    match c
    case Add(service) => IsAppService(service)
    case StartAdvertising(ad) => |ad.serviceUuids| == 1 && ad.localName == ""
    case StopAdvertising => true
    case UpdateValue(_, characteristic, centrals) => IsAppCharacteristic(characteristic) && centrals == None
    case Respond(_, result) => result == Success
  }

  /**
   * The controller's invariant: `charDic` is empty or holds exactly the
   * app characteristic, and every call made has the expected shape.
   */
  predicate Inv(st: State) {
    && (Unregistered(st) || Registered(st))
    && forall i :: 0 <= i < |st.calls| ==> WellFormedCall(st.calls[i])
  }

  lemma InitialInv()
    ensures Inv(Initial())
  {
  }

  lemma StepInv(st: State, e: Event, decode: Bytes -> Option<string>, encode: string -> Bytes)
    requires Inv(st)
    ensures Inv(Step(st, e, decode, encode))
  {
  }

  /** Every sequence of events keeps the invariant. */
  lemma {:induction false} RunInv(st: State, es: seq<Event>, decode: Bytes -> Option<string>, encode: string -> Bytes)
    requires Inv(st)
    ensures Inv(Run(st, es, decode, encode))
    decreases |es|
  {
    if es != [] {
      StepInv(st, es[0], decode, encode);
      RunInv(Step(st, es[0], decode, encode), es[1..], decode, encode);
    }
  }

  /**
   * Whatever happened before, a `poweredOn` update leaves `charDic` with
   * exactly the key "C001", mapped to the submitted service's characteristic.
   */
  lemma PoweredOnRegistersOnce(es: seq<Event>, decode: Bytes -> Option<string>, encode: string -> Bytes)
    ensures var r := Run(Initial(), es + [StateUpdated(PoweredOn)], decode, encode);
      && r.charDic.Keys == {UUID_CHARACTERISTIC}
      && r.service == Some(APP_SERVICE)
      && r.charDic[UUID_CHARACTERISTIC] == APP_SERVICE.characteristics[0]
  {
    InitialInv();
    RunInv(Initial(), es, decode, encode);
    RunAppend(Initial(), es, [StateUpdated(PoweredOn)], decode, encode);
  }

  lemma {:induction false} RunAppend(st: State, es: seq<Event>, more: seq<Event>, decode: Bytes -> Option<string>, encode: string -> Bytes)
    ensures Run(st, es + more, decode, encode) == Run(Run(st, es, decode, encode), more, decode, encode)
    decreases |es|
  {
    if es == [] {
      assert es + more == more;
    } else {
      assert (es + more)[0] == es[0] && (es + more)[1..] == es[1..] + more;
      RunAppend(Step(st, es[0], decode, encode), es[1..], more, decode, encode);
    }
  }

  /** Whether an event is a `poweredOn` update. */
  predicate IsPowerOn(e: Event) {
    e == StateUpdated(PoweredOn)
  }

  /**
   * Registration happens only when the adapter is powered on: without a
   * `poweredOn` update nothing is registered, no service is submitted and
   * no value is pushed.
   */
  lemma {:induction false} NoPowerNoRegistration(st: State, es: seq<Event>, decode: Bytes -> Option<string>, encode: string -> Bytes)
    requires Unregistered(st)
    requires forall i :: 0 <= i < |es| ==> !IsPowerOn(es[i])
    ensures var r := Run(st, es, decode, encode);
      && Unregistered(r)
      && |st.calls| <= |r.calls| && r.calls[..|st.calls|] == st.calls
      && (forall i :: |st.calls| <= i < |r.calls| ==> !r.calls[i].Add? && !r.calls[i].UpdateValue?)
    decreases |es|
  {
    if es != [] {
      var next := Step(st, es[0], decode, encode);
      assert !IsPowerOn(es[0]);
      assert |st.calls| <= |next.calls| && next.calls[..|st.calls|] == st.calls;
      assert forall i :: |st.calls| <= i < |next.calls| ==> !next.calls[i].Add? && !next.calls[i].UpdateValue?;
      assert forall i :: 1 <= i < |es| ==> es[1..][i - 1] == es[i];
      NoPowerNoRegistration(next, es[1..], decode, encode);
      var r := Run(next, es[1..], decode, encode);
      assert r.calls[..|st.calls|] == r.calls[..|next.calls|][..|st.calls|];
      forall i | |st.calls| <= i < |r.calls|
        ensures !r.calls[i].Add? && !r.calls[i].UpdateValue?
      {
        if i < |next.calls| {
          assert r.calls[i] == r.calls[..|next.calls|][i];
        }
      }
    }
  }

  // ---- Counting calls and events ----

  /** How many calls satisfy `p`. */
  function CountCalls(calls: seq<Call>, p: Call -> bool): (n: nat)
    ensures n <= |calls|
    decreases |calls|
  {
    if calls == [] then 0
    else CountCalls(calls[..|calls| - 1], p) + (if p(calls[|calls| - 1]) then 1 else 0)
  }

  /** How many events satisfy `p`. */
  function CountEvents(es: seq<Event>, p: Event -> bool): (n: nat)
    ensures n <= |es|
    decreases |es|
  {
    if es == [] then 0 else (if p(es[0]) then 1 else 0) + CountEvents(es[1..], p)
  }

  predicate IsRespond(c: Call) { c.Respond? }
  predicate IsStart(c: Call) { c.StartAdvertising? }
  predicate IsStop(c: Call) { c.StopAdvertising? }
  predicate IsUpdate(c: Call) { c.UpdateValue? }
  predicate IsAddCall(c: Call) { c.Add? }

  predicate IsRead(e: Event) { e.ReadReceived? }
  predicate IsAddedWithoutError(e: Event) { e.ServiceAdded? && e.error.None? }
  predicate IsSubscribe(e: Event) { e.Subscribed? }
  predicate IsSendClick(e: Event) { e.SendClicked? }

  /** What one event adds to each kind of call. */
  lemma StepCounts(st: State, e: Event, decode: Bytes -> Option<string>, encode: string -> Bytes)
    ensures var r := Step(st, e, decode, encode);
      && CountCalls(r.calls, IsRespond) == CountCalls(st.calls, IsRespond) + (if IsRead(e) then 1 else 0)
      && CountCalls(r.calls, IsStart) == CountCalls(st.calls, IsStart) + (if IsAddedWithoutError(e) then 1 else 0)
      && CountCalls(r.calls, IsStop) <= CountCalls(st.calls, IsStop) + (if IsSubscribe(e) then 1 else 0)
      && CountCalls(r.calls, IsUpdate) <= CountCalls(st.calls, IsUpdate) + (if IsSendClick(e) then 1 else 0)
      && CountCalls(r.calls, IsAddCall) == CountCalls(st.calls, IsAddCall) + (if IsPowerOn(e) then 1 else 0)
  {
  }

  /**
   * Over any sequence of events: every read request is answered exactly
   * once (and writes never are); advertising is requested exactly once per
   * service added without error; a stop needs a subscription; a pushed
   * value needs a press of the send button; a service is submitted exactly
   * once per `poweredOn` update.
   */
  lemma {:induction false} RunCounts(st: State, es: seq<Event>, decode: Bytes -> Option<string>, encode: string -> Bytes)
    ensures var r := Run(st, es, decode, encode);
      && CountCalls(r.calls, IsRespond) == CountCalls(st.calls, IsRespond) + CountEvents(es, IsRead)
      && CountCalls(r.calls, IsStart) == CountCalls(st.calls, IsStart) + CountEvents(es, IsAddedWithoutError)
      && CountCalls(r.calls, IsStop) <= CountCalls(st.calls, IsStop) + CountEvents(es, IsSubscribe)
      && CountCalls(r.calls, IsUpdate) <= CountCalls(st.calls, IsUpdate) + CountEvents(es, IsSendClick)
      && CountCalls(r.calls, IsAddCall) == CountCalls(st.calls, IsAddCall) + CountEvents(es, IsPowerOn)
    decreases |es|
  {
    if es != [] {
      StepCounts(st, es[0], decode, encode);
      RunCounts(Step(st, es[0], decode, encode), es[1..], decode, encode);
    }
  }

  /**
   * After a subscription the controller is not advertising, and it stays
   * so until a service is added again without error.
   */
  lemma {:induction false} StaysStopped(st: State, es: seq<Event>, decode: Bytes -> Option<string>, encode: string -> Bytes)
    requires !st.isAdvertising
    requires forall i :: 0 <= i < |es| ==> !IsAddedWithoutError(es[i])
    ensures !Run(st, es, decode, encode).isAdvertising
    ensures CountCalls(Run(st, es, decode, encode).calls, IsStart) == CountCalls(st.calls, IsStart)
    decreases |es|
  {
    if es != [] {
      StepCounts(st, es[0], decode, encode);
      assert !IsAddedWithoutError(es[0]);
      assert forall i :: 1 <= i < |es| ==> es[1..][i - 1] == es[i];
      StaysStopped(Step(st, es[0], decode, encode), es[1..], decode, encode);
    }
  }

  /**
   * The scenario of a first connection: power on, service added, a central
   * subscribes, writes "hi" and reads; the controller ends up registered,
   * not advertising, with "hi" in its log and one `.success` response.
   */
  lemma FirstConnection(decode: Bytes -> Option<string>, encode: string -> Bytes, hi: Bytes)
    requires decode(hi) == Some("hi")
    ensures var r := Run(Initial(),
        [StateUpdated(PoweredOn), ServiceAdded(APP_SERVICE, None), Subscribed(0, UUID_CHARACTERISTIC),
         WriteReceived([AttRequest(UUID_CHARACTERISTIC, Some(hi))]), ReadReceived(AttRequest(UUID_CHARACTERISTIC, None))],
        decode, encode);
      && Registered(r)
      && !r.isAdvertising
      && r.log == "hi"
      && r.calls == [Add(APP_SERVICE), StartAdvertising(Advertisement([UUID_SERVICE], "")), StopAdvertising,
                     Respond(AttRequest(UUID_CHARACTERISTIC, None), Success)]
  {
    var write := WriteReceived([AttRequest(UUID_CHARACTERISTIC, Some(hi))]);
    var read := ReadReceived(AttRequest(UUID_CHARACTERISTIC, None));
    var es := [StateUpdated(PoweredOn), ServiceAdded(APP_SERVICE, None), Subscribed(0, UUID_CHARACTERISTIC), write, read];
    var s1 := DidUpdateState(Initial(), PoweredOn);
    var s2 := DidAdd(s1, APP_SERVICE, None);
    var s3 := DidSubscribeTo(s2, 0, UUID_CHARACTERISTIC);
    var s4 := Step(s3, write, decode, encode);
    var s5 := Step(s4, read, decode, encode);
    assert s4.log == "hi";
    assert Run(s5, [], decode, encode) == s5;
    assert es[1..][1..][1..][1..][1..] == [];
    assert Run(s4, es[1..][1..][1..][1..], decode, encode) == s5;
    assert Run(s3, es[1..][1..][1..], decode, encode) == s5;
    assert Run(s2, es[1..][1..], decode, encode) == s5;
    assert Run(s1, es[1..], decode, encode) == s5;
  }
}
