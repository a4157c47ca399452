/** What a call of MakeRemoteBinder that returns a stub may rely on. */
module DBinderClientOutcome {
  import opened Sequences
  import opened DBinderTypes
  import opened DBinderClient
  import opened DBinderClientInvariant
  import opened DBinderClientRuns

  // ----- stubs that a notice removed or a failing call dropped

  ghost predicate GoneInv(c: Client) {
    forall s :: s in c.noticed || s in c.cleaned ==> s !in c.sessions
  }

  lemma GoneAfterPurge(c: Client, gone: set<Stub>)
    requires GoneInv(c)
    ensures GoneInv(Purge(c, gone))
  {
  }

  predicate SameHistory(c: Client, d: Client) {
    d.noticed == c.noticed && d.cleaned == c.cleaned
  }

  lemma RequestHistory(c: Client, id: nat, env: SendEnv)
    requires id in c.calls
    ensures SameHistory(c, Request(c, id, env))
  {
  }

  lemma InvokeHistory(c: Client, e: Event, d: Client)
    requires Next(c, e, d) && e.Invoke?
    ensures SameHistory(c, d)
  {
    RequestHistory(c, e.id, e.env);
    hide Request, SameStubs, MovesOnly, Succeeded, AddTag;
  }

  lemma EarlyHistory(c: Client, e: Event, d: Client)
    requires Next(c, e, d) && (e.Begin? || e.Poll? || e.Timeout?)
    ensures SameHistory(c, d)
  {
    hide SameStubs, RegistersOnlyNext, MovesOnly, Succeeded, FindKey, AfterInvoke;
  }

  lemma LateHistory(c: Client, e: Event, d: Client)
    requires Next(c, e, d) && (e.Woken? || e.Test? || e.Delete? || e.Detach?)
    ensures d.noticed == c.noticed
    ensures d.cleaned == c.cleaned + if e.Detach? then {c.calls[e.id].stub} else {}
  {
    hide SameStubs, SameOwners, RegistersOnlyNext, MovesOnly, Succeeded, LastHolder, Without, Holder, AfterInvoke;
  }

  lemma OutsideHistory(c: Client, e: Event, d: Client)
    requires Next(c, e, d) && !OfCaller(e) && !e.ServiceDied? && !e.DeviceDied?
    ensures SameHistory(c, d)
  {
    hide SameStubs, SameOwners, RegistersOnlyNext;
  }

  /** Only a notice or a dropped session makes a stub gone. */
  lemma HistoryGrows(c: Client, e: Event, d: Client)
    requires Next(c, e, d) && !e.ServiceDied? && !e.DeviceDied?
    ensures d.noticed == c.noticed
    ensures d.cleaned == c.cleaned + (if e.Detach? then {c.calls[e.id].stub} else {})
  {
    hide Next;
    if e.Invoke? {
      InvokeHistory(c, e, d);
    } else if e.Begin? || e.Poll? || e.Timeout? {
      EarlyHistory(c, e, d);
    } else if OfCaller(e) {
      LateHistory(c, e, d);
    } else {
      OutsideHistory(c, e, d);
    }
  }

  lemma GoneStep(c: Client, e: Event, d: Client)
    requires Inv(c) && GoneInv(c) && Next(c, e, d)
    ensures GoneInv(d)
  {
    hide Inv, RegistryInv, Purge;
    if e.ServiceDied? {
      GoneAfterPurge(c, OfService(c.registered, e.service, e.device));
    } else if e.DeviceDied? {
      GoneAfterPurge(c, OfDevice(c.registered, e.device));
    } else {
      HistoryGrows(c, e, d);
      forall s | s in d.noticed || s in d.cleaned ensures s !in d.sessions {
        GoneStubStep(c, e, d, s);
      }
    }
  }

  lemma GoneStubStep(c: Client, e: Event, d: Client, s: Stub)
    requires Inv(c) && GoneInv(c) && Next(c, e, d) && !e.ServiceDied? && !e.DeviceDied?
    requires s in c.noticed || s in c.cleaned || (e.Detach? && s == c.calls[e.id].stub)
    ensures s !in d.sessions
  {
    if e.Detach? {
      hide Inv;
    } else if s in d.sessions {
      hide Next;
      SessionChange(c, e, d, s);
    }
  }

  lemma {:induction false} RunGone(states: seq<Client>, events: seq<Event>, k: nat)
    requires IsRun(states, events) && k < |states|
    ensures GoneInv(states[k])
  {
    if k > 0 {
      hide Next, GoneInv;
      RunGone(states, events, k - 1);
      RunInv(states, events, k - 1);
      assert Next(states[k - 1], events[k - 1], states[k]);
      GoneStep(states[k - 1], events[k - 1], states[k]);
    } else {
      assert GoneInv(Start());
    }
  }

  /** A call that returns DBINDER_OK, fresh or shared, returns a stub with a session exactly
      when no death notice removed that stub and no failing call dropped its session. The
      stub has one in any case while it is registered, and when a reply woke the call. */
  lemma SuccessfulCallHasSession(states: seq<Client>, events: seq<Event>, k: nat, id: nat)
    requires IsRun(states, events) && k < |events|
    requires !Succeeded(states[k], id) && Succeeded(states[k + 1], id)
    ensures var d := states[k + 1]; var s := d.calls[id].stub;
      && (s in d.sessions <==> s !in d.noticed && s !in d.cleaned)
      && (s in d.registered ==> s in d.sessions)
      && (events[k] != Poll(id) ==> s in d.sessions)
  {
    RunInv(states, events, k);
    RunInv(states, events, k + 1);
    RunGone(states, events, k + 1);
    assert Next(states[k], events[k], states[k + 1]);
    hide Next;
    SuccessStep(states[k], events[k], states[k + 1], id);
  }

  // ----- when nothing can drop the session of a stub in use

  /** A failing call for the key stands between its reference test and its deletion. */
  ghost predicate Deletes(calls: map<nat, Call>, key: StubKey) {
    exists id :: id in calls && calls[id].pc.Deleting? && calls[id].stub.key == key
  }

  /** A call begins for the key of a failing call that has found few references. */
  ghost predicate Races(c: Client, e: Event) {
    e.Begin? && Deletes(c.calls, e.key)
  }

  ghost function NewRaces(c: Client, e: Event): set<StubKey> {
    if Races(c, e) then {e.key} else {}
  }

  /** A death notice removed some stub with this key. */
  ghost predicate KeyNoticed(noticed: set<Stub>, key: StubKey) {
    exists x :: x in noticed && x.key == key
  }

  /** s is registered, or its key had a notice or a race. */
  ghost predicate ServedStub(reg: seq<Stub>, noticed: set<Stub>, raced: set<StubKey>, s: Stub) {
    s in reg || KeyNoticed(noticed, s.key) || s.key in raced
  }

  /** The call may still return its stub or delete it. */
  predicate Uses(pc: Pc) {
    !pc.Done? && !pc.Detaching?
  }

  /** No other call uses the stub. */
  ghost predicate Sole(calls: map<nat, Call>, id: nat, s: Stub) {
    forall k :: k in calls && k != id && calls[k].stub == s ==> !Uses(calls[k].pc)
  }

  ghost predicate Served(calls: map<nat, Call>, reg: seq<Stub>, noticed: set<Stub>, raced: set<StubKey>) {
    && (forall id :: id in calls && Uses(calls[id].pc) ==> ServedStub(reg, noticed, raced, calls[id].stub))
    && (forall id :: id in calls && calls[id].pc.Deleting? && calls[id].stub in reg ==>
          calls[id].stub.key in raced || Sole(calls, id, calls[id].stub))
  }

  /** A caller moves on without starting to delete. */
  lemma ServedMove(calls: map<nat, Call>, reg: seq<Stub>, noticed: set<Stub>, raced: set<StubKey>, id: nat, call: Call)
    requires Served(calls, reg, noticed, raced) && id in calls && call.stub == calls[id].stub
    requires !call.pc.Deleting? && (Uses(call.pc) ==> Uses(calls[id].pc))
    ensures Served(calls[id := call], reg, noticed, raced)
  {
    forall k, s | Sole(calls, k, s) ensures Sole(calls[id := call], k, s) {
    }
  }

  lemma ServedTest(c: Client, raced: set<StubKey>, id: nat, refsLow: bool, d: Client)
    requires Served(c.calls, c.registered, c.noticed, raced) && Next(c, Test(id, refsLow), d)
    ensures Served(d.calls, d.registered, d.noticed, raced)
  {
    if !refsLow {
      ServedMove(c.calls, c.registered, c.noticed, raced, id, d.calls[id]);
    }
  }

  /** A new caller shares a registered stub, with a race when the stub is about to be deleted. */
  lemma ServedJoin(calls: map<nat, Call>, reg: seq<Stub>, noticed: set<Stub>, raced: set<StubKey>, id: nat, call: Call)
    requires Served(calls, reg, noticed, raced) && id !in calls && call.stub in reg && !call.pc.Deleting?
    requires Deletes(calls, call.stub.key) ==> call.stub.key in raced
    ensures Served(calls[id := call], reg, noticed, raced)
  {
    forall k | k in calls && calls[k].pc.Deleting? && calls[k].stub in reg && calls[k].stub.key !in raced
      ensures Sole(calls[id := call], k, calls[k].stub)
    {
      assert Sole(calls, k, calls[k].stub);
      assert calls[k].stub == call.stub ==> Deletes(calls, call.stub.key);
    }
  }

  /** A new caller registers a stub nobody has used. */
  lemma ServedNew(calls: map<nat, Call>, reg: seq<Stub>, noticed: set<Stub>, raced: set<StubKey>, id: nat, call: Call)
    requires Served(calls, reg, noticed, raced) && id !in calls && !call.pc.Deleting?
    requires forall k :: k in calls ==> calls[k].stub != call.stub
    ensures Served(calls[id := call], reg + [call.stub], noticed, raced)
  {
    forall k | k in calls && Uses(calls[k].pc) ensures ServedStub(reg + [call.stub], noticed, raced, calls[k].stub) {
      assert ServedStub(reg, noticed, raced, calls[k].stub);
    }
    forall k | k in calls && calls[k].pc.Deleting? && calls[k].stub in reg + [call.stub] && calls[k].stub.key !in raced
      ensures Sole(calls[id := call], k, calls[k].stub)
    {
      assert Sole(calls, k, calls[k].stub);
    }
  }

  lemma ServedMore(calls: map<nat, Call>, reg: seq<Stub>, noticed: set<Stub>, raced: set<StubKey>, more: set<StubKey>)
    requires Served(calls, reg, noticed, raced) && raced <= more
    ensures Served(calls, reg, noticed, more)
  {
    forall id | id in calls && Uses(calls[id].pc) ensures ServedStub(reg, noticed, more, calls[id].stub) {
      assert ServedStub(reg, noticed, raced, calls[id].stub);
    }
  }

  lemma ServedBegin(c: Client, raced: set<StubKey>, id: nat, key: StubKey, binderObject: int)
    requires Inv(c) && Served(c.calls, c.registered, c.noticed, raced) && id !in c.calls
    requires Deletes(c.calls, key) ==> key in raced
    ensures var d := BeginCall(c, id, key, binderObject); Served(d.calls, d.registered, d.noticed, raced)
  {
    FindKeySound(c.registered, key);
    assert forall k :: k in c.calls ==> CallerInv(c.calls[k], c.nextStub);
    hide Inv, CallersInv, Served, SameStubs, RegistersOnlyNext, MovesOnly, Succeeded, Deletes, FindKey, SeqNumOf;
    match FindKey(c.registered, key)
    case Some(s) =>
      ServedJoin(c.calls, c.registered, c.noticed, raced, id, Call(s, SeqNumOf(c, s), false, 0, Invoking));
    case None =>
      var s := Stub(c.nextStub, key, FromInt32(binderObject));
      ServedNew(c.calls, c.registered, c.noticed, raced, id, Call(s, NextSeq(c.seqNumber), true, 0, Invoking));
  }

  lemma ServedPurge(c: Client, gone: set<Stub>, raced: set<StubKey>)
    requires Served(c.calls, c.registered, c.noticed, raced)
    ensures Served(c.calls, Purge(c, gone).registered, Purge(c, gone).noticed, raced)
  {
    var d := Purge(c, gone);
    WithoutMembers(c.registered, gone);
    forall id | id in c.calls && Uses(c.calls[id].pc)
      ensures ServedStub(d.registered, d.noticed, raced, c.calls[id].stub)
    {
      var s := c.calls[id].stub;
      assert ServedStub(c.registered, c.noticed, raced, s);
      if KeyNoticed(c.noticed, s.key) {
        var x :| x in c.noticed && x.key == s.key;
        assert x in d.noticed;
      } else if s in gone {
        assert s in d.noticed;
      }
    }
  }

  /** A deletion by key leaves no call without its registered stub but after a notice or race. */
  lemma ServedDelete(c: Client, raced: set<StubKey>, id: nat, k: nat)
    requires KeysUnique(c.registered) && Served(c.calls, c.registered, c.noticed, raced)
    requires id in c.calls && c.calls[id].pc.Deleting? && k in c.calls && k != id && Uses(c.calls[k].pc)
    ensures ServedStub(DeleteCall(c, id).registered, c.noticed, raced, c.calls[k].stub)
  {
    var own, s := c.calls[id].stub, c.calls[k].stub;
    assert ServedStub(c.registered, c.noticed, raced, own) && ServedStub(c.registered, c.noticed, raced, s);
    FindKeySound(c.registered, own.key);
    WithoutMembers(c.registered, Holder(c.registered, own.key));
    if s in Holder(c.registered, own.key) && own in c.registered {
      SameKeySameStub(c.registered, own, s);
    }
  }

  /** The frames after a deletion: the deleting call no longer uses its stub. */
  lemma ServedAfter(calls: map<nat, Call>, reg: seq<Stub>, noticed: set<Stub>, raced: set<StubKey>, id: nat, call: Call,
                    rest: seq<Stub>)
    requires Served(calls, reg, noticed, raced) && id in calls && call.pc.Detaching?
    requires forall s :: s in rest ==> s in reg
    requires forall k :: k in calls && k != id && Uses(calls[k].pc) ==> ServedStub(rest, noticed, raced, calls[k].stub)
    ensures Served(calls[id := call], rest, noticed, raced)
  {
    forall k, s | Sole(calls, k, s) ensures Sole(calls[id := call], k, s) {
    }
  }

  lemma ServedDeletion(c: Client, raced: set<StubKey>, id: nat)
    requires Inv(c) && Served(c.calls, c.registered, c.noticed, raced) && id in c.calls && c.calls[id].pc.Deleting?
    ensures var d := DeleteCall(c, id); Served(d.calls, d.registered, d.noticed, raced)
  {
    var call := c.calls[id];
    var rest := Without(c.registered, Holder(c.registered, call.stub.key));
    WithoutMembers(c.registered, Holder(c.registered, call.stub.key));
    assert KeysUnique(c.registered);
    hide Inv, RegistryInv, KeysUnique, ServedStub, Holder, Without, SameOwners, RegistersOnlyNext, MovesOnly, Succeeded,
      DropTags, Served;
    forall k | k in c.calls && k != id && Uses(c.calls[k].pc)
      ensures ServedStub(rest, c.noticed, raced, c.calls[k].stub)
    {
      ServedDelete(c, raced, id, k);
    }
    ServedAfter(c.calls, c.registered, c.noticed, raced, id, call.(pc := Detaching(call.pc.code)), rest);
  }

  /** Steps of a caller between its first and its clean-up. */
  predicate Inner(e: Event) {
    e.Invoke? || e.Poll? || e.Timeout? || e.Woken? || e.Detach?
  }

  /** Only the frame of id moves on, with its stub and not to a deletion. */
  ghost predicate InnerMove(calls: map<nat, Call>, calls': map<nat, Call>, id: nat) {
    && id in calls && id in calls' && calls' == calls[id := calls'[id]]
    && calls'[id].stub == calls[id].stub && !calls'[id].pc.Deleting?
    && (Uses(calls'[id].pc) ==> Uses(calls[id].pc))
  }

  lemma RequestMoves(c: Client, id: nat, env: SendEnv)
    requires At(c, id, Invoking)
    ensures var d := Request(c, id, env);
      d.registered == c.registered && d.noticed == c.noticed && InnerMove(c.calls, d.calls, id)
  {
    hide SameStubs, MovesOnly, Succeeded, AddTag, TagsAfterSend, Addressable;
  }

  lemma InvokeMoves(c: Client, e: Event, d: Client)
    requires Next(c, e, d) && e.Invoke?
    ensures d.registered == c.registered && d.noticed == c.noticed && InnerMove(c.calls, d.calls, e.id)
  {
    RequestMoves(c, e.id, e.env);
    hide Request, SameStubs, MovesOnly, Succeeded, AddTag;
  }

  lemma WaitMoves(c: Client, e: Event, d: Client)
    requires Next(c, e, d) && (e.Poll? || e.Timeout? || e.Woken? || e.Detach?)
    ensures d.registered == c.registered && d.noticed == c.noticed && InnerMove(c.calls, d.calls, e.id)
  {
    hide SameStubs, SameOwners, MovesOnly, Succeeded;
  }

  lemma InnerStep(c: Client, e: Event, d: Client)
    requires Next(c, e, d) && Inner(e)
    ensures d.registered == c.registered && d.noticed == c.noticed && InnerMove(c.calls, d.calls, e.id)
  {
    hide Next, InnerMove;
    if e.Invoke? {
      InvokeMoves(c, e, d);
    } else {
      WaitMoves(c, e, d);
    }
  }

  lemma OuterStep(c: Client, e: Event, d: Client)
    requires Next(c, e, d) && !OfCaller(e) && !e.ServiceDied? && !e.DeviceDied?
    ensures d.registered == c.registered && d.noticed == c.noticed && d.calls == c.calls
  {
    OutsideHistory(c, e, d);
    hide OnReply, OnError, CloseSession, SetStatus, AttachRecipient, DetachRecipient;
  }

  ghost predicate ServedAt(c: Client, raced: set<StubKey>) {
    Served(c.calls, c.registered, c.noticed, raced)
  }

  lemma ServedStep(c: Client, e: Event, d: Client, raced: set<StubKey>)
    requires Inv(c) && ServedAt(c, raced) && Next(c, e, d)
    ensures ServedAt(d, raced + NewRaces(c, e))
  {
    var more := raced + NewRaces(c, e);
    ServedMore(c.calls, c.registered, c.noticed, raced, more);
    hide Inv, Served, Purge, BeginCall, DeleteCall, TestCall;
    if e.Begin? {
      ServedBegin(c, more, e.id, e.key, e.binderObject);
    } else if e.Test? {
      ServedTest(c, more, e.id, e.refsLow, d);
    } else if e.Delete? {
      ServedDeletion(c, more, e.id);
    } else if e.ServiceDied? {
      ServedPurge(c, OfService(c.registered, e.service, e.device), more);
    } else if e.DeviceDied? {
      ServedPurge(c, OfDevice(c.registered, e.device), more);
    } else {
      hide Next;
      if Inner(e) {
        InnerStep(c, e, d);
        ServedMove(c.calls, c.registered, c.noticed, more, e.id, d.calls[e.id]);
      } else {
        OuterStep(c, e, d);
      }
    }
  }

  /** The keys raced for in the first k steps. */
  ghost function Raced(states: seq<Client>, events: seq<Event>, k: nat): set<StubKey>
    requires k <= |events| && |states| == |events| + 1
  {
    if k == 0 then {} else Raced(states, events, k - 1) + NewRaces(states[k - 1], events[k - 1])
  }

  lemma {:induction false} NeverRaced(states: seq<Client>, events: seq<Event>, k: nat, key: StubKey)
    requires k <= |events| && |states| == |events| + 1
    requires forall j :: 0 <= j < k && Races(states[j], events[j]) ==> events[j].key != key
    ensures key !in Raced(states, events, k)
  {
    if k > 0 {
      NeverRaced(states, events, k - 1, key);
    }
  }

  lemma {:induction false} RunServed(states: seq<Client>, events: seq<Event>, k: nat)
    requires IsRun(states, events) && k < |states|
    ensures ServedAt(states[k], Raced(states, events, k))
  {
    hide Next, ServedAt, NewRaces, Races, Raced, Inv;
    RacedStep(states, events, k);
    if k == 0 {
      StartServed();
    } else {
      RunServed(states, events, k - 1);
      RunInv(states, events, k - 1);
      assert Next(states[k - 1], events[k - 1], states[k]);
      ServedStep(states[k - 1], events[k - 1], states[k], Raced(states, events, k - 1));
    }
  }

  lemma RacedStep(states: seq<Client>, events: seq<Event>, k: nat)
    requires k <= |events| && |states| == |events| + 1
    ensures Raced(states, events, k) ==
      if k == 0 then {} else Raced(states, events, k - 1) + NewRaces(states[k - 1], events[k - 1])
  {
  }

  lemma StartServed()
    ensures ServedAt(Start(), {})
  {
  }

  /** A successful call used its stub just before. */
  lemma SuccessWasInner(c: Client, e: Event, d: Client, id: nat)
    requires Inv(c) && Next(c, e, d) && !Succeeded(c, id) && Succeeded(d, id)
    ensures Inner(e) && e.id == id && id in c.calls && Uses(c.calls[id].pc)
  {
    hide BeginCall, InvokeCall, PollCall, TimeoutCall, WokenCall, TestCall, DeleteCall, DetachCall, LastHolder,
      SameStubs, SameOwners, RegistersOnlyNext;
    if OfCaller(e) {
      assert forall i :: i in c.calls ==> CallerInv(c.calls[i], c.nextStub);
    } else {
      OutsideStep(c, e, d);
    }
  }

  /** As long as no notice concerns a key and no call begins for it while a failing call for
      it stands between its reference test and its deletion, every successful call for the
      key returns a stub with a session. */
  lemma QuietKeyHasSession(states: seq<Client>, events: seq<Event>, k: nat, id: nat)
    requires IsRun(states, events) && k < |events|
    requires !Succeeded(states[k], id) && Succeeded(states[k + 1], id)
    requires var key := states[k + 1].calls[id].stub.key;
      && !KeyNoticed(states[k].noticed, key)
      && forall j :: 0 <= j < k && Races(states[j], events[j]) ==> events[j].key != key
    ensures states[k + 1].calls[id].stub in states[k + 1].sessions
  {
    var c, e, d := states[k], events[k], states[k + 1];
    RunInv(states, events, k);
    RunServed(states, events, k);
    assert Next(c, e, d);
    SuccessWasInner(c, e, d, id);
    InnerStep(c, e, d);
    SuccessfulCallHasSession(states, events, k, id);
    NeverRaced(states, events, k, d.calls[id].stub.key);
    hide Next, Inv, Races, Raced;
    assert ServedStub(c.registered, c.noticed, Raced(states, events, k), c.calls[id].stub);
  }
}
