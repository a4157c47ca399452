/** Two runs in which a call succeeds although its stub has no session and no notice removed
    that stub: in the first a failing call races with new callers, in the second a failing
    call for an older stub with the same key deletes the newer one. */
module DBinderClientWitness {
  import opened Sequences
  import opened DBinderTypes
  import opened DBinderClient
  import opened DBinderClientInvariant
  import opened DBinderClientRuns

  const KEY: StubKey := StubKey("1", "dev", 0, 0)
  const OLD: Stub := Stub(0, KEY, 0)
  const NEW: Stub := Stub(1, KEY, 0)
  const BAD: SendEnv := SendEnv("", 0, false)
  const GOOD: SendEnv := SendEnv("me", 0, true)
  const FAILED: Pc := Failed(DBINDER_SEND_MESSAGE_FAILED)

  /** The answer to the only request of a run. */
  function Answer(seqNumber: nat): Message {
    Message(2, DATABUS_TYPE, MESSAGE_AS_REPLY, 0, 0, 5, seqNumber, 0, 0, "me", "dev", 1, 0, ZeroBuffer(), 0, 0)
  }

  /** Call id works for s under the number s was registered with. */
  predicate Frame(calls: map<nat, Call>, id: nat, s: Stub, isNew: bool, pc: Pc) {
    && id in calls && calls[id].stub == s && calls[id].isNew == isNew && calls[id].pc == pc
    && calls[id].seqNum == s.id + 1
  }

  /** s is registered and nothing was sent yet. */
  predicate Quiet(c: Client, s: Stub) {
    && c.registered == [s] && StatusOf(c, s) == NegoInit && SeqNumOf(c, s) == s.id + 1 && s !in c.sessions
    && c.threadLocks == map[] && c.ready == {} && c.tags.live == map[] && c.tags.counter == 1
  }

  // ----- steps in any state that allows them

  lemma WithoutOnly(s: Stub)
    ensures Without([s], {s}) == []
  {
    assert [s][..0] == [];
  }

  lemma Registers(c: Client, id: nat) returns (d: Client)
    requires c.registered == [] && id !in c.calls
    ensures Next(c, Begin(id, KEY, 0), d)
    ensures d == NewCall(c, id, Stub(c.nextStub, KEY, 0), NextSeq(c.seqNumber))
  {
    d := BeginCall(c, id, KEY, 0);
  }

  lemma Joins(c: Client, id: nat, s: Stub) returns (d: Client)
    requires c.registered == [s] && s.key == KEY && id !in c.calls
    ensures Next(c, Begin(id, KEY, 0), d) && d == SetCall(c, id, Call(s, SeqNumOf(c, s), false, 0, Invoking))
  {
    d := BeginCall(c, id, KEY, 0);
  }

  lemma Dies(c: Client) returns (d: Client)
    requires c == NewCall(Start(), 0, OLD, 1)
    ensures Next(c, ServiceDied("1", "dev"), d)
    ensures d.registered == [] && d.noticed == {OLD} && d.calls == c.calls
    ensures d.status == map[] && d.seqNums == c.seqNums
    ensures d.nextStub == 1 && d.seqNumber == 1 && d.sessions == map[] && d.threadLocks == map[] && d.ready == {}
    ensures d.tags.live == map[] && d.tags.counter == 1
  {
    d := ServiceDies(c, "1", "dev");
    assert OfService([OLD], "1", "dev") == {OLD};
    WithoutOnly(OLD);
    assert c.registered == [OLD];
  }

  lemma CannotSend(c: Client, id: nat) returns (d: Client)
    requires At(c, id, Invoking) && Requests(c, c.calls[id]) && c.threadLocks == map[]
    ensures Next(c, Invoke(id, BAD), d)
    ensures d == c.(status := c.status[c.calls[id].stub := NegoInit], nextLock := c.nextLock + 1,
                    calls := c.calls[id := AfterInvoke(c.calls[id], DBINDER_SEND_MESSAGE_FAILED)])
  {
    d := InvokeCall(c, id, BAD);
  }

  lemma SendsOne(c: Client, id: nat, s: Stub) returns (d: Client)
    requires Quiet(c, s) && s.key == KEY && id in c.calls && Frame(c.calls, id, s, c.calls[id].isNew, Invoking)
    ensures Next(c, Invoke(id, GOOD), d)
    ensures var lock := Lock(c.nextLock, "dev", id);
      d == c.(status := c.status[s := NegoDoing], nextLock := c.nextLock + 1, tags := d.tags,
              threadLocks := map[s.id + 1 := lock], calls := c.calls[id := c.calls[id].(pc := Waiting(lock))])
    ensures d.tags.live == map[1 := s]
  {
    d := InvokeCall(c, id, GOOD);
    assert KEY.service[1..] == [];
  }

  lemma StartsPolling(c: Client, id: nat, s: Stub) returns (d: Client)
    requires Frame(c.calls, id, s, false, Invoking) && StatusOf(c, s) == NegoDoing
    ensures Next(c, Invoke(id, BAD), d) && d == SetCall(c, id, c.calls[id].(pc := Polling(0)))
  {
    d := InvokeCall(c, id, BAD);
  }

  lemma Answered(c: Client, s: Stub) returns (d: Client)
    requires c.registered == [s] && c.tags.live == map[1 := s] && s !in c.sessions && s.id + 1 in c.threadLocks
    ensures Next(c, Reply(Answer(s.id + 1)), d)
    ensures d == c.(sessions := c.sessions[s := SessionOf(Answer(s.id + 1))],
                    ready := c.ready + {c.threadLocks[s.id + 1]},
                    threadLocks := c.threadLocks - {s.id + 1})
  {
    assert CStr(ZeroBuffer()) == [];
    d := OnReply(c, Answer(s.id + 1));
  }

  lemma Wakes(c: Client, id: nat, s: Stub) returns (d: Client)
    requires MayWake(c, id) && c.calls[id].stub == s && s in c.sessions
    ensures Next(c, Woken(id), d)
    ensures d == c.(status := c.status[s := NegoFinished], calls := c.calls[id := AfterInvoke(c.calls[id], DBINDER_OK)])
  {
    d := WokenCall(c, id);
  }

  lemma Tests(c: Client, id: nat) returns (d: Client)
    requires id in c.calls && c.calls[id].pc == FAILED && LastHolder(c, id)
    ensures Next(c, Test(id, true), d)
    ensures d == SetCall(c, id, c.calls[id].(pc := Deleting(DBINDER_SEND_MESSAGE_FAILED)))
  {
    d := TestCall(c, id, true);
  }

  lemma DeletesOnly(c: Client, id: nat, s: Stub) returns (d: Client)
    requires At(c, id, Deleting(DBINDER_SEND_MESSAGE_FAILED)) && c.calls[id].stub.key == KEY && s.key == KEY
    requires c.registered == [] || c.registered == [s]
    ensures Next(c, Delete(id), d)
    ensures d == c.(registered := [], tags := d.tags,
                    calls := c.calls[id := c.calls[id].(pc := Detaching(DBINDER_SEND_MESSAGE_FAILED))])
  {
    d := DeleteCall(c, id);
    WithoutOnly(s);
    assert c.registered == [s] ==> Holder(c.registered, KEY) == {s};
  }

  lemma Detaches(c: Client, id: nat) returns (d: Client)
    requires At(c, id, Detaching(DBINDER_SEND_MESSAGE_FAILED))
    ensures Next(c, Detach(id), d)
    ensures d == c.(sessions := c.sessions - {c.calls[id].stub}, cleaned := d.cleaned,
                    calls := c.calls[id := c.calls[id].(pc := Done(DBINDER_SEND_MESSAGE_FAILED))])
  {
    d := DetachCall(c, id);
  }

  lemma Polls(c: Client, id: nat) returns (d: Client)
    requires At(c, id, Polling(0)) && StatusOf(c, c.calls[id].stub) == NegoFinished
    ensures Next(c, Poll(id), d) && d == SetCall(c, id, AfterInvoke(c.calls[id], DBINDER_OK))
  {
    d := PollCall(c, id);
  }

  // ----- runs

  function Last(states: seq<Client>): Client
    requires |states| > 0
  {
    states[|states| - 1]
  }

  lemma Extend(states: seq<Client>, events: seq<Event>, e: Event, d: Client)
    returns (longer: seq<Client>, more: seq<Event>)
    requires IsRun(states, events) && |states| > 0 && Next(Last(states), e, d)
    ensures longer == states + [d] && more == events + [e]
    ensures IsRun(longer, more) && |longer| > 0 && Last(longer) == d
  {
    hide Next;
    longer, more := states + [d], events + [e];
  }

  /** One call negotiates, another polls, and the status says finished. */
  lemma Negotiated(before: seq<Client>, done: seq<Event>, s: Stub, a: nat, b: nat)
    returns (states: seq<Client>, events: seq<Event>)
    requires IsRun(before, done) && |before| > 0 && a != b && s.key == KEY
    requires Quiet(Last(before), s)
    requires a in Last(before).calls && Frame(Last(before).calls, a, s, Last(before).calls[a].isNew, Invoking)
    requires Frame(Last(before).calls, b, s, false, Invoking)
    ensures IsRun(states, events) && |states| > 0
    ensures var c0, c := Last(before), Last(states);
      && c.registered == [s] && StatusOf(c, s) == NegoFinished && c.noticed == c0.noticed
      && Frame(c.calls, b, s, false, Polling(0)) && c.calls.Keys == c0.calls.Keys
      && forall id :: id in c0.calls && id != a && id != b ==> c.calls[id] == c0.calls[id]
  {
    hide IsRun, Next;
    var c1 := SendsOne(Last(before), a, s);
    states, events := Extend(before, done, Invoke(a, GOOD), c1);
    var c2 := StartsPolling(c1, b, s);
    states, events := Extend(states, events, Invoke(b, BAD), c2);
    var c3 := Answered(c2, s);
    states, events := Extend(states, events, Reply(Answer(s.id + 1)), c3);
    var c4 := Wakes(c3, a, s);
    states, events := Extend(states, events, Woken(a), c4);
  }

  /** A failing call that passed the reference test deletes by key and drops its session. */
  lemma CleanedUp(before: seq<Client>, done: seq<Event>, id: nat, s: Stub)
    returns (states: seq<Client>, events: seq<Event>)
    requires IsRun(before, done) && |before| > 0 && s.key == KEY
    requires At(Last(before), id, Deleting(DBINDER_SEND_MESSAGE_FAILED)) && Last(before).calls[id].stub.key == KEY
    requires Last(before).registered == [] || Last(before).registered == [s]
    ensures IsRun(states, events) && |states| > 0
    ensures var c0, c := Last(before), Last(states);
      && c.registered == [] && c.sessions == c0.sessions - {c0.calls[id].stub} && c.status == c0.status
      && c.noticed == c0.noticed && c.calls == c0.calls[id := c0.calls[id].(pc := Done(DBINDER_SEND_MESSAGE_FAILED))]
  {
    hide IsRun, Next;
    var c1 := DeletesOnly(Last(before), id, s);
    states, events := Extend(before, done, Delete(id), c1);
    var c2 := Detaches(c1, id);
    states, events := Extend(states, events, Detach(id), c2);
  }

  /** Call 0 finds few references; then calls 1 and 2 join its stub. */
  lemma Raced() returns (states: seq<Client>, events: seq<Event>)
    ensures IsRun(states, events) && |states| > 0
    ensures var c := Last(states);
      && Quiet(c, OLD) && c.noticed == {} && c.calls.Keys == {0, 1, 2}
      && Frame(c.calls, 0, OLD, true, Deleting(DBINDER_SEND_MESSAGE_FAILED))
      && Frame(c.calls, 1, OLD, false, Invoking) && Frame(c.calls, 2, OLD, false, Invoking)
  {
    var c1 := Registers(Start(), 0);
    states, events := Extend([Start()], [], Begin(0, KEY, 0), c1);
    hide IsRun, Next;
    var c2 := CannotSend(c1, 0);
    states, events := Extend(states, events, Invoke(0, BAD), c2);
    var c3 := Tests(c2, 0);
    states, events := Extend(states, events, Test(0, true), c3);
    var c4 := Joins(c3, 1, OLD);
    states, events := Extend(states, events, Begin(1, KEY, 0), c4);
    var c5 := Joins(c4, 2, OLD);
    states, events := Extend(states, events, Begin(2, KEY, 0), c5);
  }

  /** Call id has just succeeded with a stub that has no session and had no notice. */
  predicate Bare(states: seq<Client>, id: nat) {
    && |states| > 1
    && !Succeeded(states[|states| - 2], id) && Succeeded(Last(states), id)
    && Last(states).calls[id].stub !in Last(states).sessions
    && Last(states).calls[id].stub !in Last(states).noticed
  }

  /** Without any notice: new callers join between the test and the deletion. */
  lemma RaceWithoutNotice() returns (states: seq<Client>, events: seq<Event>)
    ensures IsRun(states, events) && Bare(states, 2) && Last(states).noticed == {}
  {
    states, events := Raced();
    hide IsRun, Next;
    states, events := Negotiated(states, events, OLD, 1, 2);
    states, events := CleanedUp(states, events, 0, OLD);
    var c := Polls(Last(states), 2);
    states, events := Extend(states, events, Poll(2), c);
  }

  /** Call 0 works for the old stub, which a notice removed; 1, 2 and 3 share the new one. */
  lemma Joined() returns (states: seq<Client>, events: seq<Event>)
    ensures IsRun(states, events) && |states| > 0
    ensures var c := Last(states);
      && Quiet(c, NEW) && c.noticed == {OLD} && c.calls.Keys == {0, 1, 2, 3} && StatusOf(c, OLD) == NegoInit
      && Frame(c.calls, 0, OLD, true, Invoking) && Frame(c.calls, 1, NEW, true, Invoking)
      && Frame(c.calls, 2, NEW, false, Invoking) && Frame(c.calls, 3, NEW, false, Invoking)
  {
    var c1 := Registers(Start(), 0);
    states, events := Extend([Start()], [], Begin(0, KEY, 0), c1);
    hide IsRun, Next;
    var c2 := Dies(c1);
    states, events := Extend(states, events, ServiceDied("1", "dev"), c2);
    var c3 := Registers(c2, 1);
    states, events := Extend(states, events, Begin(1, KEY, 0), c3);
    var c4 := Joins(c3, 2, NEW);
    states, events := Extend(states, events, Begin(2, KEY, 0), c4);
    var c5 := Joins(c4, 3, NEW);
    states, events := Extend(states, events, Begin(3, KEY, 0), c5);
  }

  /** Then calls 0 and 2 fail. */
  lemma Shared() returns (states: seq<Client>, events: seq<Event>)
    ensures IsRun(states, events) && |states| > 0
    ensures var c := Last(states);
      && Quiet(c, NEW) && c.noticed == {OLD} && c.calls.Keys == {0, 1, 2, 3}
      && Frame(c.calls, 0, OLD, true, FAILED) && Frame(c.calls, 1, NEW, true, Invoking)
      && Frame(c.calls, 2, NEW, false, FAILED) && Frame(c.calls, 3, NEW, false, Invoking)
  {
    hide IsRun, Next;
    states, events := Joined();
    var c1 := CannotSend(Last(states), 0);
    states, events := Extend(states, events, Invoke(0, BAD), c1);
    var c2 := CannotSend(c1, 2);
    states, events := Extend(states, events, Invoke(2, BAD), c2);
  }

  /** Without any race: only the old stub with the same key is in noticed. */
  lemma NoticeWithoutRace() returns (states: seq<Client>, events: seq<Event>)
    ensures IsRun(states, events) && Bare(states, 3)
    ensures Last(states).noticed == {OLD} && Last(states).calls[3].stub == NEW
  {
    states, events := Shared();
    hide IsRun, Next;
    states, events := Negotiated(states, events, NEW, 1, 3);
    var c1 := Tests(Last(states), 0);
    states, events := Extend(states, events, Test(0, true), c1);
    states, events := CleanedUp(states, events, 0, NEW);
    var c2 := Tests(Last(states), 2);
    states, events := Extend(states, events, Test(2, true), c2);
    states, events := CleanedUp(states, events, 2, NEW);
    var c3 := Polls(Last(states), 3);
    states, events := Extend(states, events, Poll(3), c3);
  }
}
