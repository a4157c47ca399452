/** Safety of the small DBinder client over whole runs: no lost wake-up, exact waiter lists,
    and which callers may get the same sequence number. */
module SmallDBinderRuns {
  import opened Sequences
  import T = DBinderTypes
  import opened SmallDBinder
  import opened SmallDBinderInvariant

  ghost predicate IsRun(states: seq<State>, events: seq<Event>) {
    && |states| == |events| + 1
    && states[0] == Initial()
    && forall k {:trigger events[k]} :: 0 <= k < |events| ==>
         Enabled(states[k], events[k]) && states[k + 1] == Next(states[k], events[k])
  }

  lemma {:induction false} RunInv(states: seq<State>, events: seq<Event>, k: nat)
    requires IsRun(states, events) && k < |states|
    ensures Inv(states[k])
  {
    if k > 0 {
      hide Next, Enabled;
      RunInv(states, events, k - 1);
      assert Enabled(states[k - 1], events[k - 1]);
      StepKeepsInv(states[k - 1], events[k - 1]);
    }
  }

  // ----- who changes what

  lemma CallerFrame(s: State, e: Event, id: nat)
    requires Enabled(s, e) && id in s.calls && OfCaller(e) && e.id != id
    ensures id in Next(s, e).calls && Next(s, e).calls[id] == s.calls[id]
  {
    hide HasSession, FindStub, HasBinderObject, AfterTry;
  }

  lemma HandlerLeaves(s: State, e: Event, id: nat)
    requires Enabled(s, e) && id in s.calls && !OfCaller(e)
    ensures id in Next(s, e).calls
    ensures Next(s, e).calls[id] == s.calls[id] || SignalsCall(s, e, id, Next(s, e).calls[id])
  {
    hide HasSession, FindNode, HasBinderObject, WellFormed;
  }

  /** The step signals the node a caller waits on. */
  predicate SignalsCall(s: State, e: Event, id: nat, after: Call)
    requires id in s.calls
  {
    && e.Signal? && e.h in s.handlers && s.calls[id].pc.Blocked?
    && s.handlers[e.h].pc == Holding(s.calls[id].pc.node)
    && after == s.calls[id].(pc := Signalled(s.calls[id].pc.node))
  }

  /** A step of another thread leaves a caller alone, but for taking it out of its wait. */
  lemma CallFrame(s: State, e: Event, id: nat)
    requires Enabled(s, e) && id in s.calls && !(OfCaller(e) && e.id == id)
    ensures id in Next(s, e).calls
    ensures Next(s, e).calls[id] == s.calls[id] || SignalsCall(s, e, id, Next(s, e).calls[id])
  {
    hide Next, Enabled, SignalsCall;
    if OfCaller(e) {
      CallerFrame(s, e, id);
    } else {
      HandlerLeaves(s, e, id);
    }
  }

  lemma CallerSparesHandlers(s: State, e: Event)
    requires Enabled(s, e) && OfCaller(e)
    ensures Next(s, e).handlers == s.handlers
  {
    hide HasSession, FindStub, HasBinderObject, AfterTry;
  }

  /** A step of another thread leaves a handler alone. */
  lemma HandlerFrame(s: State, e: Event, h: nat)
    requires Enabled(s, e) && h in s.handlers && (OfCaller(e) || e.h != h)
    ensures h in Next(s, e).handlers && Next(s, e).handlers[h] == s.handlers[h]
  {
    hide HasSession, FindNode, HasBinderObject, WellFormed;
    if OfCaller(e) {
      CallerSparesHandlers(s, e);
      hide Next;
    }
  }

  lemma StubStep(s: State, e: Event, id: nat)
    requires Enabled(s, e) && id in s.calls
    ensures id in Next(s, e).calls && Next(s, e).calls[id].stub == s.calls[id].stub
  {
    if !(OfCaller(e) && e.id == id) {
      CallFrame(s, e, id);
    }
    hide HasSession, FindStub, FindNode, HasBinderObject, WellFormed;
  }

  /** A caller keeps its stub. */
  lemma {:induction false} StubStays(states: seq<State>, events: seq<Event>, i: nat, j: nat, id: nat)
    requires IsRun(states, events) && i <= j <= |events| && id in states[i].calls
    ensures id in states[j].calls && states[j].calls[id].stub == states[i].calls[id].stub
    decreases j
  {
    hide Next, Enabled;
    if i < j {
      StubStays(states, events, i, j - 1, id);
      assert Enabled(states[j - 1], events[j - 1]);
      StubStep(states[j - 1], events[j - 1], id);
    }
  }

  lemma HistoryGrows(s: State, e: Event)
    requires Enabled(s, e)
    ensures s.cleaned <= Next(s, e).cleaned && s.dropped <= Next(s, e).dropped
  {
    hide HasSession, FindStub, FindNode, HasBinderObject, WellFormed;
  }

  lemma {:induction false} HistoryStays(states: seq<State>, events: seq<Event>, i: nat, j: nat)
    requires IsRun(states, events) && i <= j <= |events|
    ensures states[i].cleaned <= states[j].cleaned && states[i].dropped <= states[j].dropped
    decreases j
  {
    hide Next, Enabled;
    if i < j {
      HistoryStays(states, events, i, j - 1);
      assert Enabled(states[j - 1], events[j - 1]);
      HistoryGrows(states[j - 1], events[j - 1]);
    }
  }

  // ----- wake-ups

  /** The request of this try is out and the wait has not timed out. */
  predicate AwaitsReply(pc: Pc, node: Node) {
    pc == Sent(node) || pc == Blocked(node) || pc == Signalled(node)
  }

  /** A signal is never lost: a handler signals a node only while its owner, if the owner's
      request is out and its wait has not timed out, is already in the wait or on its way
      out of it; after the signal it is on its way out. */
  lemma NoLostWakeUp(states: seq<State>, events: seq<Event>, k: nat, h: nat, node: Node)
    requires IsRun(states, events) && k < |events| && events[k] == Signal(h)
    requires HandlerAt(states[k], h, Holding(node))
    requires node.owner in states[k].calls && AwaitsReply(states[k].calls[node.owner].pc, node)
    ensures states[k].calls[node.owner].pc != Sent(node)
    ensures node.owner in states[k + 1].calls && states[k + 1].calls[node.owner].pc == Signalled(node)
  {
    RunInv(states, events, k);
    var s := states[k];
    assert CallerHolds(s.mutexes, node.owner, s.calls[node.owner].pc);
    assert HandlerHolds(s.mutexes, h, s.handlers[h].pc);
    assert Enabled(s, events[k]) && states[k + 1] == Next(s, events[k]);
  }

  /** The handler has looked its waiter up and has not signalled yet. */
  predicate Bound(hd: Handler, node: Node) {
    hd.pc == Found(node) || hd.pc == Holding(node)
  }

  lemma BoundStep(s: State, e: Event, h: nat, node: Node)
    requires Enabled(s, e) && h in s.handlers && Bound(s.handlers[h], node) && e != Signal(h)
    ensures h in Next(s, e).handlers && Bound(Next(s, e).handlers[h], node)
  {
    if OfCaller(e) || e.h != h {
      HandlerFrame(s, e, h);
    }
  }

  lemma {:induction false} BoundStays(states: seq<State>, events: seq<Event>, i: nat, j: nat, h: nat, node: Node)
    requires IsRun(states, events) && i <= j <= |events|
    requires h in states[i].handlers && Bound(states[i].handlers[h], node)
    requires forall m :: i <= m < j ==> events[m] != Signal(h)
    ensures h in states[j].handlers && Bound(states[j].handlers[h], node)
    decreases j
  {
    hide Next, Enabled;
    if i < j {
      BoundStays(states, events, i, j - 1, h, node);
      assert Enabled(states[j - 1], events[j - 1]);
      BoundStep(states[j - 1], events[j - 1], h, node);
    }
  }

  /** The number of the reply belongs to the n-th waiter and to no newer one. */
  predicate Newest(locks: seq<Node>, n: nat, seqNumber: nat) {
    && n < |locks| && locks[n].seqNumber == seqNumber
    && forall j :: 0 <= j < n ==> locks[j].seqNumber != seqNumber
  }

  /** A handler that looks up a number signals the newest waiter of that number. */
  lemma LookupBinds(states: seq<State>, events: seq<Event>, f: nat, i: nat, h: nat, n: nat)
    requires IsRun(states, events) && f < i < |events| && events[f] == FindLock(h) && events[i] == Signal(h)
    requires forall m :: f < m < i ==> events[m] != Signal(h)
    requires h in states[f].handlers && Newest(states[f].locks, n, states[f].handlers[h].msg.seqNumber)
    ensures HandlerAt(states[i], h, Holding(states[f].locks[n]))
  {
    var node := states[f].locks[n];
    RunInv(states, events, f);
    FindsNewest(states[f].locks, n);
    assert Enabled(states[f], events[f]) && states[f + 1] == Next(states[f], events[f]);
    BoundStays(states, events, f + 1, i, h, node);
    assert Enabled(states[i], events[i]);
  }

  /** The request is out and nothing has ended the try. */
  predicate InTry(pc: Pc, node: Node) {
    AwaitsReply(pc, node) || pc == Awake(node, true)
  }

  /** What would end a try without a look at the session, and the look itself. */
  predicate Ends(e: Event, id: nat) {
    e == Expire(id) || e == Wait(id, false) || e == Wake(id, false) || e == Exit(id)
  }

  lemma TryStep(s: State, e: Event, id: nat, node: Node)
    requires Enabled(s, e) && id in s.calls && InTry(s.calls[id].pc, node) && !Ends(e, id)
    ensures id in Next(s, e).calls && Next(s, e).calls[id].stub == s.calls[id].stub
    ensures InTry(Next(s, e).calls[id].pc, node)
  {
    if OfCaller(e) && e.id == id {
      OwnTry(s, e, node);
      hide Next, Enabled;
    } else {
      CallFrame(s, e, id);
      hide Next, Enabled;
    }
  }

  /** From the send to the look for a session the caller itself only waits and wakes. */
  lemma OwnTry(s: State, e: Event, node: Node)
    requires Enabled(s, e) && OfCaller(e) && e.id in s.calls && InTry(s.calls[e.id].pc, node) && !Ends(e, e.id)
    ensures e.id in Next(s, e).calls && Next(s, e).calls[e.id].stub == s.calls[e.id].stub
    ensures InTry(Next(s, e).calls[e.id].pc, node)
  {
    hide HasSession, HasBinderObject, BeginCall, RegisterStub, AttachNode, DropStep, UnlistStep, Leave;
    assert e.Wait? || e.Spurious? || e.Wake?;
  }

  lemma {:induction false} TryGoesOn(states: seq<State>, events: seq<Event>, i: nat, j: nat, id: nat, node: Node)
    requires IsRun(states, events) && i <= j <= |events|
    requires id in states[i].calls && InTry(states[i].calls[id].pc, node)
    requires forall m :: i <= m < j ==> !Ends(events[m], id)
    ensures id in states[j].calls && states[j].calls[id].stub == states[i].calls[id].stub
    ensures InTry(states[j].calls[id].pc, node)
    decreases j
  {
    hide Next, Enabled, InTry, Ends;
    if i < j {
      TryGoesOn(states, events, i, j - 1, id, node);
      assert Enabled(states[j - 1], events[j - 1]);
      TryStep(states[j - 1], events[j - 1], id, node);
    }
  }

  /** A reply handled after the send and before the timeout reaches its caller: from the
      lookup on, if the caller's waiter is the newest of the reply's number and the try goes
      on, the handler's signal finds the caller in the wait, on its way out of it or awake,
      and leaves it on its way out or awake. */
  lemma HandledReplyReachesCaller(states: seq<State>, events: seq<Event>, f: nat, i: nat, h: nat, n: nat)
    requires IsRun(states, events) && f < i < |events| && events[f] == FindLock(h) && events[i] == Signal(h)
    requires forall m :: f < m < i ==> events[m] != Signal(h)
    requires h in states[f].handlers && Newest(states[f].locks, n, states[f].handlers[h].msg.seqNumber)
    requires var node := states[f].locks[n];
      node.owner in states[f].calls && InTry(states[f].calls[node.owner].pc, node)
    requires forall m :: f <= m < i ==> !Ends(events[m], states[f].locks[n].owner)
    ensures var node := states[f].locks[n];
      && node.owner in states[i].calls && states[i].calls[node.owner].pc != Sent(node)
      && node.owner in states[i + 1].calls
      && (states[i + 1].calls[node.owner].pc == Signalled(node) ||
          states[i + 1].calls[node.owner].pc == Awake(node, true))
  {
    var node := states[f].locks[n];
    LookupBinds(states, events, f, i, h, n);
    TryGoesOn(states, events, f, i, node.owner, node);
    if AwaitsReply(states[i].calls[node.owner].pc, node) {
      NoLostWakeUp(states, events, i, h, node);
    } else {
      hide Next;
      assert Enabled(states[i], events[i]);
      CallFrame(states[i], events[i], node.owner);
    }
  }

  // ----- waiters

  /** Whichever way a caller leaves InvokerRemoteDBinder, exactly the node it listed goes, and
      that node was listed once. */
  lemma LeavesWithItsNode(states: seq<State>, events: seq<Event>, k: nat, id: nat)
    requires IsRun(states, events) && k < |events|
    requires events[k] == Exit(id) || events[k] == GiveUp(id) || events[k] == Wait(id, false)
    ensures id in states[k].calls && NodeOf(states[k].calls[id].pc).Some?
    ensures var node := NodeOf(states[k].calls[id].pc).value;
      && node.owner == id
      && id in states[k + 1].calls
      && node in states[k].locks && node !in states[k + 1].locks
      && (forall other :: other != node ==> (other in states[k + 1].locks <==> other in states[k].locks))
      && |states[k + 1].locks| == |states[k].locks| - 1
      && NodeOf(states[k + 1].calls[id].pc) == T.None
  {
    RunInv(states, events, k);
    assert Enabled(states[k], events[k]) && states[k + 1] == Next(states[k], events[k]);
    LeavingUnlists(states[k], events[k], id);
    var s := states[k];
    hide Next, Enabled, MutexInv, StubsInv, BackedInv;
    assert Lists(s.locks, id, s.calls[id].pc);
    LeaveStepExact(s, id, NodeOf(s.calls[id].pc).value);
  }

  lemma LeavingUnlists(s: State, e: Event, id: nat)
    requires Enabled(s, e) && (e == Exit(id) || e == GiveUp(id) || e == Wait(id, false))
    ensures id in s.calls && id in Next(s, e).calls && NodeOf(s.calls[id].pc).Some?
    ensures Next(s, e).locks == Without(s.locks, {NodeOf(s.calls[id].pc).value})
    ensures NodeOf(Next(s, e).calls[id].pc) == T.None
  {
    hide HasSession, Without;
  }

  lemma LeaveStepExact(s: State, id: nat, node: Node)
    requires NodesInv(s.locks, s.calls, s.nextNode) && node in s.locks
    ensures var rest := Without(s.locks, {node});
      && (forall other :: other in rest <==> other in s.locks && other != node)
      && |rest| == |s.locks| - 1
  {
    WithoutMembers(s.locks, {node});
    var i :| 0 <= i < |s.locks| && s.locks[i] == node;
    EraseIsWithout(s.locks, i);
  }

  /** In every state the waiter list holds exactly the nodes of the callers between attaching
      and leaving. */
  lemma WaitersAreCallers(states: seq<State>, events: seq<Event>, k: nat, node: Node)
    requires IsRun(states, events) && k < |states|
    ensures node in states[k].locks <==>
      node.owner in states[k].calls && NodeOf(states[k].calls[node.owner].pc) == T.Some(node)
  {
    RunInv(states, events, k);
    var s := states[k];
    if node.owner in s.calls {
      assert Lists(s.locks, node.owner, s.calls[node.owner].pc);
    }
    if node in s.locks {
      assert Owned(s.calls, node);
    }
  }

  // ----- sequence numbers

  /** How often the counter was advanced. */
  function Advances(events: seq<Event>): nat {
    if events == [] then 0
    else Advances(events[..|events| - 1]) + if events[|events| - 1].Advance? then 1 else 0
  }

  function Wrap32(a: nat): nat { a % T.TWO_32 }

  lemma WrapSucc(a: nat)
    ensures Wrap32(Wrap32(a) + 1) == Wrap32(a + 1)
  {
    assert T.TWO_32 == 0x1_0000_0000;
  }

  lemma CounterStep(s: State, e: Event)
    requires Enabled(s, e)
    ensures Next(s, e).counter == if e.Advance? then Wrap32(s.counter + 1) else s.counter
  {
    hide HasSession, FindStub, Attaches, FindNode;
  }

  lemma {:induction false} CounterAt(states: seq<State>, events: seq<Event>, k: nat)
    requires IsRun(states, events) && k < |states|
    ensures states[k].counter == Wrap32(Advances(events[..k]))
  {
    hide Next, Enabled, Wrap32, Advances;
    NoAdvances();
    if k > 0 {
      AdvancesStep(events, k);
      WrapSucc(Advances(events[..k - 1]));
      CounterAt(states, events, k - 1);
      assert Enabled(states[k - 1], events[k - 1]);
      CounterStep(states[k - 1], events[k - 1]);
    } else {
      assert events[..k] == [];
    }
  }

  lemma NoAdvances()
    ensures Wrap32(Advances([])) == Initial().counter
  {
  }

  lemma AdvancesStep(events: seq<Event>, k: nat)
    requires 0 < k <= |events|
    ensures Advances(events[..k]) == Advances(events[..k - 1]) + if events[k - 1].Advance? then 1 else 0
  {
    assert events[..k][..k - 1] == events[..k - 1];
  }

  /** The counter is read after its mutex is released, so two callers get the same number
      exactly when a multiple of 2^32 advances lies between their reads; none at all will do. */
  lemma SameNumber(states: seq<State>, events: seq<Event>, i: nat, j: nat, a: nat, b: nat)
    requires IsRun(states, events) && i < j < |events| && events[i] == Read(a) && events[j] == Read(b)
    ensures a in states[i + 1].calls && b in states[j + 1].calls
    ensures states[i + 1].calls[a].seqNumber == states[j + 1].calls[b].seqNumber <==>
      Advances(events[..i]) % T.TWO_32 == Advances(events[..j]) % T.TWO_32
  {
    CounterAt(states, events, i);
    CounterAt(states, events, j);
    assert Enabled(states[i], events[i]) && states[i + 1] == Next(states[i], events[i]);
    assert Enabled(states[j], events[j]) && states[j + 1] == Next(states[j], events[j]);
  }

  /** A reply finds the waiter of its number exactly when no newer waiter has that number. */
  lemma {:induction false} FindsNewest(locks: seq<Node>, i: nat)
    requires i < |locks| && forall j, k :: 0 <= j < k < |locks| ==> locks[j] != locks[k]
    ensures FindNode(locks, locks[i].seqNumber) == T.Some(locks[i]) <==>
      forall j :: 0 <= j < i ==> locks[j].seqNumber != locks[i].seqNumber
  {
    if i > 0 {
      FindsNewest(locks[1..], i - 1);
      assert forall j :: 1 <= j < i ==> locks[j] == locks[1..][j - 1];
      assert forall j :: 0 <= j < i - 1 ==> locks[1..][j] == locks[j + 1];
      assert locks[0] != locks[i];
    }
  }

  // ----- two callers under one number

  function Last(states: seq<State>): State
    requires |states| > 0
  {
    states[|states| - 1]
  }

  lemma Extend(states: seq<State>, events: seq<Event>, e: Event) returns (longer: seq<State>, more: seq<Event>)
    requires IsRun(states, events) && |states| > 0 && Enabled(Last(states), e)
    ensures longer == states + [Next(Last(states), e)] && more == events + [e]
    ensures IsRun(longer, more) && |longer| > 0 && Last(longer) == Next(Last(states), e)
  {
    hide Next, Enabled;
    longer, more := states + [Next(Last(states), e)], events + [e];
  }

  const SHARED: Stub := Stub(0, "s", "b", 7)

  /** Two callers share a stub, both past the same point. */
  predicate Pair(s: State, a: Pc, b: Pc, counter: nat) {
    && s.stubs == [SHARED] && s.calls.Keys == {0, 1} && s.counter == counter && s.locks == []
    && s.calls[0].stub == SHARED && s.calls[1].stub == SHARED && s.calls[0].pc == a && s.calls[1].pc == b
  }

  lemma BothStart() returns (states: seq<State>, events: seq<Event>)
    ensures IsRun(states, events) && |states| > 0 && Pair(Last(states), Start, Start, 0)
  {
    states, events := Extend([Initial()], [], Begin(0, "s", "b", 7));
    hide IsRun;
    states, events := Extend(states, events, Register(0, true));
    states, events := Extend(states, events, Begin(1, "s", "b", 7));
  }

  lemma BothNumbered() returns (states: seq<State>, events: seq<Event>)
    ensures IsRun(states, events) && |states| > 0 && Pair(Last(states), Numbered, Numbered, 2)
    ensures Last(states).calls[0].seqNumber == 2 && Last(states).calls[1].seqNumber == 2
  {
    states, events := BothStart();
    hide IsRun;
    states, events := Extend(states, events, Advance(0));
    assert Pair(Last(states), Counting, Start, 1);
    states, events := Extend(states, events, Advance(1));
    assert Pair(Last(states), Counting, Counting, 2);
    states, events := Extend(states, events, Read(0));
    states, events := Extend(states, events, Read(1));
  }

  /** Two callers wait under one number, and a reply with it finds only the newer one. */
  lemma SharedNumber() returns (states: seq<State>, events: seq<Event>)
    ensures IsRun(states, events) && |states| > 0
    ensures var locks := Last(states).locks;
      && |locks| == 2 && locks[0].owner == 1 && locks[1].owner == 0
      && locks[0].seqNumber == locks[1].seqNumber == 2 && FindNode(locks, 2) == T.Some(locks[0])
  {
    states, events := BothNumbered();
    hide IsRun;
    states, events := Extend(states, events, Attach(0, true));
    states, events := Extend(states, events, Attach(1, true));
  }
}
