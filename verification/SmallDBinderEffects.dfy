/** What the steps of the small DBinder client do to its lists and callers, said field by
    field, how often a call tries, and a whole call that succeeds. */
module SmallDBinderEffects {
  import opened Sequences
  import T = DBinderTypes
  import opened SmallDBinder
  import opened SmallDBinderInvariant
  import opened SmallDBinderRuns
  import opened SmallDBinderSessions

  // ----- finding a stub

  /** The stub has this service, device and binder object. */
  predicate Matches(stub: Stub, service: string, device: string, binderObject: nat) {
    stub.service == service && stub.device == device && stub.binderObject == binderObject
  }

  /** The search finds the first listed stub with all three, and nothing exactly when no
      listed stub has all three. */
  lemma {:induction false} SearchFindsFirst(stubs: seq<Stub>, service: string, device: string, binderObject: nat,
                                            i: nat)
    requires i <= |stubs|
    requires forall j :: 0 <= j < i ==> !Matches(stubs[j], service, device, binderObject)
    requires i < |stubs| ==> Matches(stubs[i], service, device, binderObject)
    ensures FindStub(stubs, service, device, binderObject) == if i < |stubs| then T.Some(stubs[i]) else T.None
  {
    if i > 0 {
      assert forall j :: 0 <= j < i - 1 ==> stubs[1..][j] == stubs[j + 1];
      SearchFindsFirst(stubs[1..], service, device, binderObject, i - 1);
    }
  }

  /** A call for a listed stub shares it; a call for one that is not listed starts to make a
      new one with these three, known to nobody else. */
  lemma BeginFindsOrMakes(s: State, id: nat, service: string, device: string, binderObject: nat, i: nat)
    requires Inv(s) && i <= |s.stubs|
    requires forall j :: 0 <= j < i ==> !Matches(s.stubs[j], service, device, binderObject)
    requires i < |s.stubs| ==> Matches(s.stubs[i], service, device, binderObject)
    ensures var d := BeginCall(s, id, service, device, binderObject);
      && id in d.calls && d.calls[id].tries == 0 && d.stubs == s.stubs
      && d.calls == s.calls[id := d.calls[id]]
      && (i < |s.stubs| ==> d.calls[id].stub == s.stubs[i] && d.calls[id].pc == Start)
      && (i == |s.stubs| ==>
            && Matches(d.calls[id].stub, service, device, binderObject) && d.calls[id].pc == Creating
            && d.calls[id].stub !in s.stubs
            && forall k :: k in s.calls ==> s.calls[k].stub.cookie != d.calls[id].stub.cookie)
  {
    SearchFindsFirst(s.stubs, service, device, binderObject, i);
    assert forall k :: k in s.calls ==>
      CallerStub(s.stubs, s.cleaned, s.nextStub, s.calls[k].stub, s.calls[k].pc.Creating?);
  }

  /** A new stub is listed in front and the call goes on, or, without memory, the call fails
      at once and nothing is listed. */
  lemma RegisterDecides(s: State, id: nat, alloc: bool)
    requires Enabled(s, Register(id, alloc))
    ensures var d := Next(s, Register(id, alloc)); var call := s.calls[id];
      && d.stubs == (if alloc then [call.stub] + s.stubs else s.stubs)
      && d.calls == s.calls[id := call.(pc := if alloc then Start else Done(false))]
      && d.(stubs := s.stubs, calls := s.calls) == s
  {
  }

  /** A request that goes out lets the caller wait; one that does not leaves it holding its
      mutex with an error, and the try can only fail. */
  lemma SendDecides(s: State, id: nat, sent: bool)
    requires Enabled(s, Send(id, sent))
    ensures var d := Next(s, Send(id, sent)); var call := s.calls[id];
      && d.(calls := s.calls) == s
      && d.calls == s.calls[id := call.(pc := if sent then Sent(call.pc.node) else Awake(call.pc.node, false))]
      && (!sent ==> Enabled(d, Exit(id)) && Next(d, Exit(id)).calls[id].pc != Done(true))
  {
  }

  // ----- tries

  /** A call is in one of two tries until it succeeds or both have failed. */
  predicate TryInv(call: Call) {
    match call.pc
    case Creating => call.tries == 0
    case Failed => call.tries == 2
    case Dropped => call.tries == 2
    case Done(ok) => if ok then 1 <= call.tries <= 2 else call.tries == 2 || call.tries == 0
    case _ => call.tries < 2
  }

  lemma OwnTryStep(s: State, e: Event)
    requires Enabled(s, e) && OfCaller(e) && (e.id in s.calls ==> TryInv(s.calls[e.id]))
    ensures e.id in Next(s, e).calls && TryInv(Next(s, e).calls[e.id])
  {
    hide HasSession, FindStub, HasBinderObject;
  }

  lemma CallersStay(s: State, e: Event, id: nat)
    requires Enabled(s, e) && id in Next(s, e).calls && !(OfCaller(e) && e.id == id)
    ensures id in s.calls
  {
    hide HasSession, FindStub, FindNode, HasBinderObject, WellFormed, AfterTry;
  }

  lemma TryInvStep(s: State, e: Event, id: nat)
    requires Enabled(s, e) && id in Next(s, e).calls && (id in s.calls ==> TryInv(s.calls[id]))
    ensures TryInv(Next(s, e).calls[id])
  {
    hide Next, Enabled;
    if OfCaller(e) && e.id == id {
      OwnTryStep(s, e);
    } else {
      CallersStay(s, e, id);
      CallFrame(s, e, id);
    }
  }

  /** In every run a call makes at most two tries; it gives up only after two, and succeeds in
      its first or second. */
  lemma {:induction false} TwoTries(states: seq<State>, events: seq<Event>, k: nat, id: nat)
    requires IsRun(states, events) && k < |states| && id in states[k].calls
    ensures TryInv(states[k].calls[id])
  {
    hide Next, Enabled, TryInv;
    assert k > 0 by {
      assert states[0] == Initial();
    }
    assert Enabled(states[k - 1], events[k - 1]);
    if id in states[k - 1].calls {
      TwoTries(states, events, k - 1, id);
    }
    TryInvStep(states[k - 1], events[k - 1], id);
  }

  /** A try succeeds exactly when the wait reported no error and the stub has a session; a
      failed first try starts again with a new number, a failed second one gives up. Either
      way the caller's node and its mutex are gone. */
  lemma ExitDecides(s: State, id: nat)
    requires Enabled(s, Exit(id))
    ensures var d := Next(s, Exit(id)); var call := s.calls[id];
      && (d.calls[id].pc == Done(true) <==> call.pc.ret && HasSession(s.sessions, call.stub.cookie))
      && (d.calls[id].pc != Done(true) && call.tries == 0 ==> d.calls[id].pc == Start)
      && (d.calls[id].pc != Done(true) && call.tries == 1 ==> d.calls[id].pc == Failed)
      && d.calls[id].tries == call.tries + 1 && d.calls[id].stub == call.stub
      && call.pc.node !in d.mutexes && d.sessions == s.sessions && d.stubs == s.stubs
  {
    hide HasSession;
  }

  /** A wait that timed out, or could not start, fails the try. */
  lemma TimeoutFailsTry(s: State, id: nat, e: Event)
    requires Enabled(s, e) && (e == GiveUp(id) || e == Wait(id, false))
    ensures var d := Next(s, e); var call := s.calls[id];
      && d.calls[id] == call.(tries := call.tries + 1, pc := if call.tries == 0 then Start else Failed)
      && call.pc.node !in d.mutexes
  {
  }

  /** A timeout leaves the wait for good: when the caller gets its mutex back the try has
      failed, whatever sessions there are. */
  lemma TimeoutIsFinal(s: State, id: nat, ret: bool)
    requires Enabled(s, Expire(id))
    ensures var d := Next(s, Expire(id)); var node := s.calls[id].pc.node;
      && d.(calls := s.calls) == s && id in d.calls && d.calls == s.calls[id := d.calls[id]]
      && !Enabled(d, Wake(id, ret))
      && (node !in s.mutexes ==> Enabled(d, GiveUp(id)) && Next(d, GiveUp(id)).calls[id].pc != Done(true))
  {
  }

  /** A wait that ends without a signal goes on like a signalled one. */
  lemma SpuriousWakes(s: State, id: nat, ret: bool)
    requires Enabled(s, Spurious(id))
    ensures var d := Next(s, Spurious(id)); var call := s.calls[id];
      && d.(calls := s.calls) == s && id in d.calls && d.calls == s.calls[id := d.calls[id]]
      && !Enabled(d, GiveUp(id))
      && (call.pc.node !in s.mutexes ==>
            Enabled(d, Wake(id, ret)) && Next(d, Wake(id, ret)).calls[id] == call.(pc := Awake(call.pc.node, ret)))
  {
  }

  // ----- replies for unknown binder objects

  /** Some listed stub has the binder object. */
  predicate KnownObject(s: State, binderObject: nat) {
    exists i :: 0 <= i < |s.stubs| && s.stubs[i].binderObject == binderObject
  }

  /** A handler past its first check: its reply's binder object was known when it passed. */
  lemma PassedCheck(s: State, e: Event, h: nat)
    requires Enabled(s, e) && h in Next(s, e).handlers
    requires Next(s, e).handlers[h].pc == StubKnown || Next(s, e).handlers[h].pc == Checked
    ensures h in s.handlers && Next(s, e).handlers[h].msg == s.handlers[h].msg
    ensures (s.handlers[h].pc == StubKnown || s.handlers[h].pc == Checked) ||
            (e == CheckStub(h) && KnownObject(s, s.handlers[h].msg.binderObject))
  {
    if h in s.handlers && (OfCaller(e) || e.h != h) {
      HandlerFrame(s, e, h);
    }
    hide HasSession, FindStub, FindNode, WellFormed, AfterTry;
  }

  lemma {:induction false} CheckedWasKnown(states: seq<State>, events: seq<Event>, k: nat, h: nat) returns (i: nat)
    requires IsRun(states, events) && k < |states| && h in states[k].handlers
    requires states[k].handlers[h].pc == StubKnown || states[k].handlers[h].pc == Checked
    ensures i < k && KnownObject(states[i], states[k].handlers[h].msg.binderObject)
  {
    hide Next, Enabled, KnownObject;
    assert k > 0 by {
      assert states[0] == Initial();
    }
    assert Enabled(states[k - 1], events[k - 1]);
    PassedCheck(states[k - 1], events[k - 1], h);
    if states[k - 1].handlers[h].pc == StubKnown || states[k - 1].handlers[h].pc == Checked {
      i := CheckedWasKnown(states, events, k - 1, h);
    } else {
      i := k - 1;
    }
  }

  /** No reply makes a session unless some stub with its binder object was listed before. */
  lemma SessionNeedsKnownObject(states: seq<State>, events: seq<Event>, k: nat, h: nat, alloc: bool) returns (i: nat)
    requires IsRun(states, events) && k < |events| && events[k] == AttachSession(h, alloc)
    ensures h in states[k].handlers
    ensures i < k && KnownObject(states[i], states[k].handlers[h].msg.binderObject)
  {
    assert Enabled(states[k], events[k]);
    i := CheckedWasKnown(states, events, k, h);
  }

  /** What a reply must say to make a session: its binder object is that of a listed stub, its
      stub has no session, its name has the stated length and its index is not 0. */
  lemma AttachesExactly(stubs: seq<Stub>, sessions: seq<SessionInfo>, m: T.Message)
    ensures Attaches(stubs, sessions, m) <==>
      && (exists i :: 0 <= i < |stubs| && stubs[i].binderObject == m.binderObject)
      && (forall i :: 0 <= i < |sessions| ==> sessions[i].stub != m.stub)
      && |T.CStr(m.serviceName)| == m.serviceNameLength && m.serviceNameLength <= 200
      && m.stubIndex != 0
  {
  }

  /** A handler nobody interrupts passes both checks and attaches exactly such a reply; any
      other is done with the session after its checks. */
  lemma UninterruptedHandler(s: State, h: nat, alloc: bool)
    requires HandlerAt(s, h, Arrived)
    ensures var m := s.handlers[h].msg; var d := Next(s, CheckStub(h));
      if Attaches(s.stubs, s.sessions, m) then
        && Enabled(d, CheckSession(h))
        && Enabled(Next(d, CheckSession(h)), AttachSession(h, alloc))
        && var e := Next(Next(d, CheckSession(h)), AttachSession(h, alloc));
           && HandlerAt(e, h, Made)
           && e.sessions == if alloc then [SessionOf(m)] + s.sessions else s.sessions
      else
        HandlerAt(d, h, Made) || (Enabled(d, CheckSession(h)) && HandlerAt(Next(d, CheckSession(h)), h, Made))
  {
    hide HasSession, HasBinderObject, WellFormed;
  }

  /** The handler goes on with a listed node of the reply's number; if there is none it ends
      and changes nothing. */
  lemma LookupDecides(s: State, h: nat)
    requires Enabled(s, FindLock(h))
    ensures var d := Next(s, FindLock(h)); var n := s.handlers[h].msg.seqNumber;
      && d.(handlers := s.handlers) == s
      && ((forall i :: 0 <= i < |s.locks| ==> s.locks[i].seqNumber != n) ==> d.handlers == s.handlers - {h})
      && ((exists i :: 0 <= i < |s.locks| && s.locks[i].seqNumber == n) ==>
            && h in d.handlers && d.handlers[h].pc.Found? && d.handlers[h].pc.node in s.locks
            && d.handlers[h].pc.node.seqNumber == n)
  {
    FoundIsListed(s.locks, s.handlers[h].msg.seqNumber);
  }

  lemma {:induction false} FoundIsListed(locks: seq<Node>, n: nat)
    ensures FindNode(locks, n).None? <==> forall i :: 0 <= i < |locks| ==> locks[i].seqNumber != n
    ensures FindNode(locks, n).Some? ==>
      FindNode(locks, n).value in locks && FindNode(locks, n).value.seqNumber == n
  {
    if locks != [] {
      FoundIsListed(locks[1..], n);
      assert forall i :: 1 <= i < |locks| ==> locks[i] == locks[1..][i - 1];
    }
  }

  // ----- a whole call

  const MINE: Stub := Stub(0, "s", "b", 7)

  const ANSWER: T.Message :=
    T.Message(1, 0, T.MESSAGE_AS_REPLY, 3, 4, 5, 1, 7, 0, "b", "a", 0, 0, T.ZeroBuffer(), 0, 0)

  /** Caller 0 alone at this point, with nothing else going on. */
  predicate Alone(s: State, pc: Pc) {
    && s.stubs == [MINE] && s.calls.Keys == {0} && s.calls[0].stub == MINE && s.calls[0].pc == pc
    && s.calls[0].tries == 0 && s.handlers == map[] && s.sessions == []
  }

  lemma RequestOut() returns (states: seq<State>, events: seq<Event>, node: Node)
    ensures IsRun(states, events) && |states| > 0
    ensures var s := Last(states);
      Alone(s, Blocked(node)) && s.locks == [node] && node == Node(0, 1, 0) && s.mutexes == map[]
  {
    states, events, node := NodeLocked();
    hide IsRun;
    states, events := Extend(states, events, Send(0, true));
    assert Alone(Last(states), Sent(node));
    states, events := Extend(states, events, Wait(0, true));
  }

  lemma NodeLocked() returns (states: seq<State>, events: seq<Event>, node: Node)
    ensures IsRun(states, events) && |states| > 0
    ensures var s := Last(states);
      && Alone(s, Locked(node)) && s.locks == [node] && node == Node(0, 1, 0)
      && s.mutexes == map[node := ByCaller]
  {
    states, events := Numbered1();
    hide IsRun;
    node := Node(0, 1, 0);
    states, events := Extend(states, events, Attach(0, true));
    assert Alone(Last(states), Attached(node)) && Last(states).locks == [node];
    states, events := Extend(states, events, LockNode(0));
  }

  lemma Numbered1() returns (states: seq<State>, events: seq<Event>)
    ensures IsRun(states, events) && |states| > 0
    ensures var s := Last(states);
      Alone(s, Numbered) && s.calls[0].seqNumber == 1 && s.locks == [] && s.mutexes == map[] && s.nextNode == 0
  {
    states, events := Extend([Initial()], [], Begin(0, "s", "b", 7));
    hide IsRun;
    states, events := Extend(states, events, Register(0, true));
    assert Alone(Last(states), Start);
    states, events := Extend(states, events, Advance(0));
    states, events := Extend(states, events, Read(0));
  }

  /** The caller waits, its session is listed, and the handler of the reply is at pc. */
  predicate Answering(s: State, pc: HandlerPc, node: Node) {
    && s.calls.Keys == {0} && s.calls[0].stub == MINE && s.calls[0].tries == 0 && s.calls[0].pc == Blocked(node)
    && s.handlers == map[0 := Handler(ANSWER, pc, true)] && s.sessions == [SessionOf(ANSWER)]
    && s.locks == [node] && node == Node(0, 1, 0) && s.mutexes == map[]
  }

  lemma AnswerIsGood()
    ensures WellFormed(ANSWER) && ANSWER.stub == 0 && ANSWER.binderObject == 7 && ANSWER.seqNumber == 1
  {
    assert T.CStr(ANSWER.serviceName) == [];
  }

  lemma ReplyHandled() returns (states: seq<State>, events: seq<Event>, node: Node)
    ensures IsRun(states, events) && |states| > 0 && Answering(Last(states), Made, node)
  {
    states, events, node := RequestOut();
    hide IsRun, WellFormed;
    AnswerIsGood();
    assert Last(states).stubs[0].binderObject == 7;
    states, events := Extend(states, events, Arrive(0, ANSWER));
    states, events := Extend(states, events, CheckStub(0));
    states, events := Extend(states, events, CheckSession(0));
    assert Last(states).handlers == map[0 := Handler(ANSWER, Checked, false)];
    states, events := Extend(states, events, AttachSession(0, true));
  }

  lemma CallerSignalled() returns (states: seq<State>, events: seq<Event>, node: Node)
    ensures IsRun(states, events) && |states| > 0
    ensures var s := Last(states);
      && s.calls.Keys == {0} && s.calls[0].stub == MINE && s.calls[0].tries == 0 && s.calls[0].pc == Signalled(node)
      && s.sessions == [SessionOf(ANSWER)] && s.locks == [node] && s.mutexes == map[] && s.handlers == map[]
  {
    states, events, node := ReplyHandled();
    hide IsRun, WellFormed;
    AnswerIsGood();
    states, events := Extend(states, events, FindLock(0));
    assert Answering(Last(states), Found(node), node);
    states, events := Extend(states, events, LockFound(0));
    states, events := Extend(states, events, Signal(0));
  }

  /** A call can succeed: it sends, waits, is answered, signalled and woken, and returns with
      the session of the reply and nothing left in the waiter list. */
  lemma CallSucceeds() returns (states: seq<State>, events: seq<Event>)
    ensures IsRun(states, events) && |states| > 0
    ensures var s := Last(states);
      && At(s, 0, Done(true)) && s.calls[0].stub.cookie == 0 && s.locks == [] && s.mutexes == map[]
      && s.sessions == [SessionInfo(0, 5, "", 0, 4, 3, "b", "a")]
  {
    var node: Node;
    states, events, node := CallerSignalled();
    hide IsRun;
    AnswerIsGood();
    assert Last(states).sessions[0].stub == 0;
    states, events := Extend(states, events, Wake(0, true));
    assert Last(states).sessions == [SessionOf(ANSWER)];
    assert Without([node], {node}) == [] by {
      assert [node][..0] == [];
    }
    states, events := Extend(states, events, Exit(0));
    assert T.CStr(ANSWER.serviceName) == "";
  }
}
