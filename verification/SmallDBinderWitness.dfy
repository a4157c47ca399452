/** Runs of the small DBinder client in which two handlers list two sessions for one stub, a
    failed call leaves one of them behind, and a late reply makes a session for a stub that
    is gone. */
module SmallDBinderWitness {
  import opened Sequences
  import T = DBinderTypes
  import opened SmallDBinder
  import opened SmallDBinderRuns
  import opened SmallDBinderSessions

  const FIRST: Stub := Stub(0, "s", "b", 7)
  const SECOND: Stub := Stub(1, "s", "c", 7)

  /** A good reply to the first stub. */
  const REPLY: T.Message :=
    T.Message(1, 0, T.MESSAGE_AS_REPLY, 0, 0, 5, 1, 7, 0, "b", "a", 0, 0, T.ZeroBuffer(), 0, 0)

  lemma ReplyIsGood()
    ensures WellFormed(REPLY) && REPLY.stub == 0 && REPLY.binderObject == 7
  {
    assert T.CStr(REPLY.serviceName) == [];
  }

  /** Caller 0 alone, having failed some tries for its stub. */
  predicate Alone(s: State, tries: nat) {
    && s.stubs == [FIRST] && s.sessions == [] && s.handlers == map[] && s.cleaned == {} && s.nextStub == 1
    && s.calls.Keys == {0} && s.calls[0].stub == FIRST && s.calls[0].tries == tries
    && s.calls[0].pc == if tries < T.RETRY_TIMES then Start else Failed
  }

  lemma FirstCall() returns (states: seq<State>, events: seq<Event>)
    ensures IsRun(states, events) && |states| > 0 && Alone(Last(states), 0)
  {
    states, events := Extend([Initial()], [], Begin(0, "s", "b", 7));
    hide IsRun;
    states, events := Extend(states, events, Register(0, true));
  }

  /** One more try that fails for want of memory. */
  lemma FailedTry(before: seq<State>, done: seq<Event>, tries: nat) returns (states: seq<State>, events: seq<Event>)
    requires IsRun(before, done) && |before| > 0 && Alone(Last(before), tries) && tries < T.RETRY_TIMES
    ensures IsRun(states, events) && |states| > 0 && Alone(Last(states), tries + 1)
  {
    hide IsRun;
    states, events := Extend(before, done, Advance(0));
    assert Last(states).calls[0].pc == Counting;
    states, events := Extend(states, events, Read(0));
    assert Last(states).calls[0].pc == Numbered;
    states, events := Extend(states, events, Attach(0, false));
  }

  lemma FailedCall() returns (states: seq<State>, events: seq<Event>)
    ensures IsRun(states, events) && |states| > 0 && Alone(Last(states), T.RETRY_TIMES)
  {
    hide IsRun;
    states, events := FirstCall();
    states, events := FailedTry(states, events, 0);
    states, events := FailedTry(states, events, 1);
  }

  // ----- two handlers

  /** Two handlers of replies for the first stub, both past the same point. */
  predicate Both(s: State, pc: HandlerPc) {
    && s.stubs == [FIRST] && s.sessions == [] && At(s, 0, Failed) && s.calls[0].stub == FIRST
    && s.handlers == map[0 := Handler(REPLY, pc, false), 1 := Handler(REPLY, pc, false)]
  }

  lemma BothChecked() returns (states: seq<State>, events: seq<Event>)
    ensures IsRun(states, events) && |states| > 0 && Both(Last(states), Checked)
  {
    hide IsRun, WellFormed;
    ReplyIsGood();
    states, events := FailedCall();
    assert Last(states).stubs[0].binderObject == 7;
    states, events := Extend(states, events, Arrive(0, REPLY));
    states, events := Extend(states, events, Arrive(1, REPLY));
    assert Both(Last(states), Arrived);
    states, events := Extend(states, events, CheckStub(0));
    states, events := Extend(states, events, CheckStub(1));
    assert Both(Last(states), StubKnown);
    states, events := Extend(states, events, CheckSession(0));
    states, events := Extend(states, events, CheckSession(1));
  }

  lemma TwoCount(session: SessionInfo)
    ensures CountOf([session, session], session.stub) == 2
  {
    assert [session][1..] == [];
    assert CountOf([session], session.stub) == 1;
    assert [session, session][1..] == [session];
  }

  /** Both handlers have attached a session for the stub of a failed call. */
  predicate Doubled(s: State) {
    && s.sessions == [SessionOf(REPLY), SessionOf(REPLY)] && At(s, 0, Failed) && s.calls[0].stub == FIRST
  }

  lemma BothAttached() returns (states: seq<State>, events: seq<Event>)
    ensures IsRun(states, events) && |states| > 0 && Doubled(Last(states))
  {
    hide IsRun, WellFormed, CountOf;
    states, events := BothChecked();
    states, events := Extend(states, events, AttachSession(0, true));
    states, events := Extend(states, events, AttachSession(1, true));
  }

  /** The clean-up of the failed call takes only one of the two sessions. */
  lemma FailureLeavesSession() returns (states: seq<State>, events: seq<Event>)
    ensures IsRun(states, events) && |events| > 1 && |states| == |events| + 1 && events[|events| - 1] == Unlist(0)
    ensures !AtMostOne(states[|events| - 2].sessions)
    ensures var s := Last(states); HasSession(s.sessions, 0) && At(s, 0, Done(false)) && s.calls[0].stub.cookie == 0
  {
    states, events := BothAttached();
    hide WellFormed;
    TwoCount(SessionOf(REPLY));
    assert SessionOf(REPLY).stub == 0;
    states, events := Extend(states, events, Drop(0));
    assert Last(states).sessions == [SessionOf(REPLY)];
    states, events := Extend(states, events, Unlist(0));
    assert Last(states).sessions[0].stub == 0;
  }

  // ----- a late reply

  /** Stub 0 was cleaned up, and stub 1 with the same binder object is listed. */
  predicate Stage(s: State) {
    s.handlers == map[] && s.sessions == [] && 0 in s.cleaned && s.stubs == [SECOND]
  }

  /** Stub 0 was cleaned up and nothing else has happened. */
  predicate Gone(s: State) {
    && s.stubs == [] && s.nextStub == 1 && s.calls.Keys == {0} && s.handlers == map[] && s.sessions == []
    && 0 in s.cleaned
  }

  lemma FirstGone() returns (states: seq<State>, events: seq<Event>)
    ensures IsRun(states, events) && |states| > 0 && Gone(Last(states))
  {
    hide IsRun;
    states, events := FailedCall();
    assert Without([FIRST], {FIRST}) == [] by {
      assert [FIRST][..0] == [];
    }
    states, events := Extend(states, events, Drop(0));
    assert Last(states).stubs == [FIRST] && Last(states).calls[0].stub == FIRST;
    states, events := Extend(states, events, Unlist(0));
  }

  lemma StageReached() returns (states: seq<State>, events: seq<Event>)
    ensures IsRun(states, events) && |states| > 0 && Stage(Last(states))
  {
    hide IsRun;
    states, events := FirstGone();
    states, events := Extend(states, events, Begin(1, "s", "c", 7));
    states, events := Extend(states, events, Register(1, true));
  }

  /** A reply for the stub that was cleaned up makes a session, because another listed stub
      has its binder object. */
  lemma LateReplyStrays() returns (states: seq<State>, events: seq<Event>)
    ensures IsRun(states, events) && |states| > 0 && !Homed(Last(states))
    ensures HasSession(Last(states).sessions, 0) && 0 in Last(states).cleaned
  {
    hide IsRun, WellFormed;
    ReplyIsGood();
    states, events := StageReached();
    assert Last(states).stubs[0].binderObject == 7;
    states, events := Extend(states, events, Arrive(0, REPLY));
    states, events := Extend(states, events, CheckStub(0));
    states, events := Extend(states, events, CheckSession(0));
    states, events := Extend(states, events, AttachSession(0, true));
    assert Last(states).sessions[0].stub == 0;
  }
}
