/** The sessions of the small DBinder client over whole runs: where they come from, what
    success and failure leave behind, and exactly when a stub gets two of them or one
    outlives its stub. */
module SmallDBinderSessions {
  import opened Sequences
  import T = DBinderTypes
  import opened SmallDBinder
  import opened SmallDBinderInvariant
  import opened SmallDBinderRuns

  // ----- what success needs

  /** The stub has a session, or a failing call has dropped it. */
  ghost predicate Settled(s: State, cookie: nat) {
    HasSession(s.sessions, cookie) || cookie in s.dropped
  }

  lemma SessionsFrame(s: State, e: Event)
    requires Enabled(s, e) && !e.Drop? && !e.AttachSession?
    ensures Next(s, e).sessions == s.sessions
  {
    hide HasSession, FindStub, FindNode, HasBinderObject, WellFormed;
  }

  /** A session stays listed until a failing call drops it. */
  lemma SettledStep(s: State, e: Event, cookie: nat)
    requires Enabled(s, e) && Settled(s, cookie)
    ensures Settled(Next(s, e), cookie)
  {
    HistoryGrows(s, e);
    if e.Drop? {
      hide HasSession;
      if s.calls[e.id].stub.cookie != cookie {
        DropKeepsOthers(s.sessions, s.calls[e.id].stub.cookie, cookie);
      }
    } else if e.AttachSession? {
      HasSessionHead([SessionOf(s.handlers[e.h].msg)] + s.sessions, cookie);
    } else {
      SessionsFrame(s, e);
      hide Next;
    }
  }

  lemma {:induction false} SessionStays(states: seq<State>, events: seq<Event>, i: nat, j: nat, cookie: nat)
    requires IsRun(states, events) && i <= j <= |events| && Settled(states[i], cookie)
    ensures Settled(states[j], cookie)
    decreases j
  {
    hide Next, Enabled, Settled;
    if i < j {
      SessionStays(states, events, i, j - 1, cookie);
      assert Enabled(states[j - 1], events[j - 1]);
      SettledStep(states[j - 1], events[j - 1], cookie);
    }
  }

  /** From the lookup of a handler whose reply found or made a session for a caller's stub,
      that caller succeeds when it next looks, unless its wait timed out or failed before or
      a failing call on the same stub dropped the session. */
  lemma HandledReplySucceeds(states: seq<State>, events: seq<Event>, f: nat, j: nat, h: nat, id: nat, node: Node)
    requires IsRun(states, events) && f < j < |events| && events[f] == FindLock(h) && events[j] == Exit(id)
    requires HandlerAt(states[f], h, Made) && states[f].handlers[h].backed
    requires id in states[f].calls && InTry(states[f].calls[id].pc, node)
    requires states[f].handlers[h].msg.stub == states[f].calls[id].stub.cookie
    requires forall m :: f <= m < j ==> !Ends(events[m], id)
    requires states[f].calls[id].stub.cookie !in states[j].dropped
    ensures id in states[j + 1].calls && states[j + 1].calls[id].pc == Done(true)
  {
    var cookie := states[f].calls[id].stub.cookie;
    RunInv(states, events, f);
    assert HandlerInv(states[f].handlers[h], states[f].sessions, states[f].dropped);
    HistoryStays(states, events, f, j);
    assert Settled(states[f], cookie);
    SessionStays(states, events, f, j, cookie);
    TryGoesOn(states, events, f, j, id, node);
    ExitStep(states, events, j, id, node);
  }

  lemma ExitStep(states: seq<State>, events: seq<Event>, j: nat, id: nat, node: Node)
    requires IsRun(states, events) && j < |events| && events[j] == Exit(id)
    requires id in states[j].calls && InTry(states[j].calls[id].pc, node)
    requires HasSession(states[j].sessions, states[j].calls[id].stub.cookie)
    ensures id in states[j + 1].calls && states[j + 1].calls[id].pc == Done(true)
  {
    hide HasSession;
    assert Enabled(states[j], events[j]) && states[j + 1] == Next(states[j], events[j]);
  }

  // ----- what success and failure leave behind

  predicate Returned(s: State, id: nat, ok: bool) {
    At(s, id, Done(ok))
  }

  /** A call returns ERR_NONE only from a wait that ended with a session for its own stub, and
      fails only after cleaning up or when no stub could be made. */
  lemma ReturnStep(s: State, e: Event, id: nat, ok: bool)
    requires Enabled(s, e) && !Returned(s, id, ok) && Returned(Next(s, e), id, ok)
    ensures ok ==> e == Exit(id) && HasSession(Next(s, e).sessions, Next(s, e).calls[id].stub.cookie)
    ensures !ok ==> e == Unlist(id) || e == Register(id, false)
  {
    if id in s.calls && !(OfCaller(e) && e.id == id) {
      CallFrame(s, e, id);
    }
    hide FindStub, FindNode, HasBinderObject, WellFormed, HasSession;
  }

  lemma SuccessHasSession(states: seq<State>, events: seq<Event>, k: nat, id: nat)
    requires IsRun(states, events) && k < |events|
    requires !Returned(states[k], id, true) && Returned(states[k + 1], id, true)
    ensures HasSession(states[k + 1].sessions, states[k + 1].calls[id].stub.cookie)
  {
    assert Enabled(states[k], events[k]) && states[k + 1] == Next(states[k], events[k]);
    hide Next, Enabled;
    ReturnStep(states[k], events[k], id, true);
  }

  /** A session of the stub is attached. */
  predicate Gains(s: State, e: Event, cookie: nat) {
    e.AttachSession? && e.alloc && e.h in s.handlers && s.handlers[e.h].msg.stub == cookie
  }

  /** A failing call drops a session of the stub. */
  predicate Loses(s: State, e: Event, cookie: nat) {
    e.Drop? && e.id in s.calls && s.calls[e.id].stub.cookie == cookie
  }

  lemma CountStep(s: State, e: Event, cookie: nat)
    requires Enabled(s, e)
    ensures var n := CountOf(s.sessions, cookie);
      CountOf(Next(s, e).sessions, cookie) ==
        if Gains(s, e, cookie) then n + 1 else if Loses(s, e, cookie) && n > 0 then n - 1 else n
  {
    if e.Drop? {
      DropSessionCount(s.sessions, s.calls[e.id].stub.cookie, cookie);
    } else if e.AttachSession? {
      assert ([SessionOf(s.handlers[e.h].msg)] + s.sessions)[1..] == s.sessions;
    } else {
      SessionsFrame(s, e);
      hide Next;
    }
  }

  /** While no call drops a session of the stub, it has none exactly if it had none and has
      gained none. */
  lemma {:induction false} NoneGained(states: seq<State>, events: seq<Event>, i: nat, j: nat, cookie: nat)
    requires IsRun(states, events) && i <= j <= |events|
    requires forall m :: i <= m < j ==> !Loses(states[m], events[m], cookie)
    ensures CountOf(states[j].sessions, cookie) == 0 <==>
      CountOf(states[i].sessions, cookie) == 0 && forall m :: i <= m < j ==> !Gains(states[m], events[m], cookie)
    decreases j
  {
    hide Next, Enabled, Gains, Loses, CountOf;
    if i < j {
      NoneGained(states, events, i, j - 1, cookie);
      assert Enabled(states[j - 1], events[j - 1]);
      CountStep(states[j - 1], events[j - 1], cookie);
    }
  }

  lemma DropTakesOne(s: State, id: nat)
    requires Enabled(s, Drop(id))
    ensures var n := CountOf(s.sessions, s.calls[id].stub.cookie);
      CountOf(Next(s, Drop(id)).sessions, s.calls[id].stub.cookie) == if n > 0 then n - 1 else 0
  {
    CountStep(s, Drop(id), s.calls[id].stub.cookie);
  }

  /** A call that fails leaves its stub unlisted for good. It leaves no session for it exactly
      when the stub had at most one and gained none between the two halves of the clean-up,
      provided no other failing call dropped one in between. */
  lemma FailureLeavesNothing(states: seq<State>, events: seq<Event>, d: nat, i: nat, j: nat, id: nat)
    requires IsRun(states, events) && d < i < j <= |events| && events[d] == Drop(id) && events[i] == Unlist(id)
    requires id in states[d].calls
    requires forall m :: d < m < i ==> !Loses(states[m], events[m], states[d].calls[id].stub.cookie)
    ensures var cookie := states[d].calls[id].stub.cookie;
      && (!HasSession(states[i + 1].sessions, cookie) <==>
            CountOf(states[d].sessions, cookie) <= 1 && forall m :: d < m < i ==> !Gains(states[m], events[m], cookie))
      && forall stub :: stub in states[j].stubs ==> stub.cookie != cookie
  {
    hide Next, Enabled, Gains, Loses, CountOf, HasSession;
    var cookie := states[d].calls[id].stub.cookie;
    assert Enabled(states[d], events[d]) && states[d + 1] == Next(states[d], events[d]);
    DropTakesOne(states[d], id);
    NoneGained(states, events, d + 1, i, cookie);
    CountHas(states[i].sessions, cookie);
    StubStays(states, events, d, i, id);
    UnlistsForGood(states, events, i, j, id);
  }

  /** Without a gained session none appears, whatever other failing calls drop. */
  lemma {:induction false} NoneAppears(states: seq<State>, events: seq<Event>, i: nat, j: nat, cookie: nat)
    requires IsRun(states, events) && i <= j <= |events| && CountOf(states[i].sessions, cookie) == 0
    requires forall m :: i <= m < j ==> !Gains(states[m], events[m], cookie)
    ensures CountOf(states[j].sessions, cookie) == 0
    decreases j
  {
    hide Next, Enabled, Gains, Loses, CountOf;
    if i < j {
      NoneAppears(states, events, i, j - 1, cookie);
      assert Enabled(states[j - 1], events[j - 1]);
      CountStep(states[j - 1], events[j - 1], cookie);
    }
  }

  /** A failed call whose stub had at most one session and gained none during the clean-up
      leaves none, also when other failing calls clean up the same stub. */
  lemma UndisturbedFailure(states: seq<State>, events: seq<Event>, d: nat, i: nat, id: nat)
    requires IsRun(states, events) && d < i < |events| && events[d] == Drop(id) && events[i] == Unlist(id)
    requires id in states[d].calls && CountOf(states[d].sessions, states[d].calls[id].stub.cookie) <= 1
    requires forall m :: d < m < i ==> !Gains(states[m], events[m], states[d].calls[id].stub.cookie)
    ensures !HasSession(states[i + 1].sessions, states[d].calls[id].stub.cookie)
  {
    var cookie := states[d].calls[id].stub.cookie;
    assert Enabled(states[d], events[d]) && states[d + 1] == Next(states[d], events[d]);
    CountStep(states[d], events[d], cookie);
    NoneAppears(states, events, d + 1, i, cookie);
    CountHas(states[i].sessions, cookie);
    StubStays(states, events, d, i, id);
    UnlistsForGood(states, events, i, i + 1, id);
  }

  lemma UnlistsForGood(states: seq<State>, events: seq<Event>, i: nat, j: nat, id: nat)
    requires IsRun(states, events) && i < j <= |events| && events[i] == Unlist(id)
    ensures states[i + 1].sessions == states[i].sessions && id in states[i].calls
    ensures forall stub :: stub in states[j].stubs ==> stub.cookie != states[i].calls[id].stub.cookie
  {
    assert Enabled(states[i], events[i]) && states[i + 1] == Next(states[i], events[i]);
    HistoryStays(states, events, i + 1, j);
    RunInv(states, events, j);
  }

  // ----- two sessions for one stub

  ghost predicate AtMostOne(sessions: seq<SessionInfo>) {
    forall c :: CountOf(sessions, c) <= 1
  }

  /** A reply's session is attached although its stub has one. */
  predicate Doubles(s: State, e: Event) {
    e.AttachSession? && e.alloc && e.h in s.handlers && HasSession(s.sessions, s.handlers[e.h].msg.stub)
  }

  lemma DoubleStep(s: State, e: Event)
    requires Enabled(s, e) && AtMostOne(s.sessions)
    ensures AtMostOne(Next(s, e).sessions) <==> !Doubles(s, e)
  {
    if e.Drop? {
      forall c ensures CountOf(DropSession(s.sessions, s.calls[e.id].stub.cookie), c) <= 1 {
        DropSessionCount(s.sessions, s.calls[e.id].stub.cookie, c);
      }
    } else if e.AttachSession? {
      DoubleAttach(s.sessions, SessionOf(s.handlers[e.h].msg));
    } else {
      SessionsFrame(s, e);
      hide Next;
    }
  }

  lemma DoubleAttach(sessions: seq<SessionInfo>, session: SessionInfo)
    requires AtMostOne(sessions)
    ensures AtMostOne([session] + sessions) <==> !HasSession(sessions, session.stub)
  {
    var more := [session] + sessions;
    assert more[1..] == sessions;
    CountHas(sessions, session.stub);
    assert CountOf(more, session.stub) == CountOf(sessions, session.stub) + 1;
    assert forall c :: c != session.stub ==> CountOf(more, c) == CountOf(sessions, c);
  }

  /** No stub has two sessions in any of the first n states, if and only if no reply was
      attached to a stub that already had one. */
  lemma {:induction false} OneSessionPerStub(states: seq<State>, events: seq<Event>, n: nat)
    requires IsRun(states, events) && n <= |events|
    ensures (forall k :: 0 <= k <= n ==> AtMostOne(states[k].sessions)) <==>
            (forall k {:trigger events[k]} :: 0 <= k < n ==> !Doubles(states[k], events[k]))
  {
    hide Next, Enabled, Doubles, AtMostOne;
    if n == 0 {
      NoSessions();
    } else {
      OneSessionPerStub(states, events, n - 1);
      assert Enabled(states[n - 1], events[n - 1]) && states[n] == Next(states[n - 1], events[n - 1]);
      if AtMostOne(states[n - 1].sessions) {
        DoubleStep(states[n - 1], events[n - 1]);
      }
    }
  }

  lemma NoSessions()
    ensures AtMostOne(Initial().sessions)
  {
  }

  lemma StubListedOnce(states: seq<State>, events: seq<Event>, k: nat)
    requires IsRun(states, events) && k < |states|
    ensures forall i, j :: 0 <= i < j < |states[k].stubs| ==> states[k].stubs[i].cookie != states[k].stubs[j].cookie
  {
    RunInv(states, events, k);
  }

  /** Between a check that found no session for a stub and a doubled attach, another handler
      has attached one: both had passed the check at the same time. */
  lemma {:induction false} DoubleNeedsTwoChecked(states: seq<State>, events: seq<Event>, j: nat, h: nat)
    returns (i: nat, other: nat)
    requires IsRun(states, events) && j < |states|
    requires HandlerAt(states[j], h, Checked) && HasSession(states[j].sessions, states[j].handlers[h].msg.stub)
    ensures i < j && i < |events| && other != h && events[i] == AttachSession(other, true)
    ensures HandlerAt(states[i], h, Checked) && HandlerAt(states[i], other, Checked)
    ensures states[i].handlers[h] == states[j].handlers[h]
    ensures states[i].handlers[other].msg.stub == states[i].handlers[h].msg.stub
  {
    assert j > 0;
    var s, e := states[j - 1], events[j - 1];
    assert Enabled(s, e) && states[j] == Next(s, e);
    hide HasSession;
    CheckedBefore(s, e, h);
    if HasSession(s.sessions, s.handlers[h].msg.stub) {
      i, other := DoubleNeedsTwoChecked(states, events, j - 1, h);
    } else {
      i, other := j - 1, e.h;
    }
  }

  /** A handler past its check with a session for its stub was there before the last step, or
      that step made the session. */
  lemma CheckedBefore(s: State, e: Event, h: nat)
    requires Enabled(s, e) && HandlerAt(Next(s, e), h, Checked)
    requires HasSession(Next(s, e).sessions, Next(s, e).handlers[h].msg.stub)
    ensures HandlerAt(s, h, Checked) && s.handlers[h] == Next(s, e).handlers[h]
    ensures !HasSession(s.sessions, s.handlers[h].msg.stub) ==>
      && e.AttachSession? && e.alloc && e.h != h && HandlerAt(s, e.h, Checked)
      && s.handlers[e.h].msg.stub == s.handlers[h].msg.stub
  {
    if h in s.handlers && (OfCaller(e) || e.h != h) {
      HandlerFrame(s, e, h);
    }
    var cookie := Next(s, e).handlers[h].msg.stub;
    if e.Drop? {
      DropHas(s.sessions, s.calls[e.id].stub.cookie, cookie);
    } else if e.AttachSession? {
      HasSessionHead([SessionOf(s.handlers[e.h].msg)] + s.sessions, cookie);
    } else {
      SessionsFrame(s, e);
    }
    hide HasSession, FindStub, FindNode, HasBinderObject, WellFormed;
  }

  lemma DropHas(sessions: seq<SessionInfo>, cookie: nat, other: nat)
    ensures HasSession(DropSession(sessions, cookie), other) ==> HasSession(sessions, other)
  {
    DropSessionCount(sessions, cookie, other);
    CountHas(sessions, other);
    CountHas(DropSession(sessions, cookie), other);
  }

  // ----- where sessions come from

  /** The reply arrived in step i. */
  ghost predicate ArrivedIn(events: seq<Event>, i: nat, m: T.Message) {
    i < |events| && events[i].Arrive? && events[i].msg == m
  }

  lemma HandlerMessage(s: State, e: Event, h: nat)
    requires Enabled(s, e) && h in Next(s, e).handlers
    ensures if h in s.handlers then Next(s, e).handlers[h].msg == s.handlers[h].msg
            else e.Arrive? && e.msg == Next(s, e).handlers[h].msg
  {
    if h in s.handlers && (OfCaller(e) || e.h != h) {
      HandlerFrame(s, e, h);
    }
    hide HasSession, FindStub, HasBinderObject, FindNode, WellFormed;
  }

  lemma {:induction false} HandlerArrived(states: seq<State>, events: seq<Event>, k: nat, h: nat) returns (i: nat)
    requires IsRun(states, events) && k < |states| && h in states[k].handlers
    ensures i < k && ArrivedIn(events, i, states[k].handlers[h].msg)
  {
    assert k > 0;
    hide Next, Enabled;
    assert Enabled(states[k - 1], events[k - 1]);
    HandlerMessage(states[k - 1], events[k - 1], h);
    if h in states[k - 1].handlers {
      i := HandlerArrived(states, events, k - 1, h);
    } else {
      i := k - 1;
    }
  }

  lemma NewSession(s: State, e: Event, session: SessionInfo)
    requires Inv(s) && Enabled(s, e) && session in Next(s, e).sessions && session !in s.sessions
    ensures e.AttachSession? && session == SessionOf(s.handlers[e.h].msg) && WellFormed(s.handlers[e.h].msg)
  {
    hide HasSession, FindStub, FindNode, HasBinderObject, WellFormed, NodesInv, MutexInv, StubsInv;
    if e.Drop? {
      DropSessionWithin(s.sessions, s.calls[e.id].stub.cookie);
    } else if e.AttachSession? {
      assert HandlerInv(s.handlers[e.h], s.sessions, s.dropped);
    }
  }

  lemma {:induction false} DropSessionWithin(sessions: seq<SessionInfo>, cookie: nat)
    ensures forall x :: x in DropSession(sessions, cookie) ==> x in sessions
  {
    if sessions != [] && sessions[0].stub != cookie {
      DropSessionWithin(sessions[1..], cookie);
    }
  }

  /** Every session holds what an arrived reply said: its stub, a stub index other than 0, the
      whole name of the stated length, the ports and the device ids. */
  lemma {:induction false} SessionsComeFromReplies(states: seq<State>, events: seq<Event>, k: nat, session: SessionInfo)
    returns (i: nat, m: T.Message)
    requires IsRun(states, events) && k < |states| && session in states[k].sessions
    ensures i < k && ArrivedIn(events, i, m)
    ensures session.stub == m.stub && session.stubIndex == m.stubIndex && session.stubIndex != 0
    ensures |session.serviceName| == m.serviceNameLength <= T.SERVICENAME_LENGTH
    ensures session.serviceName == m.serviceName[..m.serviceNameLength]
    ensures session.toPort == m.toPort && session.fromPort == m.fromPort && session.transType == m.transType
    ensures session.fromDeviceId == m.fromDeviceId && session.toDeviceId == m.toDeviceId
  {
    assert k > 0;
    hide Next, Enabled;
    assert Enabled(states[k - 1], events[k - 1]);
    if session in states[k - 1].sessions {
      i, m := SessionsComeFromReplies(states, events, k - 1, session);
    } else {
      var e := events[k - 1];
      RunInv(states, events, k - 1);
      NewSession(states[k - 1], e, session);
      m := states[k - 1].handlers[e.h].msg;
      T.CStrPrefix(m.serviceName);
      i := HandlerArrived(states, events, k - 1, e.h);
    }
  }

  // ----- sessions without a stub

  /** The stub is listed. */
  predicate Listed(stubs: seq<Stub>, cookie: nat) {
    exists i :: 0 <= i < |stubs| && stubs[i].cookie == cookie
  }

  /** Every session belongs to a listed stub. */
  predicate Homed(s: State) {
    forall i :: 0 <= i < |s.sessions| ==> Listed(s.stubs, s.sessions[i].stub)
  }

  /** The session of a reply is attached although its stub is not listed: all that was asked
      of stubs is that some listed one shared the reply's binder object a while ago. */
  predicate Strays(s: State, e: Event) {
    e.AttachSession? && e.alloc && e.h in s.handlers && !Listed(s.stubs, s.handlers[e.h].msg.stub)
  }

  /** A failing call unlists a stub that has a session. */
  predicate Orphans(s: State, e: Event) {
    e.Unlist? && e.id in s.calls && HasSession(s.sessions, s.calls[e.id].stub.cookie)
  }

  lemma HomedHas(s: State)
    ensures Homed(s) <==> forall c :: HasSession(s.sessions, c) ==> Listed(s.stubs, c)
  {
    forall i | 0 <= i < |s.sessions| ensures HasSession(s.sessions, s.sessions[i].stub) {
    }
  }

  lemma ListedWithout(s: State, id: nat, c: nat)
    requires Inv(s) && id in s.calls && !s.calls[id].pc.Creating?
    ensures var stub := s.calls[id].stub;
      Listed(Without(s.stubs, {stub}), c) <==> c != stub.cookie && Listed(s.stubs, c)
  {
    var stub := s.calls[id].stub;
    var rest := Without(s.stubs, {stub});
    WithoutMembers(s.stubs, {stub});
    assert CallerStub(s.stubs, s.cleaned, s.nextStub, stub, false);
    if Listed(s.stubs, c) && c != stub.cookie {
      var k :| 0 <= k < |s.stubs| && s.stubs[k].cookie == c;
      assert s.stubs[k] in rest;
    }
    if Listed(rest, c) {
      var k :| 0 <= k < |rest| && rest[k].cookie == c;
      assert rest[k] in s.stubs;
    }
  }

  lemma HomedUnlist(s: State, id: nat)
    requires Inv(s) && At(s, id, Dropped) && Homed(s)
    ensures Homed(UnlistStep(s, id)) <==> !HasSession(s.sessions, s.calls[id].stub.cookie)
  {
    var d, cookie := UnlistStep(s, id), s.calls[id].stub.cookie;
    HomedHas(s);
    HomedHas(d);
    hide Inv, Homed, HasSession, Listed, Without;
    forall c ensures Listed(d.stubs, c) <==> c != cookie && Listed(s.stubs, c) {
      ListedWithout(s, id, c);
    }
  }

  lemma HomedDrop(s: State, id: nat)
    requires At(s, id, Failed) && Homed(s)
    ensures Homed(DropStep(s, id))
  {
    HomedHas(s);
    HomedHas(DropStep(s, id));
    hide Homed, HasSession, Listed;
    forall c ensures HasSession(DropStep(s, id).sessions, c) ==> HasSession(s.sessions, c) {
      DropHas(s.sessions, s.calls[id].stub.cookie, c);
    }
  }

  lemma HomedAttach(s: State, h: nat, alloc: bool)
    requires HandlerAt(s, h, Checked) && Homed(s)
    ensures Homed(AttachStep(s, h, alloc)) <==> !(alloc && !Listed(s.stubs, s.handlers[h].msg.stub))
  {
    var d := AttachStep(s, h, alloc);
    if alloc {
      assert d.sessions[1..] == s.sessions && d.sessions[0].stub == s.handlers[h].msg.stub;
    }
  }

  lemma StubsFrame(s: State, e: Event)
    requires Enabled(s, e) && !e.Unlist? && !e.Register?
    ensures Next(s, e).stubs == s.stubs
  {
    hide HasSession, FindStub, FindNode, HasBinderObject, WellFormed;
  }

  lemma HomedRegister(s: State, id: nat, alloc: bool)
    requires At(s, id, Creating) && Homed(s)
    ensures Homed(RegisterStub(s, id, alloc))
  {
    var d := RegisterStub(s, id, alloc);
    if alloc {
      assert d.stubs[1..] == s.stubs;
      forall c | Listed(s.stubs, c) ensures Listed(d.stubs, c) {
        var i :| 0 <= i < |s.stubs| && s.stubs[i].cookie == c;
        assert d.stubs[i + 1].cookie == c;
      }
    }
  }

  /** Every session belongs to a listed stub as long as no reply strays and no stub is
      unlisted while it has a session, and no longer. */
  lemma HomedStep(s: State, e: Event)
    requires Inv(s) && Enabled(s, e) && Homed(s)
    ensures Homed(Next(s, e)) <==> !Strays(s, e) && !Orphans(s, e)
  {
    hide Inv, Homed, HasSession, Listed;
    if e.Drop? {
      HomedDrop(s, e.id);
    } else if e.Unlist? {
      HomedUnlist(s, e.id);
    } else if e.Register? {
      HomedRegister(s, e.id, e.alloc);
    } else if e.AttachSession? {
      HomedAttach(s, e.h, e.alloc);
    } else {
      SessionsFrame(s, e);
      StubsFrame(s, e);
      HomedSame(s, Next(s, e));
      hide Next;
    }
  }

  lemma HomedSame(s: State, d: State)
    requires d.stubs == s.stubs && d.sessions == s.sessions
    ensures Homed(d) <==> Homed(s)
  {
  }

  lemma EmptyIsHomed()
    ensures Homed(Initial())
  {
  }

  /** Over every run: in all of the first n states each session belongs to a listed stub, if
      and only if no step before strayed or orphaned. */
  lemma {:induction false} SessionsHomed(states: seq<State>, events: seq<Event>, n: nat)
    requires IsRun(states, events) && n <= |events|
    ensures (forall k :: 0 <= k <= n ==> Homed(states[k])) <==>
            (forall k {:trigger events[k]} :: 0 <= k < n ==>
               !Strays(states[k], events[k]) && !Orphans(states[k], events[k]))
  {
    hide Next, Enabled, Strays, Orphans, Homed, Inv;
    if n == 0 {
      EmptyIsHomed();
    } else {
      SessionsHomed(states, events, n - 1);
      assert Enabled(states[n - 1], events[n - 1]) && states[n] == Next(states[n - 1], events[n - 1]);
      RunInv(states, events, n - 1);
      if Homed(states[n - 1]) {
        HomedStep(states[n - 1], events[n - 1]);
      }
    }
  }
}
