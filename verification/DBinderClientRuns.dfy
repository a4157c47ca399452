/** Safety of a DBinder client over whole runs, for every order of calls, messages
    (including late, repeated or invented ones), notices and client callbacks. */
module DBinderClientRuns {
  import opened Sequences
  import opened DBinderTypes
  import opened DBinderClient
  import opened DBinderClientInvariant

  /** states[k] is the client after the first k events. */
  ghost predicate IsRun(states: seq<Client>, events: seq<Event>) {
    && |states| == |events| + 1
    && states[0] == Start()
    && forall k {:trigger events[k]} :: 0 <= k < |events| ==> Next(states[k], events[k], states[k + 1])
  }

  lemma StartInv()
    ensures Inv(Start())
  {
  }

  lemma {:induction false} RunInv(states: seq<Client>, events: seq<Event>, k: nat)
    requires IsRun(states, events) && k < |states|
    ensures Inv(states[k])
  {
    hide Next, Inv;
    if k == 0 {
      StartInv();
    } else {
      RunInv(states, events, k - 1);
      assert Next(states[k - 1], events[k - 1], states[k]);
      StepKeepsInv(states[k - 1], events[k - 1], states[k]);
    }
  }

  // ----- sessions of finished negotiations

  /** In every state of every run, a registered stub whose negotiation is finished has a session. */
  lemma FinishedStubHasSession(states: seq<Client>, events: seq<Event>, k: nat, s: Stub)
    requires IsRun(states, events) && k < |states|
    requires s in states[k].registered && StatusOf(states[k], s) == NegoFinished
    ensures s in states[k].sessions
  {
    RunInv(states, events, k);
  }

  /** Steps of callers other than the first and the last, and events about waiters, status
      and callbacks, leave the registry and the sessions alone. */
  predicate Neutral(e: Event) {
    !(e.Begin? || e.Delete? || e.Detach? || e.Reply? || e.ServiceDied? || e.DeviceDied?)
  }

  lemma NeutralStep(c: Client, e: Event, d: Client)
    requires Next(c, e, d) && Neutral(e)
    ensures SameStubs(c, d)
  {
    hide InvokeCall, PollCall, TimeoutCall, WokenCall, OnError, CloseSession, SetStatus,
      AttachRecipient, DetachRecipient;
  }

  lemma OutsideStep(c: Client, e: Event, d: Client)
    requires Next(c, e, d) && !OfCaller(e)
    ensures d.calls == c.calls
  {
    hide OnReply, OnError, CloseSession, ServiceDies, DeviceDies, SetStatus, AttachRecipient, DetachRecipient;
  }

  lemma SuccessOfCaller(c: Client, e: Event, d: Client, id: nat)
    requires CallersInv(c.calls, c.nextStub) && Next(c, e, d) && OfCaller(e)
    requires !Succeeded(c, id) && Succeeded(d, id)
    ensures StatusOf(d, d.calls[id].stub) == NegoFinished
    ensures e == Poll(id) || d.calls[id].stub in d.sessions
  {
    hide BeginCall, InvokeCall, PollCall, TimeoutCall, WokenCall, TestCall, DeleteCall, DetachCall;
    assert forall i :: i in c.calls ==> CallerInv(c.calls[i], c.nextStub);
  }

  /** A call succeeds only in a poll that finds the negotiation finished or by waking to
      find a session. */
  lemma SuccessStep(c: Client, e: Event, d: Client, id: nat)
    requires Inv(c) && Next(c, e, d) && !Succeeded(c, id) && Succeeded(d, id)
    ensures StatusOf(d, d.calls[id].stub) == NegoFinished
    ensures e == Poll(id) || d.calls[id].stub in d.sessions
  {
    hide Next;
    if OfCaller(e) {
      SuccessOfCaller(c, e, d, id);
    } else {
      OutsideStep(c, e, d);
    }
  }

  /** No call tries more than twice, and none polls more than ten times in a try. */
  lemma TriesAreBounded(states: seq<Client>, events: seq<Event>, k: nat, id: nat)
    requires IsRun(states, events) && k < |states| && id in states[k].calls
    ensures var call := states[k].calls[id];
      && call.tries <= RETRY_TIMES
      && (call.pc.Invoking? ==> call.tries < RETRY_TIMES)
      && (call.pc.Polling? ==> call.pc.count < THREAD_LOCK_RETRY_TIMES)
  {
    RunInv(states, events, k);
    assert CallerInv(states[k].calls[id], states[k].nextStub);
  }

  // ----- what changes the session of a stub

  /** A session is entered or replaced only by a valid reply under a live tag of a
      registered stub, never by one with a smaller number than the stored session. */
  lemma SessionChange(c: Client, e: Event, d: Client, s: Stub)
    requires Next(c, e, d) && s in d.sessions
    requires s !in c.sessions || d.sessions[s] != c.sessions[s]
    ensures e.Reply? && Addressee(c, e.msg.stub) == Some(s)
    ensures d.sessions[s] == SessionOf(e.msg)
    ensures ValidSessionName(e.msg) && e.msg.stubIndex != 0
    ensures s in c.sessions ==> c.sessions[s].seqNumber <= e.msg.seqNumber
  {
    hide BeginCall, DeleteCall, DetachCall, ServiceDies, DeviceDies;
    if Neutral(e) {
      NeutralStep(c, e, d);
    }
  }

  lemma RegistryChange(c: Client, e: Event, d: Client, s: Stub)
    requires Next(c, e, d) && s in d.registered && s !in c.registered
    ensures s.id == c.nextStub
  {
    hide BeginCall, DeleteCall, DetachCall, ServiceDies, DeviceDies;
    if Neutral(e) {
      NeutralStep(c, e, d);
    }
  }

  lemma NextStubGrows(c: Client, e: Event, d: Client)
    requires Next(c, e, d)
    ensures c.nextStub <= d.nextStub
  {
    hide BeginCall, DeleteCall, DetachCall, ServiceDies, DeviceDies;
    if Neutral(e) {
      NeutralStep(c, e, d);
    }
  }

  /** Once a stub has left the registry, no later event, however late or repeated its
      messages are, registers it again or gives it a session. */
  lemma {:induction false} DeletedStubStaysDeleted(states: seq<Client>, events: seq<Event>, i: nat, j: nat, s: Stub)
    requires IsRun(states, events) && i <= j < |states|
    requires s.id < states[i].nextStub && s !in states[i].registered
    ensures s.id < states[j].nextStub && s !in states[j].registered
    ensures s in states[j].sessions ==> s in states[i].sessions && states[j].sessions[s] == states[i].sessions[s]
    decreases j
  {
    hide Next;
    if i < j {
      DeletedStubStaysDeleted(states, events, i, j - 1, s);
      var c, e := states[j - 1], events[j - 1];
      assert Next(c, e, states[j]);
      NextStubGrows(c, e, states[j]);
      if s in states[j].registered {
        RegistryChange(c, e, states[j], s);
      }
      if s in states[j].sessions && (s !in c.sessions || states[j].sessions[s] != c.sessions[s]) {
        SessionChange(c, e, states[j], s);
      }
    }
  }

  /** While a stub keeps its session entry, the number in it never decreases. */
  lemma {:induction false} SessionNumberNeverDecreases(
      states: seq<Client>, events: seq<Event>, i: nat, j: nat, s: Stub)
    requires IsRun(states, events) && i <= j < |states|
    requires forall k :: i <= k <= j ==> s in states[k].sessions
    ensures states[i].sessions[s].seqNumber <= states[j].sessions[s].seqNumber
    decreases j
  {
    hide Next;
    if i < j {
      SessionNumberNeverDecreases(states, events, i, j - 1, s);
      assert Next(states[j - 1], events[j - 1], states[j]);
      if states[j].sessions[s] != states[j - 1].sessions[s] {
        SessionChange(states[j - 1], events[j - 1], states[j], s);
      }
    }
  }

  /** The reply says something else than the session. */
  predicate Differs(session: Session, m: Message) {
    || session.stubIndex != m.stubIndex || session.serviceName != CStr(m.serviceName)
    || session.toPort != m.toPort || session.fromPort != m.fromPort || session.transType != m.transType
    || session.fromDeviceId != m.fromDeviceId || session.toDeviceId != m.toDeviceId
  }

  /** A valid reply under a live tag of the stub, with other contents and a number not smaller. */
  predicate Replaces(c: Client, e: Event, s: Stub)
    requires s in c.sessions
  {
    && e.Reply? && Addressee(c, e.msg.stub) == Some(s) && ValidSessionName(e.msg) && e.msg.stubIndex != 0
    && Differs(c.sessions[s], e.msg) && c.sessions[s].seqNumber <= e.msg.seqNumber
  }

  /** Over every run, the session of a stub that keeps one changes in a step exactly when the
      step handles such a reply; a reply with a smaller number changes nothing. */
  lemma SessionReplaced(states: seq<Client>, events: seq<Event>, k: nat, s: Stub)
    requires IsRun(states, events) && k < |events|
    requires s in states[k].sessions && s in states[k + 1].sessions
    ensures states[k + 1].sessions[s] != states[k].sessions[s] <==> Replaces(states[k], events[k], s)
  {
    var c, e, d := states[k], events[k], states[k + 1];
    assert Next(c, e, d);
    if d.sessions[s] != c.sessions[s] {
      hide Next;
      SessionChange(c, e, d, s);
      ReplaceStep(c, e.msg, s);
      assert d.sessions == OnReply(c, e.msg).sessions by { ReplySessions(c, e, d); }
    } else if e.Reply? && Addressee(c, e.msg.stub) == Some(s) {
      ReplySessions(c, e, d);
      ReplaceStep(c, e.msg, s);
    }
  }

  lemma ReplySessions(c: Client, e: Event, d: Client)
    requires Next(c, e, d) && e.Reply?
    ensures d == OnReply(c, e.msg)
  {
  }

  lemma ReplaceStep(c: Client, m: Message, s: Stub)
    requires s in c.sessions && Addressee(c, m.stub) == Some(s)
    ensures OnReply(c, m).sessions[s] != c.sessions[s] <==> Replaces(c, Reply(m), s)
  {
  }

  /** Clearing the state of a stub makes the next caller ask again, whatever was negotiated,
      and costs neither the session nor a waiter. */
  lemma ClearedStubIsAskedAgain(c: Client, s: Stub, id: nat, env: SendEnv)
    requires At(c, id, Invoking) && c.calls[id].stub == s
    ensures var d := SetStatus(c, s, NegoInit);
      && InvokeCall(d, id, env) == Request(d, id, env)
      && (c.calls[id].seqNum !in c.threadLocks && Addressable(s, env) && env.delivered ==>
            InvokeSends(d, id, env).Some?)
      && d.sessions == c.sessions && d.threadLocks == c.threadLocks && d.ready == c.ready
  {
  }

  // ----- waiters

  /** No stale waiter entries in any run. */
  lemma EntriesHaveWaiters(states: seq<Client>, events: seq<Event>, k: nat, n: nat)
    requires IsRun(states, events) && k < |states| && n in states[k].threadLocks
    ensures var lock := states[k].threadLocks[n];
      WaitsOn(states[k].calls, lock.owner, lock, n) && lock !in states[k].ready
  {
    RunInv(states, events, k);
  }

  /** A reply or an error readies every caller waiting on the entry of its number. */
  lemma AnswerReadiesWaiters(c: Client, m: Message, id: nat)
    requires m.seqNumber in c.threadLocks && id in c.calls
    requires c.calls[id].pc == Waiting(c.threadLocks[m.seqNumber])
    ensures MayWake(OnReply(c, m), id)
    ensures MayWake(OnError(c, m), id)
    ensures m.seqNumber !in OnReply(c, m).threadLocks && m.seqNumber !in OnError(c, m).threadLocks
  {
  }

  // ----- death notices and callbacks

  /** A proxy has a callback entry exactly when it has a death recipient, in every run. */
  lemma CallbacksMatchRecipients(states: seq<Client>, events: seq<Event>, k: nat, proxy: nat)
    requires IsRun(states, events) && k < |states|
    ensures proxy in states[k].noticeProxy <==> proxy in states[k].deathRecipients
  {
    RunInv(states, events, k);
    assert proxy in states[k].noticeProxy.Keys <==> proxy in states[k].deathRecipients.Keys;
  }

  /** Nothing in the client speaks about the stub. */
  ghost predicate Forgotten(c: Client, s: Stub) {
    && s !in c.registered
    && s !in c.sessions
    && (forall t :: t in c.tags.live ==> c.tags.live[t] != s)
    && (forall p :: p in c.noticeProxy ==> c.noticeProxy[p] != s)
  }

  /** Everything the two clients list for the stub is the same. */
  ghost predicate Untouched(c: Client, d: Client, s: Stub) {
    && (s in d.registered <==> s in c.registered)
    && (s in d.sessions <==> s in c.sessions)
    && (s in c.sessions ==> d.sessions[s] == c.sessions[s])
    && (forall t :: (t in d.tags.live && d.tags.live[t] == s) <==> (t in c.tags.live && c.tags.live[t] == s))
    && (forall p :: (p in d.noticeProxy && d.noticeProxy[p] == s) <==> (p in c.noticeProxy && c.noticeProxy[p] == s))
    && (forall p :: p in c.noticeProxy && c.noticeProxy[p] == s ==>
          (p in d.deathRecipients <==> p in c.deathRecipients) &&
          (p in c.deathRecipients ==> d.deathRecipients[p] == c.deathRecipients[p]))
    && StatusOf(d, s) == StatusOf(c, s)
  }

  lemma PurgeForgets(c: Client, gone: set<Stub>, s: Stub)
    requires s in gone
    ensures Forgotten(Purge(c, gone), s)
    ensures forall p :: p in c.noticeProxy && c.noticeProxy[p] == s ==> p !in Purge(c, gone).deathRecipients
  {
    WithoutMembers(c.registered, gone);
  }

  lemma PurgeSpares(c: Client, gone: set<Stub>, s: Stub)
    requires s !in gone
    ensures Untouched(c, Purge(c, gone), s)
  {
    WithoutMembers(c.registered, gone);
  }

  /** A device death that passes its guards forgets every registered stub of the device with
      its tags, session, callback proxies and their recipients, leaves the entries of every
      other stub as they were, and keeps the order of the registry. */
  lemma DeviceDeathForgetsDevice(c: Client, device: string, s: Stub)
    requires !IllegalDevice(device)
    ensures var d := DeviceDies(c, device, true);
      && (s in c.registered && s.key.device == device ==>
            && Forgotten(d, s)
            && (forall p :: p in c.noticeProxy && c.noticeProxy[p] == s ==> p !in d.deathRecipients))
      && (!(s in c.registered && s.key.device == device) ==> Untouched(c, d, s))
      && d.registered == Without(c.registered, OfDevice(c.registered, device))
  {
    var gone := OfDevice(c.registered, device);
    if s in gone {
      PurgeForgets(c, gone, s);
    } else {
      PurgeSpares(c, gone, s);
    }
  }
}
