/** What the operations of a client do to the containers, said field by field: the effect a
    caller or a peer can see, without the definitions of the state machine. */
module DBinderClientEffects {
  import opened Sequences
  import opened DBinderTypes
  import opened DBinderClient
  import opened DBinderClientInvariant
  import opened DBinderClientRuns
  import opened DBinderClientOutcome

  // ----- replies

  /** The session holds exactly what the reply says. */
  predicate Carries(session: Session, m: Message) {
    && session.stubIndex == m.stubIndex && session.serviceName == CStr(m.serviceName)
    && session.toPort == m.toPort && session.fromPort == m.fromPort && session.transType == m.transType
    && session.fromDeviceId == m.fromDeviceId && session.toDeviceId == m.toDeviceId
    && session.seqNumber == m.seqNumber
    && session.tokenId == if m.code == MESSAGE_AS_REPLY then 0 else m.tokenId
  }

  /** The reply is for this stub and well formed: its tag is listed for the stub, the stub is
      registered, the name has the stated length and the index is not 0. */
  predicate ValidFor(c: Client, m: Message, s: Stub) {
    && m.stub in c.tags.live && c.tags.live[m.stub] == s && s in c.registered
    && m.serviceNameLength <= SERVICENAME_LENGTH && |CStr(m.serviceName)| == m.serviceNameLength
    && m.stubIndex != 0
  }

  /** What a reply does to the sessions: one for a stub without session is entered as it is;
      one for a stub with a session takes its place exactly when it is not older and some
      field differs, and otherwise the entry stays with its number; any other changes nothing. */
  lemma ReplySettlesSession(c: Client, m: Message, s: Stub)
    requires ValidFor(c, m, s)
    ensures var d := OnReply(c, m);
      && s in d.sessions
      && d.sessions == c.sessions[s := d.sessions[s]]
      && (s !in c.sessions ==> Carries(d.sessions[s], m))
      && (s in c.sessions && Differs(c.sessions[s], m) && c.sessions[s].seqNumber <= m.seqNumber ==>
            Carries(d.sessions[s], m))
      && (s in c.sessions && !(Differs(c.sessions[s], m) && c.sessions[s].seqNumber <= m.seqNumber) ==>
            d.sessions == c.sessions)
  {
  }

  lemma OtherRepliesSettleNothing(c: Client, m: Message)
    requires forall s :: s in c.registered ==> !ValidFor(c, m, s)
    ensures OnReply(c, m).sessions == c.sessions
  {
  }

  /** A reply or an error readies the lock under its number, removes that entry, and leaves
      every other waiter alone. */
  lemma AnswerTouchesOneWaiter(c: Client, m: Message, n: nat, id: nat)
    ensures var d := OnReply(c, m); var e := OnError(c, m);
      && (n in d.threadLocks <==> n != m.seqNumber && n in c.threadLocks)
      && (n in d.threadLocks ==> d.threadLocks[n] == c.threadLocks[n])
      && d.threadLocks == e.threadLocks && d.ready == e.ready
      && (forall l :: l in d.ready <==>
            l in c.ready || (m.seqNumber in c.threadLocks && l == c.threadLocks[m.seqNumber]))
      && e.sessions == c.sessions && d.status == c.status && d.calls == c.calls
  {
  }

  // ----- callers that share a stub

  /** A caller that is not the maker of its stub. */
  predicate Shares(c: Client, id: nat, s: Stub) {
    At(c, id, Invoking) && c.calls[id].stub == s && !c.calls[id].isNew
  }

  /** Nothing of the client changed but the frame of the caller. */
  predicate OnlyCaller(c: Client, d: Client, id: nat) {
    id in d.calls && d == c.(calls := c.calls[id := d.calls[id]])
  }

  /** With the negotiation finished, a shared call sends nothing, changes nothing, and
      succeeds at its next poll if the status is still finished then, whatever else happened. */
  lemma FinishedNeedsNoRequest(c: Client, id: nat, env: SendEnv, s: Stub, e: Client)
    requires Shares(c, id, s) && s in c.status && c.status[s] == NegoFinished
    requires id in e.calls && e.calls[id] == InvokeCall(c, id, env).calls[id]
    ensures var d := InvokeCall(c, id, env);
      && InvokeSends(c, id, env) == None && OnlyCaller(c, d, id) && d.calls[id].stub == s
      && e.calls[id].pc.Polling?
      && (s in e.status && e.status[s] == NegoFinished ==>
            Succeeded(PollCall(e, id), id) && OnlyCaller(e, PollCall(e, id), id))
  {
  }

  /** While another caller negotiates, a shared call sends nothing and changes nothing; its
      next poll waits on the very lock under its number if there is one, and otherwise it
      polls again, ten times in all. */
  lemma SharedCallWaitsOnLock(c: Client, id: nat, env: SendEnv, s: Stub, e: Client)
    requires Shares(c, id, s) && s in c.status && c.status[s] == NegoDoing
    requires id in e.calls && e.calls[id].stub == s && e.calls[id].pc.Polling?
    requires !(s in e.status && e.status[s] == NegoFinished)
    ensures var d := InvokeCall(c, id, env);
      InvokeSends(c, id, env) == None && OnlyCaller(c, d, id) && d.calls[id] == c.calls[id].(pc := Polling(0))
    ensures var p := PollCall(e, id); var n := e.calls[id].seqNum;
      && OnlyCaller(e, p, id)
      && (n in e.threadLocks ==> p.calls[id] == e.calls[id].(pc := Waiting(e.threadLocks[n])))
      && (n !in e.threadLocks && e.calls[id].pc.count < 9 ==>
            p.calls[id] == e.calls[id].(pc := Polling(e.calls[id].pc.count + 1)))
      && (n !in e.threadLocks && e.calls[id].pc.count == 9 ==> p.calls[id].pc == Failed(DBINDER_MAKE_THREADLOCK_FAILED))
  {
  }

  /** A caller that made its stub, or finds it not negotiated, asks: with its number free and
      the request sent it waits on a new lock of its own under that number, with the status
      doing; otherwise it fails and the status is back where the next caller asks. */
  lemma UnnegotiatedIsAsked(c: Client, id: nat, env: SendEnv)
    requires At(c, id, Invoking)
    requires c.calls[id].isNew || (c.calls[id].stub in c.status ==> c.status[c.calls[id].stub] == NegoInit)
    ensures var d := InvokeCall(c, id, env); var call := c.calls[id]; var s := call.stub;
      && s in d.status && d.sessions == c.sessions && d.registered == c.registered && d.ready == c.ready
      && (InvokeSends(c, id, env).Some? ==>
            && call.seqNum !in c.threadLocks && d.status == c.status[s := NegoDoing]
            && call.seqNum in d.threadLocks && d.threadLocks == c.threadLocks[call.seqNum := d.threadLocks[call.seqNum]]
            && d.calls[id] == call.(pc := Waiting(d.threadLocks[call.seqNum]))
            && d.threadLocks[call.seqNum] == Lock(c.nextLock, s.key.device, id))
      && (InvokeSends(c, id, env).None? ==>
            && d.status == c.status[s := NegoInit] && d.threadLocks == c.threadLocks
            && d.calls[id].pc == Failed(if call.seqNum in c.threadLocks then DBINDER_MAKE_THREADLOCK_FAILED
                                        else DBINDER_SEND_MESSAGE_FAILED))
  {
    if RequestSends(c, id, env).Some? {
      AskedWaits(c, id, env);
    } else {
      NotAskedFails(c, id, env);
    }
    hide Request, RequestSends, SameStubs, MovesOnly, Succeeded, AddTag;
  }

  lemma AskedWaits(c: Client, id: nat, env: SendEnv)
    requires id in c.calls && RequestSends(c, id, env).Some?
    ensures var d := Request(c, id, env); var call := c.calls[id];
      var lock := Lock(c.nextLock, call.stub.key.device, id);
      && call.seqNum !in c.threadLocks && d.status == c.status[call.stub := NegoDoing]
      && d.threadLocks == c.threadLocks[call.seqNum := lock]
      && d.calls == c.calls[id := call.(pc := Waiting(lock))] && d.ready == c.ready
      && d.sessions == c.sessions && d.registered == c.registered
  {
    hide SameStubs, MovesOnly, Succeeded, AddTag, TagsAfterSend, TagFor, RequestMessage, Addressable, CStr, AfterInvoke;
  }

  lemma NotAskedFails(c: Client, id: nat, env: SendEnv)
    requires id in c.calls && RequestSends(c, id, env).None?
    ensures var d := Request(c, id, env); var call := c.calls[id];
      && d.status == c.status[call.stub := NegoInit] && d.threadLocks == c.threadLocks && d.ready == c.ready
      && id in d.calls
      && d.calls[id].pc == Failed(if call.seqNum in c.threadLocks then DBINDER_MAKE_THREADLOCK_FAILED
                                  else DBINDER_SEND_MESSAGE_FAILED)
      && d.sessions == c.sessions && d.registered == c.registered
  {
    hide SameStubs, MovesOnly, Succeeded, AddTag, TagsAfterSend, TagFor, RequestMessage, Addressable, CStr;
  }

  /** A stub without a tag is listed under the counter, a 64-bit number, unless a wrapped
      counter hits a tag in use: then it gets 0 and no entry. A stub with a tag keeps it. */
  lemma TagIsTaken(tt: TagTable, s: Stub)
    requires tt.counter < TWO_64
    ensures var d := AddTag(tt, s);
      && (s in tt.live.Values ==> d == tt && TagFor(tt, s) in tt.live && tt.live[TagFor(tt, s)] == s)
      && (s !in tt.live.Values ==> d.counter == (tt.counter + 1) % 0x1_0000_0000_0000_0000)
      && (s !in tt.live.Values && tt.counter !in tt.live ==>
            d.live == tt.live[tt.counter := s] && TagFor(tt, s) == tt.counter)
      && (s !in tt.live.Values && tt.counter in tt.live ==> d.live == tt.live && TagFor(tt, s) == 0)
  {
  }

  // ----- the end of a wait

  /** A timeout takes the entry of the number away and lets the next caller ask again; the
      first timeout of a call is followed by one more try, the second is its failure. */
  lemma TimeoutRetriesOnce(c: Client, id: nat)
    requires MayTimeOut(c, id)
    ensures var d := TimeoutCall(c, id); var call := c.calls[id];
      && d.status == c.status[call.stub := NegoInit]
      && (forall n :: n in d.threadLocks <==> n in c.threadLocks && n != call.seqNum)
      && (forall n :: n in d.threadLocks ==> d.threadLocks[n] == c.threadLocks[n])
      && d.sessions == c.sessions && d.tags == c.tags && d.registered == c.registered
      && d.calls == c.calls[id := d.calls[id]] && d.calls[id].stub == call.stub && d.calls[id].seqNum == call.seqNum
      && d.calls[id].tries == call.tries + 1
      && (call.tries == 0 ==> d.calls[id].pc == Invoking)
      && (call.tries == 1 ==> d.calls[id].pc == Failed(DBINDER_WAIT_REPLY_TIMEOUT))
  {
  }

  /** A woken call succeeds exactly when its stub has a session; if not, the next caller asks
      again. A reply's wake-up is never retried. */
  lemma WakingDecides(c: Client, id: nat)
    requires MayWake(c, id)
    ensures var d := WokenCall(c, id); var s := c.calls[id].stub;
      && (Succeeded(d, id) <==> s in c.sessions)
      && d.status == c.status[s := if s in c.sessions then NegoFinished else NegoInit]
      && (s !in c.sessions ==> d.calls[id].pc == Failed(DBINDER_QUERY_REPLY_SESSION_FAILED))
      && d.sessions == c.sessions && d.threadLocks == c.threadLocks && d.registered == c.registered
  {
  }

  /** When a network closes, exactly its waiters leave the table, and none of their callers
      can wake any more: only the timeout is left to them. Every other waiter stays. */
  lemma ClosedWaitersTimeOut(c: Client, network: string, n: nat, id: nat)
    requires n in c.threadLocks
    ensures var d := CloseSession(c, network); var lock := c.threadLocks[n];
      && (n in d.threadLocks <==> lock.networkId != network)
      && (n in d.threadLocks ==> d.threadLocks[n] == lock)
      && (lock.networkId == network && At(c, id, Waiting(lock)) ==> MayTimeOut(d, id))
      && (forall l :: l !in c.threadLocks.Values ==> (l in d.ready <==> l in c.ready))
      && d.sessions == c.sessions && d.status == c.status && d.calls == c.calls
  {
  }

  // ----- the clean-up of a failed call

  /** A failing call that counts few references goes on to delete, any other returns its code
      and leaves everything as it is. */
  lemma TestDecides(c: Client, id: nat, refsLow: bool)
    requires id in c.calls && c.calls[id].pc.Failed?
    ensures var d := TestCall(c, id, refsLow); var code := c.calls[id].pc.code;
      OnlyCaller(c, d, id) && d.calls[id] == c.calls[id].(pc := if refsLow then Deleting(code) else Done(code))
  {
  }

  lemma HolderHasKey(reg: seq<Stub>, key: StubKey)
    requires KeysUnique(reg)
    ensures Holder(reg, key) == set x | x in reg && x.key == key
  {
    FindKeySound(reg, key);
    forall x | x in reg && x.key == key ensures x in Holder(reg, key) {
      match FindKey(reg, key)
      case None =>
      case Some(t) => SameKeySameStub(reg, x, t);
    }
  }

  /** The deletion takes the stub registered under the call's key, whichever it is, and its
      tags; all other stubs keep their order and their tags, and every session stays. */
  lemma DeletionTakesKey(c: Client, id: nat, s: Stub, t: nat)
    requires KeysUnique(c.registered) && id in c.calls && c.calls[id].pc.Deleting?
    ensures var d := DeleteCall(c, id); var key := c.calls[id].stub.key;
      && (s in d.registered <==> s in c.registered && s.key != key)
      && (t in d.tags.live <==> t in c.tags.live && !(c.tags.live[t] in c.registered && c.tags.live[t].key == key))
      && (t in d.tags.live ==> d.tags.live[t] == c.tags.live[t])
      && d.registered == Without(c.registered, set x | x in c.registered && x.key == key)
      && d.sessions == c.sessions && d.status == c.status && d.threadLocks == c.threadLocks
      && d.calls[id].pc == Detaching(c.calls[id].pc.code)
  {
    var key := c.calls[id].stub.key;
    HolderHasKey(c.registered, key);
    WithoutMembers(c.registered, Holder(c.registered, key));
    hide KeysUnique, Holder, Without, SameOwners, RegistersOnlyNext, MovesOnly, Succeeded;
  }

  /** The last step drops the session of the call's own stub and no other, and the call
      returns the code it failed with. */
  lemma DetachDropsOwn(c: Client, id: nat, s: Stub)
    requires id in c.calls && c.calls[id].pc.Detaching?
    ensures var d := DetachCall(c, id);
      && (s in d.sessions <==> s in c.sessions && s != c.calls[id].stub)
      && (s in d.sessions ==> d.sessions[s] == c.sessions[s])
      && d.registered == c.registered && d.tags == c.tags && d.calls[id].pc == Done(c.calls[id].pc.code)
  {
  }

  // ----- how a call begins

  /** A call for a registered key shares that very stub under the number the stub was given,
      and nothing else changes. */
  lemma BeginShares(c: Client, id: nat, key: StubKey, binderObject: int, s: Stub)
    requires KeysUnique(c.registered) && s in c.registered && s.key == key
    requires 0 < |key.service| && 0 < |key.device| <= DEVICEID_LENGTH
    ensures var d := BeginCall(c, id, key, binderObject);
      && OnlyCaller(c, d, id) && d.calls[id].stub == s && !d.calls[id].isNew && d.calls[id].pc == Invoking
      && d.calls[id].tries == 0
      && (s in c.seqNums ==> d.calls[id].seqNum == c.seqNums[s])
  {
    FindKeySound(c.registered, key);
    SameKeySameStub(c.registered, s, FindKey(c.registered, key).value);
  }

  /** A call for a key nobody registered registers a new stub with that key and binder object
      at the end of the list, and gives it the next number, which is never 0. */
  lemma BeginRegisters(c: Client, id: nat, key: StubKey, binderObject: int)
    requires forall s :: s in c.registered ==> s.key != key
    requires 0 < |key.service| && 0 < |key.device| <= DEVICEID_LENGTH
    ensures var d := BeginCall(c, id, key, binderObject);
      && id in d.calls && d.calls[id].isNew && d.calls[id].pc == Invoking && d.calls[id].tries == 0
      && var s := d.calls[id].stub;
         && s.key == key && s.id == c.nextStub && d.nextStub == c.nextStub + 1
         && (-0x8000_0000 <= binderObject < 0x8000_0000 ==> ToInt32(s.binderObject) == binderObject)
         && d.registered == c.registered + [s] && d.seqNums == c.seqNums[s := d.calls[id].seqNum]
         && d.seqNumber == d.calls[id].seqNum && d.seqNumber > 0
         && (c.seqNumber < UINT32_MAX ==> d.seqNumber == c.seqNumber + 1)
         && (c.seqNumber == UINT32_MAX ==> d.seqNumber == 1)
         && d.sessions == c.sessions && d.status == c.status && d.threadLocks == c.threadLocks && d.tags == c.tags
  {
    FindKeySound(c.registered, key);
  }

  /** Bad parameters begin nothing. */
  lemma BadCallBeginsNothing(c: Client, id: nat, key: StubKey, binderObject: int)
    requires |key.service| == 0 || |key.device| == 0 || |key.device| > 64
    ensures BeginCall(c, id, key, binderObject) == c
  {
  }

  // ----- notices and callbacks

  /** A service death that passes its guards forgets exactly the registered stubs of that
      service on that device. */
  lemma ServiceDeathForgetsService(c: Client, service: string, device: string, s: Stub)
    requires 0 < |service| && 0 < |device| <= 64
    ensures var d := ServiceDies(c, service, device);
      && (s in c.registered && s.key.service == service && s.key.device == device ==>
            && Forgotten(d, s)
            && (forall p :: p in c.noticeProxy && c.noticeProxy[p] == s ==> p !in d.deathRecipients))
      && (!(s in c.registered && s.key.service == service && s.key.device == device) ==> Untouched(c, d, s))
  {
    var gone := OfService(c.registered, service, device);
    if s in gone {
      PurgeForgets(c, gone, s);
    } else {
      PurgeSpares(c, gone, s);
    }
  }

  lemma BadNoticeForgetsNothing(c: Client, service: string, device: string, listening: bool)
    ensures |service| == 0 || |device| == 0 || |device| > 64 ==> ServiceDies(c, service, device) == c
    ensures !listening || |device| == 0 || |device| > 64 ==> DeviceDies(c, device, listening) == c
  {
  }

  /** An accepted recipient for a proxy that has none is entered in both maps, a refused or
      second one in neither; nothing else changes. */
  lemma RecipientIsEntered(c: Client, s: Stub, proxy: nat, death: nat, accepted: bool)
    requires proxy in c.noticeProxy <==> proxy in c.deathRecipients
    ensures var d := AttachRecipient(c, s, proxy, death, accepted);
      && (accepted && proxy !in c.deathRecipients ==>
            d.deathRecipients == c.deathRecipients[proxy := death] && d.noticeProxy == c.noticeProxy[proxy := s])
      && (!accepted || proxy in c.deathRecipients ==> d == c)
      && d.(deathRecipients := c.deathRecipients, noticeProxy := c.noticeProxy) == c
  {
  }

  /** A removed or dead proxy is in neither map, and no other proxy is touched. */
  lemma RecipientIsRemoved(c: Client, proxy: nat, other: nat)
    requires proxy in c.noticeProxy <==> proxy in c.deathRecipients
    ensures var d := DetachRecipient(c, proxy);
      && proxy !in d.deathRecipients && proxy !in d.noticeProxy
      && (other != proxy ==> (other in d.deathRecipients <==> other in c.deathRecipients) &&
                             (other in d.noticeProxy <==> other in c.noticeProxy))
      && (other in d.deathRecipients ==> d.deathRecipients[other] == c.deathRecipients[other])
      && (other in d.noticeProxy ==> d.noticeProxy[other] == c.noticeProxy[other])
      && d.(deathRecipients := c.deathRecipients, noticeProxy := c.noticeProxy) == c
  {
  }

  /** The proxy is listed for the stub, with its recipient. */
  predicate Lists(c: Client, proxy: nat, s: Stub, death: nat) {
    && proxy in c.noticeProxy && c.noticeProxy[proxy] == s
    && proxy in c.deathRecipients && c.deathRecipients[proxy] == death
  }

  lemma NoticeKeepsListed(c: Client, gone: set<Stub>, proxy: nat, s: Stub, death: nat)
    requires Lists(c, proxy, s, death) && s !in gone
    ensures Lists(Purge(c, gone), proxy, s, death)
  {
  }

  lemma OtherStepKeepsListed(c: Client, e: Event, d: Client, proxy: nat, s: Stub, death: nat)
    requires Next(c, e, d) && Lists(c, proxy, s, death) && !OfCaller(e) && !e.ServiceDied? && !e.DeviceDied?
    requires e != RemoveRecipient(proxy) && e != ProxyDied(proxy)
    ensures Lists(d, proxy, s, death)
  {
    hide OnReply, SameStubs, SameOwners, RegistersOnlyNext;
    if e.Reply? {
      ReplyKeepsCallbacks(c, e.msg);
    }
  }

  lemma ReplyKeepsCallbacks(c: Client, m: Message)
    ensures OnReply(c, m).noticeProxy == c.noticeProxy && OnReply(c, m).deathRecipients == c.deathRecipients
  {
  }

  lemma EarlyStepKeepsCallbacks(c: Client, e: Event, d: Client)
    requires Next(c, e, d) && (e.Poll? || e.Timeout? || e.Woken?)
    ensures d.noticeProxy == c.noticeProxy && d.deathRecipients == c.deathRecipients
  {
    hide SameStubs, MovesOnly, Succeeded, AfterInvoke, BeginCall, InvokeCall, TestCall, DeleteCall, DetachCall,
      PollNext;
  }

  lemma BeginKeepsCallbacks(c: Client, id: nat, key: StubKey, binderObject: int)
    ensures BeginCall(c, id, key, binderObject).noticeProxy == c.noticeProxy
    ensures BeginCall(c, id, key, binderObject).deathRecipients == c.deathRecipients
  {
    hide RegistersOnlyNext, MovesOnly, Succeeded, FindKey, AcceptsKey, FromInt32, NextSeq, JoinCall, NewCall;
    match FindKey(c.registered, key)
    case Some(s) => JoinKeepsCallbacks(c, id, s);
    case None =>
      NewKeepsCallbacks(c, id, Stub(c.nextStub, key, FromInt32(binderObject)), NextSeq(c.seqNumber));
  }

  lemma JoinKeepsCallbacks(c: Client, id: nat, s: Stub)
    ensures JoinCall(c, id, s).noticeProxy == c.noticeProxy && JoinCall(c, id, s).deathRecipients == c.deathRecipients
  {
  }

  lemma NewKeepsCallbacks(c: Client, id: nat, s: Stub, n: nat)
    ensures NewCall(c, id, s, n).noticeProxy == c.noticeProxy
    ensures NewCall(c, id, s, n).deathRecipients == c.deathRecipients
  {
  }

  lemma InvokeKeepsCallbacks(c: Client, id: nat, env: SendEnv)
    requires id in c.calls
    ensures InvokeCall(c, id, env).noticeProxy == c.noticeProxy
    ensures InvokeCall(c, id, env).deathRecipients == c.deathRecipients
  {
    hide Request, SameStubs, MovesOnly, Succeeded, AddTag;
    RequestKeepsCallbacks(c, id, env);
  }

  lemma RequestKeepsCallbacks(c: Client, id: nat, env: SendEnv)
    requires id in c.calls
    ensures Request(c, id, env).noticeProxy == c.noticeProxy
    ensures Request(c, id, env).deathRecipients == c.deathRecipients
  {
    hide SameStubs, MovesOnly, Succeeded, AddTag, TagsAfterSend, Addressable, AfterInvoke;
  }

  lemma LateStepKeepsCallbacks(c: Client, e: Event, d: Client)
    requires Next(c, e, d) && (e.Test? || e.Delete? || e.Detach?)
    ensures d.noticeProxy == c.noticeProxy && d.deathRecipients == c.deathRecipients
  {
    hide SameStubs, SameOwners, RegistersOnlyNext, MovesOnly, Succeeded, LastHolder, Without, Holder;
  }

  lemma CallerKeepsCallbacks(c: Client, e: Event, d: Client)
    requires Next(c, e, d) && OfCaller(e)
    ensures d.noticeProxy == c.noticeProxy && d.deathRecipients == c.deathRecipients
  {
    if e.Invoke? {
      InvokeKeepsCallbacks(c, e.id, e.env);
      hide InvokeCall;
    } else if e.Begin? {
      BeginKeepsCallbacks(c, e.id, e.key, e.binderObject);
      hide BeginCall;
    } else if e.Poll? || e.Timeout? || e.Woken? {
      EarlyStepKeepsCallbacks(c, e, d);
      hide Next;
    } else {
      LateStepKeepsCallbacks(c, e, d);
      hide Next;
    }
  }

  lemma StepKeepsListed(c: Client, e: Event, d: Client, proxy: nat, s: Stub, death: nat)
    requires Inv(c) && Next(c, e, d) && Lists(c, proxy, s, death)
    requires e != RemoveRecipient(proxy) && e != ProxyDied(proxy) && (s in d.noticed ==> s in c.noticed)
    ensures Lists(d, proxy, s, death)
  {
    if OfCaller(e) {
      hide Next, Inv;
      CallerKeepsCallbacks(c, e, d);
    } else if e.ServiceDied? {
      ServiceNoticeSpares(c, e, d, s);
      hide Inv, Purge;
      if d != c {
        NoticeKeepsListed(c, OfService(c.registered, e.service, e.device), proxy, s, death);
      }
    } else if e.DeviceDied? {
      ServiceNoticeSpares(c, e, d, s);
      hide Inv, Purge;
      if d != c {
        NoticeKeepsListed(c, OfDevice(c.registered, e.device), proxy, s, death);
      }
    } else {
      hide Next, Inv;
      OtherStepKeepsListed(c, e, d, proxy, s, death);
    }
  }

  /** A notice that does not newly remove the stub does not concern it. */
  lemma ServiceNoticeSpares(c: Client, e: Event, d: Client, s: Stub)
    requires Inv(c) && Next(c, e, d) && (s in d.noticed ==> s in c.noticed)
    ensures e.ServiceDied? && d != c ==> s !in OfService(c.registered, e.service, e.device)
    ensures e.DeviceDied? && d != c ==> s !in OfDevice(c.registered, e.device)
  {
    hide BeginCall, InvokeCall, PollCall, TimeoutCall, WokenCall, TestCall, DeleteCall, DetachCall, OnReply, OnError,
      CloseSession, SetStatus, AttachRecipient, DetachRecipient, LastHolder;
  }

  lemma NoticedStep(c: Client, e: Event, d: Client)
    requires Next(c, e, d)
    ensures c.noticed <= d.noticed
  {
    if e.ServiceDied? || e.DeviceDied? {
      hide BeginCall, InvokeCall, PollCall, TimeoutCall, WokenCall, TestCall, DeleteCall, DetachCall, OnReply, OnError,
        CloseSession, SetStatus, AttachRecipient, DetachRecipient, LastHolder, Without, OfService, OfDevice;
    } else {
      HistoryGrows(c, e, d);
      hide Next;
    }
  }

  lemma {:induction false} NoticedStays(states: seq<Client>, events: seq<Event>, i: nat, j: nat)
    requires IsRun(states, events) && i <= j < |states|
    ensures states[i].noticed <= states[j].noticed
    decreases j
  {
    hide Next;
    if i < j {
      NoticedStays(states, events, i, j - 1);
      assert Next(states[j - 1], events[j - 1], states[j]);
      NoticedStep(states[j - 1], events[j - 1], states[j]);
    }
  }

  /** Once an add has succeeded, the proxy stays listed for the stub with its recipient, in
      every run, until it is removed, its client dies, or a notice removes the stub. */
  lemma {:induction false} RecipientStaysListed(states: seq<Client>, events: seq<Event>, i: nat, j: nat,
                                                proxy: nat, s: Stub, death: nat)
    requires IsRun(states, events) && i < j < |states| && events[i] == AddRecipient(s, proxy, death, true)
    requires proxy !in states[i].deathRecipients
    requires forall m :: i < m < j ==> events[m] != RemoveRecipient(proxy) && events[m] != ProxyDied(proxy)
    requires s in states[j].noticed ==> s in states[i].noticed
    ensures Lists(states[j], proxy, s, death)
    decreases j
  {
    hide Next, Inv, Lists;
    RunInv(states, events, j - 1);
    assert Next(states[j - 1], events[j - 1], states[j]);
    if j == i + 1 {
      AddLists(states[i], s, proxy, death, states[j]);
    } else {
      NoticedStays(states, events, i, j - 1);
      NoticedStep(states[j - 1], events[j - 1], states[j]);
      RecipientStaysListed(states, events, i, j - 1, proxy, s, death);
      StepKeepsListed(states[j - 1], events[j - 1], states[j], proxy, s, death);
    }
  }

  lemma AddLists(c: Client, s: Stub, proxy: nat, death: nat, d: Client)
    requires Inv(c) && Next(c, AddRecipient(s, proxy, death, true), d) && proxy !in c.deathRecipients
    ensures Lists(d, proxy, s, death)
  {
    assert proxy in c.noticeProxy.Keys <==> proxy in c.deathRecipients.Keys;
    RecipientIsEntered(c, s, proxy, death, true);
  }

  // ----- the number of a stub

  /** Every call works under the number its stub was given when it was registered. */
  ghost predicate NumberInv(calls: map<nat, Call>, reg: seq<Stub>, seqNums: map<Stub, nat>, nextStub: nat) {
    && (forall id :: id in calls ==> calls[id].stub in seqNums && calls[id].seqNum == seqNums[calls[id].stub])
    && (forall s :: s in reg ==> s in seqNums)
    && (forall s :: s in seqNums ==> s.id < nextStub && seqNums[s] > 0)
  }

  lemma NumberMove(calls: map<nat, Call>, reg: seq<Stub>, seqNums: map<Stub, nat>, nextStub: nat, id: nat, call: Call)
    requires NumberInv(calls, reg, seqNums, nextStub)
    requires id in calls && call.stub == calls[id].stub && call.seqNum == calls[id].seqNum
    ensures NumberInv(calls[id := call], reg, seqNums, nextStub)
  {
  }

  lemma NumberBegin(c: Client, id: nat, key: StubKey, binderObject: int)
    requires NumberInv(c.calls, c.registered, c.seqNums, c.nextStub) && id !in c.calls
    ensures var d := BeginCall(c, id, key, binderObject); NumberInv(d.calls, d.registered, d.seqNums, d.nextStub)
  {
    FindKeySound(c.registered, key);
  }

  /** The frame of one caller moves on under its number, and the registry only shrinks. */
  predicate SameNumbers(c: Client, d: Client) {
    && d.seqNums == c.seqNums && d.nextStub == c.nextStub && (forall s :: s in d.registered ==> s in c.registered)
  }

  predicate KeepsNumber(c: Client, d: Client, id: nat) {
    && id in c.calls && id in d.calls && d.calls == c.calls[id := d.calls[id]]
    && d.calls[id].stub == c.calls[id].stub && d.calls[id].seqNum == c.calls[id].seqNum
    && c.calls[id].tries <= d.calls[id].tries
  }

  lemma InvokeNumbers(c: Client, id: nat, env: SendEnv)
    requires id in c.calls
    ensures SameNumbers(c, InvokeCall(c, id, env)) && KeepsNumber(c, InvokeCall(c, id, env), id)
  {
    hide SameStubs, MovesOnly, Succeeded, AddTag, TagsAfterSend, Addressable;
  }

  lemma WaitNumbers(c: Client, e: Event, d: Client)
    requires Next(c, e, d) && (e.Poll? || e.Timeout? || e.Woken?)
    ensures SameNumbers(c, d) && KeepsNumber(c, d, e.id)
    ensures e.Timeout? ==> c.calls[e.id].tries < d.calls[e.id].tries
  {
    hide SameStubs, SameOwners, MovesOnly, Succeeded;
  }

  lemma CleanNumbers(c: Client, e: Event, d: Client)
    requires Next(c, e, d) && (e.Test? || e.Delete? || e.Detach?)
    ensures SameNumbers(c, d) && KeepsNumber(c, d, e.id)
  {
    hide SameStubs, SameOwners, RegistersOnlyNext, MovesOnly, Succeeded, LastHolder, Holder;
    if e.Delete? {
      WithoutMembers(c.registered, Holder(c.registered, c.calls[e.id].stub.key));
    }
  }

  lemma NoticeNumbers(c: Client, e: Event, d: Client)
    requires Next(c, e, d) && !OfCaller(e)
    ensures SameNumbers(c, d) && d.calls == c.calls
  {
    OutsideStep(c, e, d);
    hide SameStubs, SameOwners, RegistersOnlyNext, Without;
    if e.ServiceDied? {
      WithoutMembers(c.registered, OfService(c.registered, e.service, e.device));
    } else if e.DeviceDied? {
      WithoutMembers(c.registered, OfDevice(c.registered, e.device));
    }
  }

  lemma NumberStep(c: Client, e: Event, d: Client)
    requires NumberInv(c.calls, c.registered, c.seqNums, c.nextStub) && Next(c, e, d)
    ensures NumberInv(d.calls, d.registered, d.seqNums, d.nextStub)
  {
    if e.Begin? {
      NumberBegin(c, e.id, e.key, e.binderObject);
      hide BeginCall;
    } else if e.Invoke? {
      InvokeNumbers(c, e.id, e.env);
      hide InvokeCall;
      NumberMove(c.calls, c.registered, c.seqNums, c.nextStub, e.id, d.calls[e.id]);
    } else if e.Poll? || e.Timeout? || e.Woken? {
      WaitNumbers(c, e, d);
      hide Next;
      NumberMove(c.calls, c.registered, c.seqNums, c.nextStub, e.id, d.calls[e.id]);
    } else if OfCaller(e) {
      CleanNumbers(c, e, d);
      hide Next;
      NumberMove(c.calls, c.registered, c.seqNums, c.nextStub, e.id, d.calls[e.id]);
    } else {
      NoticeNumbers(c, e, d);
      hide Next;
    }
  }

  /** In every state of every run, all calls for a stub work under one and the same number,
      the one the stub was given when it was registered, and no number is 0. */
  lemma {:induction false} CallsShareTheNumber(states: seq<Client>, events: seq<Event>, k: nat)
    requires IsRun(states, events) && k < |states|
    ensures NumberInv(states[k].calls, states[k].registered, states[k].seqNums, states[k].nextStub)
  {
    hide Next, NumberInv;
    if k > 0 {
      CallsShareTheNumber(states, events, k - 1);
      assert Next(states[k - 1], events[k - 1], states[k]);
      NumberStep(states[k - 1], events[k - 1], states[k]);
    } else {
      StartNumbers();
    }
  }

  lemma StartNumbers()
    ensures var c := Start(); NumberInv(c.calls, c.registered, c.seqNums, c.nextStub)
  {
  }

  // ----- how often a call times out

  function Timeouts(events: seq<Event>, id: nat): nat {
    if events == [] then 0
    else Timeouts(events[..|events| - 1], id) + if events[|events| - 1] == Timeout(id) then 1 else 0
  }

  /** Another step never takes a try back, and a timeout costs one. */
  lemma TriesGrow(c: Client, e: Event, d: Client, id: nat)
    requires Next(c, e, d) && id in c.calls
    ensures id in d.calls && c.calls[id].tries + (if e == Timeout(id) then 1 else 0) <= d.calls[id].tries
  {
    if e.Begin? {
      hide RegistersOnlyNext, Succeeded, FindKey;
    } else if e.Invoke? {
      InvokeNumbers(c, e.id, e.env);
      hide InvokeCall;
    } else if e.Poll? || e.Timeout? || e.Woken? {
      WaitNumbers(c, e, d);
      hide Next;
    } else if OfCaller(e) {
      CleanNumbers(c, e, d);
      hide Next;
    } else {
      NoticeNumbers(c, e, d);
      hide Next;
    }
  }

  lemma {:induction false} TimeoutsAreTries(states: seq<Client>, events: seq<Event>, k: nat, id: nat)
    requires IsRun(states, events) && k < |states|
    ensures Timeouts(events[..k], id) <= if id in states[k].calls then states[k].calls[id].tries else 0
  {
    hide Next;
    if k > 0 {
      TimeoutsAreTries(states, events, k - 1, id);
      assert Next(states[k - 1], events[k - 1], states[k]);
      assert events[..k][..k - 1] == events[..k - 1];
      if id in states[k - 1].calls {
        TriesGrow(states[k - 1], events[k - 1], states[k], id);
      } else {
        OnlyWaitersTimeOut(states[k - 1], states[k], id);
      }
    }
  }

  lemma OnlyWaitersTimeOut(c: Client, d: Client, id: nat)
    requires id !in c.calls
    ensures !Next(c, Timeout(id), d)
  {
  }

  /** In every run a call times out at most twice, and a call that has not failed at most once. */
  lemma TimesOutTwice(states: seq<Client>, events: seq<Event>, k: nat, id: nat)
    requires IsRun(states, events) && k < |states| && id in states[k].calls
    ensures Timeouts(events[..k], id) <= 2
    ensures var pc := states[k].calls[id].pc;
      pc.Invoking? || pc.Polling? || pc.Waiting? ==> Timeouts(events[..k], id) <= 1
  {
    TimeoutsAreTries(states, events, k, id);
    RunInv(states, events, k);
    assert CallerInv(states[k].calls[id], states[k].nextStub);
  }
}
