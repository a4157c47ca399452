/** What every step of a DBinder client keeps. */
module DBinderClientInvariant {
  import opened Sequences
  import opened DBinderTypes
  import opened DBinderClient

  // ----- the registry

  ghost predicate KeysUnique(reg: seq<Stub>) {
    forall i, j :: 0 <= i < j < |reg| ==> reg[i].key != reg[j].key
  }

  /** At most one registered stub per key, all with a service name, none of them ever
      removed by a notice or dropped by a failing call. */
  ghost predicate RegistryInv(reg: seq<Stub>, nextStub: nat, noticed: set<Stub>, cleaned: set<Stub>) {
    && KeysUnique(reg)
    && (forall s :: s in reg ==>
          |s.key.service| > 0 && s.id < nextStub && s !in noticed && s !in cleaned)
  }

  ghost predicate Known(stubs: set<Stub>, nextStub: nat) {
    forall s :: s in stubs ==> s.id < nextStub
  }

  /** A call tries at most twice and polls at most ten times in a try. */
  ghost predicate CallerInv(call: Call, nextStub: nat) {
    && call.stub.id < nextStub
    && (call.pc.Failed? || call.pc.Deleting? || call.pc.Detaching? ==> call.pc.code != DBINDER_OK)
    && call.tries <= RETRY_TIMES
    && (call.pc.Invoking? || call.pc.Polling? || call.pc.Waiting? ==> call.tries < RETRY_TIMES)
    && (call.pc.Polling? ==> call.pc.count < THREAD_LOCK_RETRY_TIMES)
  }

  ghost predicate CallersInv(calls: map<nat, Call>, nextStub: nat) {
    forall id :: id in calls ==> CallerInv(calls[id], nextStub)
  }

  /** A call that has deleted by key works for a stub that is not registered. */
  ghost predicate DetachingInv(calls: map<nat, Call>, reg: seq<Stub>) {
    forall id :: id in calls && calls[id].pc.Detaching? ==> calls[id].stub !in reg
  }

  // ----- tags

  ghost predicate Injective(tags: map<nat, Stub>) {
    forall t, u :: t in tags && u in tags && tags[t] == tags[u] ==> t == u
  }

  /** The 64-bit tag counter has not wrapped. */
  ghost predicate NoWrap(issued: nat) { issued + 1 < TWO_64 }

  ghost predicate TagInv(tt: TagTable) {
    && Injective(tt.live)
    && (NoWrap(tt.issued) ==>
          && tt.counter == tt.issued + 1
          && (forall t :: t in tt.owner ==> 1 <= t <= tt.issued)
          && (forall t :: t in tt.live ==> t in tt.owner && tt.owner[t] == tt.live[t]))
  }

  // ----- negotiation status

  ghost predicate FinishedInv(status: map<Stub, NegoStatus>, settled: set<Stub>) {
    forall s :: s in status && status[s] == NegoFinished ==> s in settled
  }

  // ----- waiters

  /** A call is waiting on this lock, under number n, for the lock's network. */
  ghost predicate WaitsOn(calls: map<nat, Call>, id: nat, lock: Lock, n: nat) {
    && id in calls
    && calls[id].pc == Waiting(lock)
    && calls[id].seqNum == n
    && calls[id].stub.key.device == lock.networkId
  }

  /** Every entry of the thread-lock table was made by a call that is still waiting on
      exactly that lock, under exactly that number, for exactly that network. */
  ghost predicate WaiterInv(threadLocks: map<nat, Lock>, calls: map<nat, Call>, ready: set<Lock>, nextLock: nat) {
    && (forall n :: n in threadLocks ==>
          && threadLocks[n].id < nextLock
          && threadLocks[n] !in ready
          && WaitsOn(calls, threadLocks[n].owner, threadLocks[n], n))
    && (forall lock :: lock in ready ==> lock.id < nextLock)
  }

  ghost predicate Inv(c: Client) {
    && RegistryInv(c.registered, c.nextStub, c.noticed, c.cleaned)
    && Known(c.status.Keys, c.nextStub)
    && Known(c.noticed + c.cleaned, c.nextStub)
    && CallersInv(c.calls, c.nextStub)
    && DetachingInv(c.calls, c.registered)
    && TagInv(c.tags)
    && FinishedInv(c.status, c.sessions.Keys + c.noticed + c.cleaned)
    && WaiterInv(c.threadLocks, c.calls, c.ready, c.nextLock)
    && c.noticeProxy.Keys == c.deathRecipients.Keys
  }

  // ----- helper facts

  lemma {:induction false} FindKeySound(reg: seq<Stub>, key: StubKey)
    ensures FindKey(reg, key).Some? ==> FindKey(reg, key).value in reg && FindKey(reg, key).value.key == key
    ensures FindKey(reg, key).None? ==> forall s :: s in reg ==> s.key != key
  {
    if reg != [] && reg[0].key != key {
      FindKeySound(reg[1..], key);
    }
  }

  lemma {:induction false} WithoutKeysUnique(reg: seq<Stub>, gone: set<Stub>)
    requires KeysUnique(reg)
    ensures KeysUnique(Without(reg, gone))
  {
    if reg != [] {
      var front := reg[..|reg| - 1];
      WithoutKeysUnique(front, gone);
      WithoutMembers(front, gone);
      var w := Without(front, gone);
      forall i | 0 <= i < |w| ensures w[i].key != reg[|reg| - 1].key {
        assert w[i] in front;
      }
    }
  }

  lemma SameKeySameStub(reg: seq<Stub>, s: Stub, t: Stub)
    requires KeysUnique(reg) && s in reg && t in reg && s.key == t.key
    ensures s == t
  {
    var i :| 0 <= i < |reg| && reg[i] == s;
    var j :| 0 <= j < |reg| && reg[j] == t;
  }

  lemma PurgeKeeps(c: Client, gone: set<Stub>)
    requires Inv(c) && forall s :: s in gone ==> s in c.registered
    ensures Inv(Purge(c, gone))
  {
    WithoutKeysUnique(c.registered, gone);
    WithoutMembers(c.registered, gone);
    DropTagsKeeps(c.tags, gone);
  }

  lemma AddTagKeeps(tt: TagTable, s: Stub)
    requires TagInv(tt)
    ensures TagInv(AddTag(tt, s))
  {
  }

  lemma DropTagsKeeps(tt: TagTable, gone: set<Stub>)
    requires TagInv(tt)
    ensures TagInv(DropTags(tt, gone))
  {
  }

  /** A caller that owns no entry may move on. */
  lemma MoveCall(threadLocks: map<nat, Lock>, calls: map<nat, Call>, ready: set<Lock>, nextLock: nat,
                 id: nat, call: Call)
    requires WaiterInv(threadLocks, calls, ready, nextLock)
    requires id in calls && calls[id].pc.Waiting? ==> calls[id].pc.lock in ready
    ensures WaiterInv(threadLocks, calls[id := call], ready, nextLock)
  {
  }

  /** A caller enters its own new lock under a free number and waits on it. */
  lemma AttachWaiter(threadLocks: map<nat, Lock>, calls: map<nat, Call>, ready: set<Lock>, nextLock: nat,
                     id: nat, call: Call, lock: Lock)
    requires WaiterInv(threadLocks, calls, ready, nextLock)
    requires id in calls && !calls[id].pc.Waiting?
    requires lock == Lock(nextLock, call.stub.key.device, id) && call.pc == Waiting(lock)
    ensures WaiterInv(threadLocks[call.seqNum := lock], calls[id := call], ready, nextLock + 1)
  {
    MoveCall(threadLocks, calls, ready, nextLock, id, call);
  }

  lemma CallersUpdate(calls: map<nat, Call>, nextStub: nat, id: nat, call: Call)
    requires CallersInv(calls, nextStub) && CallerInv(call, nextStub)
    ensures CallersInv(calls[id := call], nextStub)
  {
  }

  // ----- the steps

  lemma NewCallKeeps(c: Client, id: nat, s: Stub, n: nat)
    requires Inv(c) && id !in c.calls && s.id == c.nextStub && |s.key.service| > 0
    requires forall t :: t in c.registered ==> t.key != s.key
    ensures Inv(NewCall(c, id, s, n))
  {
    var call := Call(s, n, true, 0, Invoking);
    MoveCall(c.threadLocks, c.calls, c.ready, c.nextLock, id, call);
  }

  lemma BeginKeeps(c: Client, id: nat, key: StubKey, binderObject: int)
    requires Inv(c) && id !in c.calls
    ensures Inv(BeginCall(c, id, key, binderObject))
  {
    FindKeySound(c.registered, key);
    match FindKey(c.registered, key)
    case Some(s) =>
      var call := Call(s, SeqNumOf(c, s), false, 0, Invoking);
      MoveCall(c.threadLocks, c.calls, c.ready, c.nextLock, id, call);
      CallersUpdate(c.calls, c.nextStub, id, call);
    case None =>
      if AcceptsKey(key) {
        NewCallKeeps(c, id, Stub(c.nextStub, key, FromInt32(binderObject)), NextSeq(c.seqNumber));
      }
  }

  lemma RequestKeeps(c: Client, id: nat, env: SendEnv)
    requires Inv(c) && At(c, id, Invoking)
    ensures Inv(Request(c, id, env))
  {
    var d := Request(c, id, env);
    var call := d.calls[id];
    AddTagKeeps(c.tags, c.calls[id].stub);
    CallersUpdate(c.calls, c.nextStub, id, call);
    if call.pc.Waiting? {
      AttachWaiter(c.threadLocks, c.calls, c.ready, c.nextLock, id, call, call.pc.lock);
    } else {
      MoveCall(c.threadLocks, c.calls, c.ready, c.nextLock, id, call);
    }
  }

  lemma InvokeKeeps(c: Client, id: nat, env: SendEnv)
    requires Inv(c) && At(c, id, Invoking)
    ensures Inv(InvokeCall(c, id, env))
  {
    RequestKeeps(c, id, env);
    var call := c.calls[id].(pc := Polling(0));
    MoveCall(c.threadLocks, c.calls, c.ready, c.nextLock, id, call);
    CallersUpdate(c.calls, c.nextStub, id, call);
  }

  lemma PollKeeps(c: Client, id: nat)
    requires Inv(c) && id in c.calls && c.calls[id].pc.Polling?
    ensures Inv(PollCall(c, id))
  {
    var call := PollCall(c, id).calls[id];
    MoveCall(c.threadLocks, c.calls, c.ready, c.nextLock, id, call);
    CallersUpdate(c.calls, c.nextStub, id, call);
  }

  lemma TimeoutKeeps(c: Client, id: nat)
    requires Inv(c) && MayTimeOut(c, id)
    ensures Inv(TimeoutCall(c, id))
  {
    CallersUpdate(c.calls, c.nextStub, id, TimeoutCall(c, id).calls[id]);
  }

  lemma WokenKeeps(c: Client, id: nat)
    requires Inv(c) && MayWake(c, id)
    ensures Inv(WokenCall(c, id))
  {
    var call := WokenCall(c, id).calls[id];
    MoveCall(c.threadLocks, c.calls, c.ready, c.nextLock, id, call);
    CallersUpdate(c.calls, c.nextStub, id, call);
  }

  lemma TestKeeps(c: Client, id: nat, refsLow: bool)
    requires Inv(c) && id in c.calls && c.calls[id].pc.Failed?
    ensures Inv(TestCall(c, id, refsLow))
  {
    var call := TestCall(c, id, refsLow).calls[id];
    assert CallerInv(c.calls[id], c.nextStub);
    hide RegistryInv, TagInv, FinishedInv, WaiterInv, CallersInv;
    MoveCall(c.threadLocks, c.calls, c.ready, c.nextLock, id, call);
    CallersUpdate(c.calls, c.nextStub, id, call);
  }

  /** The stub of a failing call is no longer registered once its key was deleted. */
  lemma DeleteUnregisters(reg: seq<Stub>, s: Stub)
    requires KeysUnique(reg)
    ensures s !in Without(reg, Holder(reg, s.key))
  {
    var gone := Holder(reg, s.key);
    WithoutMembers(reg, gone);
    FindKeySound(reg, s.key);
    match FindKey(reg, s.key)
    case None =>
    case Some(t) =>
      if s in reg {
        SameKeySameStub(reg, s, t);
      }
  }

  lemma RegistryShrinks(reg: seq<Stub>, gone: set<Stub>, nextStub: nat, noticed: set<Stub>, cleaned: set<Stub>)
    requires RegistryInv(reg, nextStub, noticed, cleaned)
    ensures RegistryInv(Without(reg, gone), nextStub, noticed, cleaned)
  {
    WithoutKeysUnique(reg, gone);
    WithoutMembers(reg, gone);
  }

  lemma DetachingDelete(calls: map<nat, Call>, reg: seq<Stub>, id: nat, call: Call)
    requires DetachingInv(calls, reg) && KeysUnique(reg)
    ensures DetachingInv(calls[id := call], Without(reg, Holder(reg, call.stub.key)))
  {
    DeleteUnregisters(reg, call.stub);
    WithoutMembers(reg, Holder(reg, call.stub.key));
  }

  lemma DeleteKeeps(c: Client, id: nat)
    requires Inv(c) && id in c.calls && c.calls[id].pc.Deleting?
    ensures Inv(DeleteCall(c, id))
  {
    var call := c.calls[id].(pc := Detaching(c.calls[id].pc.code));
    assert CallerInv(c.calls[id], c.nextStub);
    assert KeysUnique(c.registered);
    hide RegistryInv, KeysUnique, Known, TagInv, FinishedInv, WaiterInv, CallersInv, DetachingInv, Holder, Without;
    MoveCall(c.threadLocks, c.calls, c.ready, c.nextLock, id, call);
    CallersUpdate(c.calls, c.nextStub, id, call);
    RegistryShrinks(c.registered, Holder(c.registered, call.stub.key), c.nextStub, c.noticed, c.cleaned);
    DetachingDelete(c.calls, c.registered, id, call);
    DropTagsKeeps(c.tags, Holder(c.registered, call.stub.key));
  }

  lemma FinishedGrows(status: map<Stub, NegoStatus>, a: set<Stub>, b: set<Stub>)
    requires FinishedInv(status, a) && a <= b
    ensures FinishedInv(status, b)
  {
  }

  lemma KnownWith(stubs: set<Stub>, s: Stub, nextStub: nat)
    requires Known(stubs, nextStub) && s.id < nextStub
    ensures Known(stubs + {s}, nextStub)
  {
  }

  lemma RegistryCleaned(reg: seq<Stub>, nextStub: nat, noticed: set<Stub>, cleaned: set<Stub>, s: Stub)
    requires RegistryInv(reg, nextStub, noticed, cleaned) && s !in reg
    ensures RegistryInv(reg, nextStub, noticed, cleaned + {s})
  {
  }

  lemma DetachCallKeeps(c: Client, id: nat)
    requires Inv(c) && id in c.calls && c.calls[id].pc.Detaching?
    ensures Inv(DetachCall(c, id))
  {
    var s := c.calls[id].stub;
    var call := c.calls[id].(pc := Done(c.calls[id].pc.code));
    assert CallerInv(c.calls[id], c.nextStub);
    assert s !in c.registered;
    hide RegistryInv, Known, TagInv, FinishedInv, WaiterInv, CallersInv;
    MoveCall(c.threadLocks, c.calls, c.ready, c.nextLock, id, call);
    CallersUpdate(c.calls, c.nextStub, id, call);
    RegistryCleaned(c.registered, c.nextStub, c.noticed, c.cleaned, s);
    KnownWith(c.noticed + c.cleaned, s, c.nextStub);
    assert c.noticed + (c.cleaned + {s}) == c.noticed + c.cleaned + {s};
    FinishedGrows(c.status, c.sessions.Keys + c.noticed + c.cleaned,
                  (c.sessions - {s}).Keys + c.noticed + (c.cleaned + {s}));
  }

  lemma MessageKeeps(c: Client, m: Message)
    requires Inv(c)
    ensures Inv(OnReply(c, m)) && Inv(OnError(c, m))
  {
  }

  lemma CloseKeeps(c: Client, networkId: string)
    requires Inv(c)
    ensures Inv(CloseSession(c, networkId))
  {
  }

  lemma NoticeKeeps(c: Client, service: string, device: string)
    requires Inv(c)
    ensures Inv(ServiceDies(c, service, device))
    ensures Inv(DeviceDies(c, device, true)) && Inv(DeviceDies(c, device, false))
  {
    PurgeKeeps(c, OfService(c.registered, service, device));
    PurgeKeeps(c, OfDevice(c.registered, device));
  }

  lemma AttachKeeps(c: Client, s: Stub, proxy: nat, death: nat, accepted: bool)
    requires Inv(c)
    ensures Inv(AttachRecipient(c, s, proxy, death, accepted))
  {
  }

  lemma DetachKeeps(c: Client, proxy: nat)
    requires Inv(c)
    ensures Inv(DetachRecipient(c, proxy))
  {
  }

  lemma ClearKeeps(c: Client, s: Stub)
    requires Inv(c) && s.id < c.nextStub
    ensures Inv(SetStatus(c, s, NegoInit))
  {
  }

  predicate OfCaller(e: Event) {
    e.Begin? || e.Invoke? || e.Poll? || e.Timeout? || e.Woken? || e.Test? || e.Delete? || e.Detach?
  }

  lemma CallerStepKeeps(c: Client, e: Event, d: Client)
    requires Inv(c) && Next(c, e, d) && OfCaller(e)
    ensures Inv(d)
  {
    hide Inv, BeginCall, InvokeCall, PollCall, TimeoutCall, WokenCall, TestCall, DeleteCall, DetachCall, LastHolder,
      SameStubs, SameOwners, RegistersOnlyNext, MovesOnly, Succeeded, AddTag;
    match e
    case Begin(id, key, binderObject) => BeginKeeps(c, id, key, binderObject);
    case Invoke(id, env) => InvokeKeeps(c, id, env);
    case Poll(id) => PollKeeps(c, id);
    case Timeout(id) => TimeoutKeeps(c, id);
    case Woken(id) => WokenKeeps(c, id);
    case Test(id, refsLow) => TestKeeps(c, id, refsLow);
    case Delete(id) => DeleteKeeps(c, id);
    case Detach(id) => DetachCallKeeps(c, id);
  }

  lemma OutsideStepKeeps(c: Client, e: Event, d: Client)
    requires Inv(c) && Next(c, e, d) && !OfCaller(e)
    ensures Inv(d)
  {
    hide Inv, OnReply, OnError, CloseSession, ServiceDies, DeviceDies, SetStatus, AttachRecipient, DetachRecipient,
      SameStubs, SameOwners, RegistersOnlyNext, AddTag;
    match e
    case Reply(m) => MessageKeeps(c, m);
    case Error(m) => MessageKeeps(c, m);
    case SessionClosed(networkId) => CloseKeeps(c, networkId);
    case ServiceDied(service, device) => NoticeKeeps(c, service, device);
    case DeviceDied(device, listening) => NoticeKeeps(c, "", device);
    case ClearState(s) => ClearKeeps(c, s);
    case AddRecipient(s, proxy, death, accepted) => AttachKeeps(c, s, proxy, death, accepted);
    case RemoveRecipient(proxy) => DetachKeeps(c, proxy);
    case ProxyDied(proxy) => DetachKeeps(c, proxy);
  }

  /** Every step of a client keeps the invariant, whatever message arrives. */
  lemma StepKeepsInv(c: Client, e: Event, d: Client)
    requires Inv(c) && Next(c, e, d)
    ensures Inv(d)
  {
    if OfCaller(e) {
      CallerStepKeeps(c, e, d);
    } else {
      OutsideStepKeeps(c, e, d);
    }
  }
}
