/** The client half of the DBinderService object: its containers are fields, and every
    operation, with the loops and the in-place erasure of the original, is proved against
    the state machine. */
module DBinderService {
  import opened Sequences
  import opened DBinderTypes
  import C = DBinderClient
  import I = DBinderClientInvariant

  // ----- facts about the specification that the loops need

  lemma DropTwice(tt: C.TagTable, a: set<Stub>, b: set<Stub>)
    ensures C.DropTags(C.DropTags(tt, a), b) == C.DropTags(tt, a + b)
  {
  }

  function KeptProxies(proxies: map<nat, Stub>, gone: set<Stub>): map<nat, Stub> {
    map p | p in proxies && proxies[p] !in gone :: proxies[p]
  }

  function KeptRecipients(recipients: map<nat, nat>, proxies: map<nat, Stub>, gone: set<Stub>): map<nat, nat> {
    map p | p in recipients && !(p in proxies && proxies[p] in gone) :: recipients[p]
  }

  lemma KeptTwice(recipients: map<nat, nat>, proxies: map<nat, Stub>, a: set<Stub>, b: set<Stub>)
    ensures KeptProxies(KeptProxies(proxies, a), b) == KeptProxies(proxies, a + b)
    ensures KeptRecipients(KeptRecipients(recipients, proxies, a), KeptProxies(proxies, a), b) ==
            KeptRecipients(recipients, proxies, a + b)
  {
  }

  lemma PurgeTwice(c: C.Client, a: set<Stub>, b: set<Stub>)
    ensures C.Purge(C.Purge(c, a), b) == C.Purge(c, a + b)
  {
    WithoutTwice(c.registered, a, b);
    DropTwice(c.tags, a, b);
    KeptTwice(c.deathRecipients, c.noticeProxy, a, b);
    assert c.sessions - a - b == c.sessions - (a + b);
    assert c.noticed + a + b == c.noticed + (a + b);
  }

  lemma KeptNone(recipients: map<nat, nat>, proxies: map<nat, Stub>)
    ensures KeptProxies(proxies, {}) == proxies && KeptRecipients(recipients, proxies, {}) == recipients
  {
  }

  lemma PurgeFields(c: C.Client, gone: set<Stub>)
    ensures C.Purge(c, gone) == c.(
      registered := Without(c.registered, gone),
      tags := C.DropTags(c.tags, gone),
      sessions := c.sessions - gone,
      noticeProxy := KeptProxies(c.noticeProxy, gone),
      deathRecipients := KeptRecipients(c.deathRecipients, c.noticeProxy, gone),
      noticed := c.noticed + gone)
  {
  }

  lemma OnlySessions(c: C.Client, m: Message)
    ensures C.MakeSession(c, m) == c.(sessions := C.MakeSession(c, m).sessions)
  {
  }

  /** Erasing the entries of one stub from both maps. */
  lemma EraseIsKept(recipients: map<nat, nat>, proxies: map<nat, Stub>, s: Stub, gone: set<nat>)
    requires gone == set p | p in proxies && proxies[p] == s
    ensures proxies - gone == KeptProxies(proxies, {s})
    ensures recipients - gone == KeptRecipients(recipients, proxies, {s})
  {
  }

  lemma EraseOneMore<T>(m: map<nat, T>, gone: set<nat>, p: nat)
    ensures m - gone - {p} == m - (gone + {p})
  {
  }

  /** The stubs of a device that belong to one of the services. */
  function OfServices(reg: seq<Stub>, names: set<string>, device: string): set<Stub> {
    set s | s in reg && s.key.device == device && s.key.service in names
  }

  /** One more service of the device forgotten. */
  lemma ServiceStep(c: C.Client, names: set<string>, name: string, device: string)
    requires name !in names
    ensures var gone := OfServices(c.registered, names, device);
      var more := OfServices(c.registered, names + {name}, device);
      && C.OfService(C.Purge(c, gone).registered, name, device) == C.OfService(c.registered, name, device)
      && C.Purge(C.Purge(c, gone), C.OfService(c.registered, name, device)) == C.Purge(c, more)
      && (C.OfService(c.registered, name, device) <= C.Purge(c, gone).sessions.Keys <==>
          C.OfService(c.registered, name, device) <= c.sessions.Keys)
      && more == gone + C.OfService(c.registered, name, device)
  {
    var gone, one := OfServices(c.registered, names, device), C.OfService(c.registered, name, device);
    WithoutMembers(c.registered, gone);
    PurgeTwice(c, gone, one);
    assert OfServices(c.registered, names + {name}, device) == gone + one;
    assert one !! gone;
    assert C.Purge(c, gone).sessions.Keys == c.sessions.Keys - gone;
  }

  lemma AllServices(reg: seq<Stub>, device: string, names: set<string>)
    requires names == set s | s in C.OfDevice(reg, device) :: s.key.service
    ensures OfServices(reg, names, device) == C.OfDevice(reg, device)
    ensures (forall s :: s in reg ==> |s.key.service| > 0) ==> forall name :: name in names ==> |name| > 0
  {
  }

  lemma ServicePurge(c: C.Client, name: string, device: string)
    requires |name| > 0 && !IllegalDevice(device)
    ensures C.ServiceDies(c, name, device) == C.Purge(c, C.OfService(c.registered, name, device))
  {
  }

  lemma ServicesStart(c: C.Client, device: string)
    ensures OfServices(c.registered, {}, device) == {} && C.Purge(c, {}) == c
  {
    PurgeFields(c, {});
    WithoutNone(c.registered, {});
    DropNone(c.tags);
    KeptNone(c.deathRecipients, c.noticeProxy);
  }

  /** A purge keeps what the operations rely on. */
  lemma PurgeUsable(c: C.Client, gone: set<Stub>)
    requires Usable(c)
    ensures Usable(C.Purge(c, gone))
  {
    I.WithoutKeysUnique(c.registered, gone);
    WithoutMembers(c.registered, gone);
  }

  ghost predicate Usable(c: C.Client) {
    I.KeysUnique(c.registered) && I.Injective(c.tags.live)
  }

  /** One more position of the list walked over. */
  lemma WalkStep(reg: seq<Stub>, k: nat, service: string, device: string, all: set<Stub>)
    requires k < |reg| && all == C.OfService(reg, service, device)
    ensures reg[k] in all <==> C.SameService(reg[k], service, device)
    ensures Without(reg[..k + 1], all) == Without(reg[..k], all) + (if reg[k] in all then [] else [reg[k]])
    ensures C.OfService(reg[..k + 1], service, device) ==
            C.OfService(reg[..k], service, device) + (if reg[k] in all then {reg[k]} else {})
  {
    assert reg[..k + 1][..k] == reg[..k];
    assert reg[..k + 1] == reg[..k] + [reg[k]];
  }

  lemma WalkStart(reg: seq<Stub>, service: string, device: string, all: set<Stub>)
    ensures C.OfService(reg[..0], service, device) == {} && Without(reg[..0], all) == []
  {
  }

  lemma DropNone(tt: C.TagTable)
    ensures C.DropTags(tt, {}) == tt
  {
    assert C.DropTags(tt, {}).live == tt.live;
  }

  lemma BeginSplit(c: C.Client, id: nat, key: StubKey, binderObject: int)
    ensures !C.AcceptsKey(key) ==> C.BeginCall(c, id, key, binderObject) == c
    ensures C.AcceptsKey(key) ==>
      match C.FindKey(c.registered, key)
      case Some(s) => C.BeginCall(c, id, key, binderObject) == C.JoinCall(c, id, s)
      case None => C.BeginCall(c, id, key, binderObject) ==
                   C.NewCall(c, id, Stub(c.nextStub, key, FromInt32(binderObject)), NextSeq(c.seqNumber))
  {
  }

  lemma RequestSplit(c: C.Client, id: nat, env: C.SendEnv)
    requires id in c.calls
    ensures C.Requests(c, c.calls[id]) ==>
      && C.InvokeSends(c, id, env) == C.RequestSends(c, id, env)
      && C.InvokeCall(c, id, env) == C.Request(c, id, env)
    ensures !C.Requests(c, c.calls[id]) ==>
      && C.InvokeSends(c, id, env) == None
      && C.InvokeCall(c, id, env) == C.SetCall(c, id, c.calls[id].(pc := Polling(0)))
  {
  }

  lemma DistinctStubs(reg: seq<Stub>)
    requires I.KeysUnique(reg)
    ensures forall j, k :: 0 <= j < k < |reg| ==> reg[j] != reg[k]
  {
  }

  class DBinderService {
    var nextStub: nat
    var registered: seq<Stub>
    var tags: map<nat, Stub>
    var stubTagNum: nat
    var seqNumber: nat
    var status: map<Stub, NegoStatus>
    var seqNums: map<Stub, nat>
    var sessions: map<Stub, Session>
    var nextLock: nat
    var threadLocks: map<nat, Lock>
    var ready: set<Lock>
    var calls: map<nat, Call>
    var noticeProxy: map<nat, Stub>
    var deathRecipients: map<nat, nat>
    ghost var issued: nat
    ghost var tagOwner: map<nat, Stub>
    ghost var noticed: set<Stub>
    ghost var cleaned: set<Stub>

    ghost function Tags(): C.TagTable
      reads this
    {
      C.TagTable(tags, stubTagNum, issued, tagOwner)
    }

    ghost function Client(): C.Client
      reads this
    {
      C.Client(nextStub, registered, Tags(), seqNumber, status, seqNums, sessions, nextLock, threadLocks,
               ready, calls, noticeProxy, deathRecipients, noticed, cleaned)
    }

    /** What the operations rely on; it follows from the invariant of the state machine,
        which every operation keeps because it is a step of the state machine. */
    ghost predicate Valid()
      reads this`registered, this`tags
    {
      I.KeysUnique(registered) && I.Injective(tags)
    }

    lemma InvariantSuffices()
      requires I.Inv(Client())
      ensures Valid() && (forall s :: s in registered ==> |s.key.service| > 0)
    {
    }

    lemma IsClient(c: C.Client)
      requires Is(c)
      ensures Client() == c && (Usable(c) ==> Valid())
    {
    }

    /** Field by field, this object is in state c. */
    ghost predicate Is(c: C.Client)
      reads this
    {
      && nextStub == c.nextStub && registered == c.registered && tags == c.tags.live && stubTagNum == c.tags.counter
      && issued == c.tags.issued && tagOwner == c.tags.owner && seqNumber == c.seqNumber && status == c.status
      && seqNums == c.seqNums && sessions == c.sessions && nextLock == c.nextLock && threadLocks == c.threadLocks
      && ready == c.ready && calls == c.calls && noticeProxy == c.noticeProxy && deathRecipients == c.deathRecipients
      && noticed == c.noticed && cleaned == c.cleaned
    }

    constructor ()
      ensures Is(C.Start())
    {
      nextStub, registered, tags, stubTagNum, seqNumber := 0, [], map[], 1, 0;
      status, seqNums, sessions, nextLock, threadLocks := map[], map[], map[], 0, map[];
      ready, calls, noticeProxy, deathRecipients := {}, map[], map[], map[];
      issued, tagOwner, noticed, cleaned := 0, map[], {}, {};
    }

    // ----- tags and registry

    method AddStubByTag(s: Stub) returns (tag: nat)
      requires I.Injective(tags)
      modifies this`tags, this`stubTagNum, this`issued, this`tagOwner
      ensures Tags() == C.AddTag(old(Tags()), s)
      ensures tag == C.TagFor(old(Tags()), s)
    {
      var rest := tags.Keys;
      while rest != {}
        invariant rest <= tags.Keys
        invariant forall t :: t in tags && t !in rest ==> tags[t] != s
        decreases |rest|
      {
        var t :| t in rest;
        if tags[t] == s {
          assert s in tags.Values;
          return t;
        }
        rest := rest - {t};
      }
      assert s !in tags.Values;
      tag := stubTagNum;
      stubTagNum, issued := NextTag(stubTagNum), issued + 1;
      if tag in tags {
        tag := 0;
      } else {
        tags, tagOwner := tags[tag := s], tagOwner[tag := s];
      }
    }

    method HasDBinderStub(s: Stub) returns (found: bool)
      ensures found <==> s in registered
    {
      for i := 0 to |registered|
        invariant s !in registered[..i]
      {
        if registered[i] == s {
          return true;
        }
      }
      return false;
    }

    method FindRegistered(key: StubKey) returns (r: Option<Stub>)
      ensures r == C.FindKey(registered, key)
    {
      for i := 0 to |registered|
        invariant C.FindKey(registered, key) == C.FindKey(registered[i..], key)
      {
        if registered[i].key == key {
          return Some(registered[i]);
        }
        assert registered[i..][1..] == registered[i + 1..];
      }
      return None;
    }

    /** Erases the first tag of s found in the map. */
    method EraseTagOf(s: Stub)
      requires I.Injective(tags)
      modifies this`tags
      ensures Tags() == C.DropTags(old(Tags()), {s}) && I.Injective(tags)
    {
      var rest := tags.Keys;
      while rest != {}
        invariant rest <= tags.Keys && tags == old(tags)
        invariant forall t :: t in tags && t !in rest ==> tags[t] != s
        decreases |rest|
      {
        var t :| t in rest;
        if tags[t] == s {
          tags := tags - {t};
          assert tags == C.DropTags(old(Tags()), {s}).live;
          return;
        }
        rest := rest - {t};
      }
      assert tags == C.DropTags(old(Tags()), {s}).live;
    }

    method DeleteDBinderStub(key: StubKey) returns (deleted: bool)
      requires Valid()
      modifies this`registered, this`tags
      ensures registered == Without(old(registered), C.Holder(old(registered), key))
      ensures Tags() == C.DropTags(old(Tags()), C.Holder(old(registered), key))
      ensures deleted <==> C.Holder(old(registered), key) != {}
    {
      I.FindKeySound(registered, key);
      var i := 0;
      while i < |registered| && registered[i].key != key
        invariant i <= |registered|
        invariant C.FindKey(registered, key) == C.FindKey(registered[i..], key)
      {
        assert registered[i..][1..] == registered[i + 1..];
        i := i + 1;
      }
      if i == |registered| {
        WithoutNone(registered, {});
        assert tags == C.DropTags(Tags(), {}).live;
        return false;
      }
      var s := registered[i];
      DistinctStubs(registered);
      EraseIsWithout(registered, i);
      registered := registered[..i] + registered[i + 1..];
      EraseTagOf(s);
      return true;
    }

    /** Erases a list position, and the tag of the stub that stood there. */
    method EraseAt(i: nat)
      requires i < |registered| && I.Injective(tags)
      modifies this`registered, this`tags
      ensures registered == old(registered[..i] + registered[i + 1..]) && I.Injective(tags)
      ensures Tags() == C.DropTags(old(Tags()), {old(registered[i])})
    {
      EraseTagOf(registered[i]);
      registered := registered[..i] + registered[i + 1..];
    }

    /** Erases from the list while walking it. */
    method DeleteStubsOf(service: string, device: string) returns (deleted: bool)
      requires I.Injective(tags)
      modifies this`registered, this`tags
      ensures registered == Without(old(registered), C.OfService(old(registered), service, device))
      ensures Tags() == C.DropTags(old(Tags()), C.OfService(old(registered), service, device))
      ensures deleted <==> C.OfService(old(registered), service, device) != {}
    {
      hide C.OfService, C.DropTags, I.Injective, Without;
      ghost var reg := registered;
      ghost var all := C.OfService(reg, service, device);
      ghost var kept: seq<Stub>, gone: set<Stub>, k := [], {}, 0;
      DropNone(Tags());
      WalkStart(reg, service, device, all);
      var i, count := 0, 0;
      while i < |registered|
        invariant 0 <= k <= |reg| && i == |kept|
        invariant kept == Without(reg[..k], all) && gone == C.OfService(reg[..k], service, device)
        invariant registered == kept + reg[k..]
        invariant Tags() == C.DropTags(old(Tags()), gone) && I.Injective(tags)
        invariant count == 0 <==> gone == {}
        decreases |reg| - k
      {
        WalkStep(reg, k, service, device, all);
        var s := registered[i];
        if C.SameService(s, service, device) {
          DropTwice(old(Tags()), gone, {s});
          EraseAt(i);
          gone, count := gone + {s}, count + 1;
          assert registered == kept + reg[k + 1..];
        } else {
          kept, i := kept + [s], i + 1;
          assert registered == kept + reg[k + 1..];
        }
        k := k + 1;
      }
      assert reg[..k] == reg && kept + [] == kept;
      return count != 0;
    }

    method FindStubsOf(service: string, device: string) returns (found: seq<Stub>)
      requires I.KeysUnique(registered)
      ensures forall s :: s in found <==> s in C.OfService(registered, service, device)
      ensures forall j, k :: 0 <= j < k < |found| ==> found[j] != found[k]
    {
      DistinctStubs(registered);
      found := [];
      for i := 0 to |registered|
        invariant forall s :: s in found <==> s in C.OfService(registered[..i], service, device)
        invariant forall j, k :: 0 <= j < k < |found| ==> found[j] != found[k]
      {
        assert registered[i] !in registered[..i];
        assert registered[i] !in C.OfService(registered[..i], service, device);
        if C.SameService(registered[i], service, device) {
          found := found + [registered[i]];
        }
      }
      assert registered[..|registered|] == registered;
    }

    method FindServicesByDeviceID(device: string) returns (names: set<string>)
      ensures names == set s | s in C.OfDevice(registered, device) :: s.key.service
    {
      names := {};
      for i := 0 to |registered|
        invariant names == set s | s in C.OfDevice(registered[..i], device) :: s.key.service
      {
        if registered[i].key.device == device {
          names := names + {registered[i].key.service};
        }
        assert registered[..i + 1] == registered[..i] + [registered[i]];
      }
      assert registered[..|registered|] == registered;
    }

    // ----- the callers of MakeRemoteBinder

    /** A caller joins the negotiation of a registered stub under its sequence number. */
    method ShareStub(id: nat, s: Stub)
      modifies this`calls
      ensures Is(C.JoinCall(old(Client()), id, s))
    {
      calls := calls[id := Call(s, if s in seqNums then seqNums[s] else 0, false, 0, Invoking)];
    }

    /** A caller registers a new stub and gives it the next sequence number. */
    method RegisterNewStub(id: nat, s: Stub)
      modifies this`nextStub, this`registered, this`seqNumber, this`seqNums, this`calls
      ensures nextStub == old(nextStub) + 1 && registered == old(registered) + [s]
      ensures seqNumber == NextSeq(old(seqNumber)) && seqNums == old(seqNums)[s := seqNumber]
      ensures calls == old(calls)[id := Call(s, seqNumber, true, 0, Invoking)]
    {
      var n := NextSeq(seqNumber);
      nextStub, registered, seqNumber, seqNums, calls :=
        nextStub + 1, registered + [s], n, seqNums[s := n], calls[id := Call(s, n, true, 0, Invoking)];
    }

    method EnterNewStub(id: nat, s: Stub)
      modifies this
      ensures Is(C.NewCall(old(Client()), id, s, NextSeq(old(seqNumber))))
    {
      RegisterNewStub(id, s);
    }

    method MakeRemoteBinder(id: nat, key: StubKey, binderObject: int)
      requires id !in calls
      modifies this
      ensures Is(C.BeginCall(old(Client()), id, key, binderObject))
    {
      hide C.BeginCall, C.JoinCall, C.NewCall;
      BeginSplit(Client(), id, key, binderObject);
      if IllegalDevice(key.device) || |key.service| == 0 {
        return;
      }
      var found := FindRegistered(key);
      if found.Some? {
        ShareStub(id, found.value);
      } else {
        EnterNewStub(id, Stub(nextStub, key, FromInt32(binderObject)));
      }
    }

    method SendEntryToRemote(s: Stub, seqNum: nat, env: C.SendEnv) returns (sent: Option<Packet>)
      requires I.Injective(tags)
      modifies this`tags, this`stubTagNum, this`issued, this`tagOwner
      ensures Tags() == C.TagsAfterSend(old(Tags()), s, env)
      ensures sent == C.EntrySent(old(Tags()), s, seqNum, env)
    {
      if IllegalDevice(s.key.device) || IllegalDevice(env.localId) {
        return None;
      }
      var index := ParseU64(s.key.service);
      if index.None? {
        return None;
      }
      var tag := AddStubByTag(s);
      var message := C.RequestMessage(s, index.value, seqNum, tag, env);
      if !env.delivered {
        return None;
      }
      return Some(Packet(CStr(s.key.device), message));
    }

    /** Attaches a new lock under the number and sends; takes the lock off again when the
        send fails. */
    method AttachAndSend(s: Stub, seqNum: nat, lock: Lock, env: C.SendEnv) returns (sent: Option<Packet>)
      requires I.Injective(tags) && seqNum !in threadLocks
      modifies this`threadLocks, this`tags, this`stubTagNum, this`issued, this`tagOwner
      ensures sent == C.EntrySent(old(Tags()), s, seqNum, env)
      ensures Tags() == C.TagsAfterSend(old(Tags()), s, env)
      ensures threadLocks == if sent.Some? then old(threadLocks)[seqNum := lock] else old(threadLocks)
    {
      hide I.Injective, C.TagsAfterSend, C.AddTag, C.EntrySent;
      threadLocks := threadLocks[seqNum := lock];
      sent := SendEntryToRemote(s, seqNum, env);
      if sent.None? {
        threadLocks := threadLocks - {seqNum};
      }
    }

    /** Sets the status before sending, and takes it back when the number is taken or the
        send fails. */
    method RequestFor(id: nat, env: C.SendEnv) returns (sent: Option<Packet>)
      requires I.Injective(tags) && id in calls
      modifies this`status, this`nextLock, this`threadLocks, this`calls, this`tags, this`stubTagNum, this`issued,
        this`tagOwner
      ensures var call := old(calls[id]);
        var busy, lock := call.seqNum in old(threadLocks), Lock(old(nextLock), call.stub.key.device, id);
        && sent == (if busy then None else C.EntrySent(old(Tags()), call.stub, call.seqNum, env))
        && Tags() == (if busy then old(Tags()) else C.TagsAfterSend(old(Tags()), call.stub, env))
        && status == old(status)[call.stub := if sent.Some? then NegoDoing else NegoInit]
        && nextLock == old(nextLock) + 1
        && threadLocks == (if sent.Some? then old(threadLocks)[call.seqNum := lock] else old(threadLocks))
        && calls == old(calls)[id :=
             if sent.Some? then call.(pc := Waiting(lock))
             else AfterInvoke(call, if busy then DBINDER_MAKE_THREADLOCK_FAILED
                                    else DBINDER_SEND_MESSAGE_FAILED)]
    {
      hide I.Injective, C.TagsAfterSend, C.EntrySent, AfterInvoke;
      var call := calls[id];
      var lock := Lock(nextLock, call.stub.key.device, id);
      var s := call.stub;
      status, nextLock := status[s := NegoDoing], nextLock + 1;
      if call.seqNum in threadLocks {
        sent, call := None, AfterInvoke(call, DBINDER_MAKE_THREADLOCK_FAILED);
      } else {
        sent := AttachAndSend(s, call.seqNum, lock, env);
        call := if sent.Some? then call.(pc := Waiting(lock)) else AfterInvoke(call, DBINDER_SEND_MESSAGE_FAILED);
      }
      calls := calls[id := call];
      if sent.None? {
        status := status[s := NegoInit];
      }
    }

    method InvokerRemoteDBinderWhenRequest(id: nat, env: C.SendEnv) returns (sent: Option<Packet>)
      requires I.Injective(tags) && id in calls
      modifies this
      ensures Is(C.Request(old(Client()), id, env))
      ensures sent == C.RequestSends(old(Client()), id, env)
    {
      hide I.Injective, C.TagsAfterSend, AfterInvoke, C.AddTag, C.MovesOnly, C.Succeeded, C.SameStubs;
      sent := RequestFor(id, env);
    }

    /** A caller that finds the negotiation under way starts polling for its lock. */
    method StartPolling(id: nat)
      requires id in calls
      modifies this`calls
      ensures Is(C.SetCall(old(Client()), id, old(calls[id]).(pc := Polling(0))))
    {
      calls := calls[id := calls[id].(pc := Polling(0))];
    }

    method InvokerRemoteDBinder(id: nat, env: C.SendEnv) returns (sent: Option<Packet>)
      requires Valid() && id in calls && calls[id].pc == Invoking
      modifies this
      ensures Is(C.InvokeCall(old(Client()), id, env))
      ensures sent == C.InvokeSends(old(Client()), id, env)
    {
      hide C.InvokeCall, C.InvokeSends, C.Request, C.SetCall, Is;
      RequestSplit(Client(), id, env);
      var call := calls[id];
      if call.isNew || (if call.stub in status then status[call.stub] else NegoInit) == NegoInit {
        sent := InvokerRemoteDBinderWhenRequest(id, env);
      } else {
        StartPolling(id);
        sent := None;
      }
    }

    /** One turn of the polling loop of a caller that shares a negotiation. */
    method InvokerRemoteDBinderWhenWaitRsp(id: nat)
      requires id in calls && calls[id].pc.Polling?
      modifies this
      ensures Is(C.PollCall(old(Client()), id))
    {
      hide C.SameStubs, C.SameOwners, C.RegistersOnlyNext, C.MovesOnly, C.Succeeded;
      var call := calls[id];
      if call.stub in status && status[call.stub] == NegoFinished {
        call := AfterInvoke(call, DBINDER_OK);
      } else if call.seqNum in threadLocks {
        call := call.(pc := Waiting(threadLocks[call.seqNum]));
      } else {
        var count := call.pc.count + 1;
        call := if count < THREAD_LOCK_RETRY_TIMES then call.(pc := Polling(count))
                else AfterInvoke(call, DBINDER_MAKE_THREADLOCK_FAILED);
      }
      calls := calls[id := call];
    }

    method WaitTimedOut(id: nat)
      requires C.MayTimeOut(Client(), id)
      modifies this
      ensures Is(C.TimeoutCall(old(Client()), id))
    {
      hide C.SameStubs, C.SameOwners, C.RegistersOnlyNext, C.MovesOnly, C.Succeeded;
      var call := calls[id];
      status := status[call.stub := NegoInit];
      threadLocks := threadLocks - {call.seqNum};
      ready := ready - {call.pc.lock};
      calls := calls[id := AfterInvoke(call, DBINDER_WAIT_REPLY_TIMEOUT)];
    }

    method WaitEnded(id: nat)
      requires C.MayWake(Client(), id)
      modifies this
      ensures Is(C.WokenCall(old(Client()), id))
    {
      hide C.SameStubs, C.SameOwners, C.RegistersOnlyNext, C.MovesOnly, C.Succeeded;
      var call := calls[id];
      if call.stub !in sessions {
        status := status[call.stub := NegoInit];
        calls := calls[id := AfterInvoke(call, DBINDER_QUERY_REPLY_SESSION_FAILED)];
      } else {
        status := status[call.stub := NegoFinished];
        calls := calls[id := AfterInvoke(call, DBINDER_OK)];
      }
    }

    // ----- the clean-up of a failed call: no lock is held from one of these to the next

    method TestReferences(id: nat, refsLow: bool)
      requires id in calls && calls[id].pc.Failed?
      modifies this
      ensures Is(C.TestCall(old(Client()), id, refsLow))
    {
      var call := calls[id];
      calls := calls[id := call.(pc := if refsLow then Deleting(call.pc.code) else Done(call.pc.code))];
    }

    method DeleteOfFailedCall(id: nat)
      requires Valid() && id in calls && calls[id].pc.Deleting?
      modifies this
      ensures Is(C.DeleteCall(old(Client()), id))
    {
      hide C.SameOwners, C.RegistersOnlyNext, C.MovesOnly, C.Succeeded, C.Holder, C.DropTags, Without,
        I.KeysUnique, I.Injective;
      var _ := DeleteDBinderStub(calls[id].stub.key);
      calls := calls[id := calls[id].(pc := Detaching(calls[id].pc.code))];
    }

    method DetachOfFailedCall(id: nat)
      requires id in calls && calls[id].pc.Detaching?
      modifies this
      ensures Is(C.DetachCall(old(Client()), id))
    {
      hide C.MovesOnly, C.Succeeded;
      var call := calls[id];
      sessions, cleaned := sessions - {call.stub}, cleaned + {call.stub};
      calls := calls[id := call.(pc := Done(call.pc.code))];
    }

    // ----- messages

    method QueryStubPtr(tag: nat) returns (r: Option<Stub>)
      ensures r == C.Addressee(Client(), tag)
    {
      if tag !in tags {
        return None;
      }
      var found := HasDBinderStub(tags[tag]);
      return if found then Some(tags[tag]) else None;
    }

    /** An older session with other contents is detached first; attaching never overwrites. */
    method MakeSessionByReplyMessage(m: Message)
      modifies this`sessions
      ensures sessions == C.MakeSession(old(Client()), m).sessions
    {
      var addressee := QueryStubPtr(m.stub);
      if addressee.None? || !C.ValidSessionName(m) || m.stubIndex == 0 {
        return;
      }
      var s, session := addressee.value, C.SessionOf(m);
      if s in sessions {
        if C.SameSession(sessions[s], session) {
          return;
        }
        if sessions[s].seqNumber <= session.seqNumber {
          sessions := sessions - {s};
        }
      }
      if s !in sessions {
        sessions := sessions[s := session];
      }
      assert s in old(sessions) && old(sessions[s]).seqNumber <= session.seqNumber ==>
        sessions == (old(sessions) - {s})[s := session];
    }

    method WakeupThreadByStub(seqNum: nat)
      modifies this`ready
      ensures ready == if seqNum in threadLocks then old(ready) + {threadLocks[seqNum]} else old(ready)
    {
      if seqNum in threadLocks {
        ready := ready + {threadLocks[seqNum]};
      }
    }

    method OnRemoteReplyMessage(m: Message)
      modifies this
      ensures Is(C.OnReply(old(Client()), m))
    {
      hide C.MakeSession;
      OnlySessions(Client(), m);
      MakeSessionByReplyMessage(m);
      WakeupThreadByStub(m.seqNumber);
      threadLocks := threadLocks - {m.seqNumber};
    }

    method OnRemoteErrorMessage(m: Message)
      modifies this
      ensures Is(C.OnError(old(Client()), m))
    {
      WakeupThreadByStub(m.seqNumber);
      threadLocks := threadLocks - {m.seqNumber};
    }

    /** Erases the waiters of a network while walking the map. */
    method EraseLocksOf(networkId: string) returns (erased: seq<Lock>)
      modifies this`threadLocks
      ensures threadLocks == map n | n in old(threadLocks) && old(threadLocks)[n].networkId != networkId
                                 :: old(threadLocks)[n]
      ensures forall l :: l in erased <==> l in old(threadLocks).Values && l.networkId == networkId
    {
      erased := [];
      var rest := threadLocks.Keys;
      while rest != {}
        invariant rest <= threadLocks.Keys <= old(threadLocks).Keys
        invariant forall n :: n in threadLocks ==> threadLocks[n] == old(threadLocks)[n]
        invariant forall n :: n in old(threadLocks) && n !in rest ==>
          (n in threadLocks <==> old(threadLocks)[n].networkId != networkId)
        invariant forall n :: n in old(threadLocks) && n in rest ==> n in threadLocks
        invariant forall n :: n in old(threadLocks) && n !in threadLocks ==> old(threadLocks)[n] in erased
        invariant forall l :: l in erased ==> l in old(threadLocks).Values && l.networkId == networkId
        decreases |rest|
      {
        var n :| n in rest;
        if threadLocks[n].networkId == networkId {
          erased := erased + [threadLocks[n]];
          threadLocks := threadLocks - {n};
        }
        rest := rest - {n};
      }
    }

    method ProcessOnSessionClosed(networkId: string)
      modifies this
      ensures Is(C.CloseSession(old(Client()), networkId))
    {
      var erased := EraseLocksOf(networkId);
      UnreadyAll(erased);
    }

    method UnreadyAll(locks: seq<Lock>)
      modifies this`ready
      ensures ready == set l | l in old(ready) && l !in locks
    {
      for i := 0 to |locks|
        invariant ready == set l | l in old(ready) && l !in locks[..i]
      {
        ready := ready - {locks[i]};
        assert locks[..i + 1] == locks[..i] + [locks[i]];
      }
      assert locks[..|locks|] == locks;
    }

    // ----- client callbacks

    method DBinderClearServiceState(s: Stub, local: bool)
      modifies this
      ensures Is(if local then C.SetStatus(old(Client()), s, NegoInit) else old(Client()))
    {
      if local {
        status := status[s := NegoInit];
      }
    }

    /** insert and erase on the two maps, with the early returns in between. */
    method AddDbinderDeathRecipient(s: Stub, proxy: nat, death: nat, accepted: bool) returns (ret: int)
      modifies this
      ensures Is(C.AttachRecipient(old(Client()), s, proxy, death, accepted))
      ensures old(noticeProxy.Keys == deathRecipients.Keys) ==>
        (ret == ERR_NONE <==> accepted && proxy !in old(deathRecipients))
      ensures ret == ERR_NONE ==>
        deathRecipients == old(deathRecipients)[proxy := death] && noticeProxy == old(noticeProxy)[proxy := s]
    {
      if !accepted || proxy in deathRecipients {
        return DBINDER_SERVICE_ADD_DEATH_ERR;
      }
      deathRecipients := deathRecipients[proxy := death];
      if proxy in noticeProxy {
        return DBINDER_SERVICE_ADD_DEATH_ERR;
      }
      noticeProxy := noticeProxy[proxy := s];
      return ERR_NONE;
    }

    method RemoveDbinderDeathRecipient(proxy: nat) returns (ret: int)
      modifies this
      ensures Is(C.DetachRecipient(old(Client()), proxy))
      ensures old(noticeProxy.Keys == deathRecipients.Keys) ==>
        (ret == ERR_NONE <==> proxy in old(deathRecipients))
      ensures ret == ERR_NONE ==>
        deathRecipients == old(deathRecipients) - {proxy} && noticeProxy == old(noticeProxy) - {proxy}
    {
      if proxy !in deathRecipients {
        assert deathRecipients - {proxy} == deathRecipients;
        return DBINDER_SERVICE_REMOVE_DEATH_ERR;
      }
      deathRecipients := deathRecipients - {proxy};
      if proxy !in noticeProxy {
        assert noticeProxy - {proxy} == noticeProxy;
        return DBINDER_SERVICE_REMOVE_DEATH_ERR;
      }
      noticeProxy := noticeProxy - {proxy};
      return ERR_NONE;
    }

    /** A client died: the same two erasures, the second only after the first. */
    method OnRemoteDied(proxy: nat)
      modifies this
      ensures Is(C.DetachRecipient(old(Client()), proxy))
    {
      if proxy !in deathRecipients {
        assert deathRecipients - {proxy} == deathRecipients;
        return;
      }
      deathRecipients := deathRecipients - {proxy};
      noticeProxy := noticeProxy - {proxy};
    }

    // ----- death notices

    /** Erases the callback entries of one stub while walking the map, and their recipients. */
    method EraseProxiesOf(s: Stub)
      modifies this`noticeProxy, this`deathRecipients
      ensures noticeProxy == KeptProxies(old(noticeProxy), {s})
      ensures deathRecipients == KeptRecipients(old(deathRecipients), old(noticeProxy), {s})
    {
      hide KeptProxies, KeptRecipients;
      ghost var gone: set<nat> := {};
      var rest := noticeProxy.Keys;
      while rest != {}
        invariant rest <= noticeProxy.Keys
        invariant noticeProxy == old(noticeProxy) - gone && deathRecipients == old(deathRecipients) - gone
        invariant gone == set p | p in old(noticeProxy) && p !in rest && old(noticeProxy)[p] == s
        decreases |rest|
      {
        var p :| p in rest;
        if noticeProxy[p] == s {
          EraseOneMore(old(noticeProxy), gone, p);
          EraseOneMore(old(deathRecipients), gone, p);
          deathRecipients := deathRecipients - {p};
          noticeProxy := noticeProxy - {p};
          gone := gone + {p};
        }
        rest := rest - {p};
      }
      EraseIsKept(old(deathRecipients), old(noticeProxy), s, gone);
    }

    method ProcessCallbackProxy(stubs: seq<Stub>, ghost gone: set<Stub>)
      requires gone == set s | s in stubs
      modifies this`noticeProxy, this`deathRecipients
      ensures noticeProxy == KeptProxies(old(noticeProxy), gone)
      ensures deathRecipients == KeptRecipients(old(deathRecipients), old(noticeProxy), gone)
    {
      hide KeptProxies, KeptRecipients;
      KeptNone(deathRecipients, noticeProxy);
      ghost var walked: set<Stub> := {};
      for i := 0 to |stubs|
        invariant walked == set s | s in stubs[..i]
        invariant noticeProxy == KeptProxies(old(noticeProxy), walked)
        invariant deathRecipients == KeptRecipients(old(deathRecipients), old(noticeProxy), walked)
      {
        KeptTwice(old(deathRecipients), old(noticeProxy), walked, {stubs[i]});
        EraseProxiesOf(stubs[i]);
        walked := walked + {stubs[i]};
        assert stubs[..i + 1] == stubs[..i] + [stubs[i]];
      }
      assert stubs[..|stubs|] == stubs;
    }

    method DetachSessionObjects(stubs: seq<Stub>, ghost gone: set<Stub>) returns (ok: bool)
      requires gone == set s | s in stubs
      requires forall j, k :: 0 <= j < k < |stubs| ==> stubs[j] != stubs[k]
      modifies this`sessions
      ensures sessions == old(sessions) - gone
      ensures ok <==> gone <= old(sessions).Keys
    {
      ok := true;
      for i := 0 to |stubs|
        invariant sessions == old(sessions) - (set s | s in stubs[..i])
        invariant ok <==> forall s :: s in stubs[..i] ==> s in old(sessions)
      {
        if stubs[i] in sessions {
          sessions := sessions - {stubs[i]};
        } else {
          ok := false;
        }
        assert stubs[..i + 1] == stubs[..i] + [stubs[i]];
      }
      assert stubs[..|stubs|] == stubs;
    }

    /** Forgets the stubs of one service; the result tells whether all of them had sessions. */
    method NoticeCallbackProxy(service: string, device: string) returns (ok: bool)
      requires Valid()
      modifies this
      ensures Is(C.Purge(old(Client()), C.OfService(old(registered), service, device)))
      ensures ok <==> C.OfService(old(registered), service, device) <= old(sessions).Keys
    {
      hide C.Purge, C.OfService, C.DropTags, Without, I.Injective, I.KeysUnique, KeptProxies, KeptRecipients;
      ghost var gone := C.OfService(registered, service, device);
      PurgeFields(Client(), gone);
      var stubs := FindStubsOf(service, device);
      assert gone == set s | s in stubs;
      ok := ForgetStubs(service, device, stubs, gone);
    }

    lemma ForgetNone()
      ensures Without(registered, {}) == registered && C.DropTags(Tags(), {}) == Tags() && sessions - {} == sessions
      ensures KeptProxies(noticeProxy, {}) == noticeProxy && noticed + {} == noticed
      ensures KeptRecipients(deathRecipients, noticeProxy, {}) == deathRecipients
    {
      WithoutNone(registered, {});
      DropNone(Tags());
      KeptNone(deathRecipients, noticeProxy);
    }

    method ForgetStubs(service: string, device: string, stubs: seq<Stub>, ghost gone: set<Stub>) returns (ok: bool)
      requires Valid()
      requires gone == C.OfService(registered, service, device)
      requires gone == set s | s in stubs
      requires forall j, k :: 0 <= j < k < |stubs| ==> stubs[j] != stubs[k]
      modifies this`sessions, this`registered, this`tags, this`noticeProxy, this`deathRecipients, this`noticed
      ensures registered == Without(old(registered), gone) && Tags() == C.DropTags(old(Tags()), gone)
      ensures sessions == old(sessions) - gone && noticed == old(noticed) + gone
      ensures noticeProxy == KeptProxies(old(noticeProxy), gone)
      ensures deathRecipients == KeptRecipients(old(deathRecipients), old(noticeProxy), gone)
      ensures ok <==> gone <= old(sessions).Keys
    {
      hide C.OfService, C.DropTags, Without, I.Injective, I.KeysUnique, KeptProxies, KeptRecipients;
      if |stubs| == 0 {
        assert gone == {};
        ForgetNone();
        return true;
      }
      assert stubs[0] in gone;
      ok := DetachSessionObjects(stubs, gone);
      var deleted := DeleteStubsOf(service, device);
      if !deleted {
        ok := false;
      }
      ProcessCallbackProxy(stubs, gone);
      noticed := noticed + gone;
    }

    method NoticeServiceDie(service: string, device: string) returns (ret: int)
      requires Valid()
      modifies this
      ensures Is(C.ServiceDies(old(Client()), service, device))
      ensures ret == (if |service| == 0 || IllegalDevice(device) then DBINDER_SERVICE_INVALID_DATA_ERR
                      else if C.OfService(old(registered), service, device) <= old(sessions).Keys then ERR_NONE
                      else DBINDER_SERVICE_NOTICE_DIE_ERR)
    {
      hide C.Purge, C.OfService, I.Injective, I.KeysUnique;
      if |service| == 0 || IllegalDevice(device) {
        return DBINDER_SERVICE_INVALID_DATA_ERR;
      }
      var ok := NoticeCallbackProxy(service, device);
      return if ok then ERR_NONE else DBINDER_SERVICE_NOTICE_DIE_ERR;
    }

    /** With its guards passed, forgets every stub of the device, service by service; the
        result is ERR_NONE exactly when all of them had sessions. */
    method NoticeDeviceDie(device: string, listening: bool) returns (ret: int)
      requires Valid() && (forall s :: s in registered ==> |s.key.service| > 0)
      modifies this
      ensures Is(C.DeviceDies(old(Client()), device, listening))
      ensures IllegalDevice(device) ==> ret == DBINDER_SERVICE_INVALID_DATA_ERR
      ensures !IllegalDevice(device) && !listening ==> ret == DBINDER_SERVICE_NOTICE_DIE_ERR
      ensures !IllegalDevice(device) && listening ==>
        (ret == ERR_NONE <==> C.OfDevice(old(registered), device) <= old(sessions).Keys)
    {
      hide Is, C.Purge;
      if IllegalDevice(device) {
        SameClient();
        return DBINDER_SERVICE_INVALID_DATA_ERR;
      }
      if !listening {
        SameClient();
        return DBINDER_SERVICE_NOTICE_DIE_ERR;
      }
      ret := ForgetDevice(device);
    }

    lemma SameClient()
      ensures Is(Client())
    {
    }

    method ForgetDevice(device: string) returns (ret: int)
      requires Valid() && (forall s :: s in registered ==> |s.key.service| > 0) && !IllegalDevice(device)
      modifies this
      ensures Is(C.Purge(old(Client()), C.OfDevice(old(registered), device)))
      ensures ret == ERR_NONE <==> C.OfDevice(old(registered), device) <= old(sessions).Keys
    {
      hide Is, C.Purge, C.OfService, OfServices, C.ServiceDies, I.KeysUnique, I.Injective;
      ghost var c := Client();
      SameClient();
      ServicesStart(c, device);
      var names := FindServicesByDeviceID(device);
      var rest := names;
      ret := ERR_NONE;
      ghost var done: set<string> := {};
      while rest != {}
        invariant done == names - rest && rest <= names
        invariant Is(C.Purge(c, OfServices(c.registered, done, device))) && Usable(Client())
        invariant 0 <= ret && (ret == 0 <==> OfServices(c.registered, done, device) <= c.sessions.Keys)
        decreases |rest|
      {
        ghost var gone := OfServices(c.registered, done, device);
        IsClient(C.Purge(c, gone));
        var name :| name in rest;
        ServiceStep(c, done, name, device);
        PurgeUsable(Client(), C.OfService(c.registered, name, device));
        AllServices(c.registered, device, names);
        ServicePurge(Client(), name, device);
        var err := NoticeServiceDie(name, device);
        ret := ret + err;
        rest, done := rest - {name}, done + {name};
        IsClient(C.Purge(c, OfServices(c.registered, done, device)));
      }
      assert done == names;
      AllServices(c.registered, device, names);
    }

    // ----- every operation is a step

    /** The operations of a caller inside MakeRemoteBinder, each as its step of the machine. */
    method CallerStep(e: C.Event)
      requires I.Inv(Client()) && I.OfCaller(e) && Possible(Client(), e)
      modifies this
      ensures C.Next(old(Client()), e, Client()) && I.Inv(Client())
    {
      hide Is, I.Inv, C.BeginCall, C.InvokeCall, C.PollCall, C.TimeoutCall, C.WokenCall, C.TestCall, C.DeleteCall,
        C.DetachCall, C.LastHolder,
        C.SameStubs, C.SameOwners, C.RegistersOnlyNext, C.MovesOnly, C.Succeeded;
      ghost var c := Client();
      InvariantSuffices();
      match e {
        case Begin(id, key, binderObject) =>
          MakeRemoteBinder(id, key, binderObject);
          IsClient(C.BeginCall(c, id, key, binderObject));
        case Invoke(id, env) =>
          var _ := InvokerRemoteDBinder(id, env);
          IsClient(C.InvokeCall(c, id, env));
        case Poll(id) =>
          InvokerRemoteDBinderWhenWaitRsp(id);
          IsClient(C.PollCall(c, id));
        case Timeout(id) =>
          WaitTimedOut(id);
          IsClient(C.TimeoutCall(c, id));
        case Woken(id) =>
          WaitEnded(id);
          IsClient(C.WokenCall(c, id));
        case Test(id, refsLow) =>
          TestReferences(id, refsLow);
          IsClient(C.TestCall(c, id, refsLow));
        case Delete(id) =>
          DeleteOfFailedCall(id);
          IsClient(C.DeleteCall(c, id));
        case Detach(id) =>
          DetachOfFailedCall(id);
          IsClient(C.DetachCall(c, id));
      }
      I.StepKeepsInv(c, e, Client());
    }

    /** Messages, notices and client callbacks, each as its step of the machine. */
    method OutsideStep(e: C.Event)
      requires I.Inv(Client()) && !I.OfCaller(e) && Possible(Client(), e)
      modifies this
      ensures C.Next(old(Client()), e, Client()) && I.Inv(Client())
    {
      hide Is, I.Inv, C.OnReply, C.OnError, C.CloseSession, C.ServiceDies, C.DeviceDies, C.SetStatus,
        C.AttachRecipient, C.DetachRecipient, C.SameStubs, C.SameOwners, C.RegistersOnlyNext;
      ghost var c := Client();
      InvariantSuffices();
      match e {
        case Reply(m) =>
          OnRemoteReplyMessage(m);
          IsClient(C.OnReply(c, m));
        case Error(m) =>
          OnRemoteErrorMessage(m);
          IsClient(C.OnError(c, m));
        case SessionClosed(networkId) =>
          ProcessOnSessionClosed(networkId);
          IsClient(C.CloseSession(c, networkId));
        case ServiceDied(service, device) =>
          var _ := NoticeServiceDie(service, device);
          IsClient(C.ServiceDies(c, service, device));
        case DeviceDied(device, listening) =>
          var _ := NoticeDeviceDie(device, listening);
          IsClient(C.DeviceDies(c, device, listening));
        case ClearState(s) =>
          DBinderClearServiceState(s, true);
          IsClient(C.SetStatus(c, s, NegoInit));
        case AddRecipient(s, proxy, death, accepted) =>
          var _ := AddDbinderDeathRecipient(s, proxy, death, accepted);
          IsClient(C.AttachRecipient(c, s, proxy, death, accepted));
        case RemoveRecipient(proxy) =>
          var _ := RemoveDbinderDeathRecipient(proxy);
          IsClient(C.DetachRecipient(c, proxy));
        case ProxyDied(proxy) =>
          OnRemoteDied(proxy);
          IsClient(C.DetachRecipient(c, proxy));
      }
      I.StepKeepsInv(c, e, Client());
    }
  }

  /** The step is possible in this state. */
  ghost predicate Possible(c: C.Client, e: C.Event) {
    exists d :: C.Next(c, e, d)
  }
}
