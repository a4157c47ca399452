/** The global lists of the small DBinder client and the functions that search and change
    them, against the lists of the state machine. */
module SmallDBinderLists {
  import opened Sequences
  import T = DBinderTypes
  import C = DBinderClient
  import opened SmallDBinder

  class GlobalLists {
    var dBinderStubs: seq<Stub>
    var sessionInfos: seq<SessionInfo>
    var threadLocks: seq<Node>

    constructor ()
      ensures dBinderStubs == [] && sessionInfos == [] && threadLocks == []
    {
      dBinderStubs, sessionInfos, threadLocks := [], [], [];
    }

    method QueryDBinderStub(service: string, device: string, binderObject: nat) returns (r: T.Option<Stub>)
      ensures r == FindStub(dBinderStubs, service, device, binderObject)
      ensures r.Some? ==> r.value in dBinderStubs && r.value.service == service && r.value.device == device &&
                          r.value.binderObject == binderObject
      ensures r.None? ==> forall stub :: stub in dBinderStubs ==>
        stub.service != service || stub.device != device || stub.binderObject != binderObject
    {
      for i := 0 to |dBinderStubs|
        invariant FindStub(dBinderStubs, service, device, binderObject) ==
                  FindStub(dBinderStubs[i..], service, device, binderObject)
        invariant forall j :: 0 <= j < i ==> !SameStub(dBinderStubs[j], service, device, binderObject)
      {
        if SameStub(dBinderStubs[i], service, device, binderObject) {
          return T.Some(dBinderStubs[i]);
        }
        assert dBinderStubs[i..][1..] == dBinderStubs[i + 1..];
      }
      return T.None;
    }

    method HasDBinderStub(binderObject: nat) returns (found: bool)
      ensures found <==> HasBinderObject(dBinderStubs, binderObject)
    {
      for i := 0 to |dBinderStubs|
        invariant forall j :: 0 <= j < i ==> dBinderStubs[j].binderObject != binderObject
      {
        if dBinderStubs[i].binderObject == binderObject {
          return true;
        }
      }
      return false;
    }

    method QuerySessionObject(cookie: nat) returns (r: T.Option<SessionInfo>)
      ensures r.Some? <==> HasSession(sessionInfos, cookie)
      ensures r.Some? ==> r.value in sessionInfos && r.value.stub == cookie
    {
      for i := 0 to |sessionInfos|
        invariant forall j :: 0 <= j < i ==> sessionInfos[j].stub != cookie
      {
        if sessionInfos[i].stub == cookie {
          return T.Some(sessionInfos[i]);
        }
      }
      return T.None;
    }

    method QueryThreadLockInfo(seqNumber: nat) returns (r: T.Option<Node>)
      ensures r == FindNode(threadLocks, seqNumber)
    {
      for i := 0 to |threadLocks|
        invariant FindNode(threadLocks, seqNumber) == FindNode(threadLocks[i..], seqNumber)
      {
        if threadLocks[i].seqNumber == seqNumber {
          return T.Some(threadLocks[i]);
        }
        assert threadLocks[i..][1..] == threadLocks[i + 1..];
      }
      return T.None;
    }

    method IsValidReplyMessage(m: T.Message) returns (valid: bool)
      ensures valid <==> HasBinderObject(dBinderStubs, m.binderObject) && !HasSession(sessionInfos, m.stub) &&
                         C.ValidSessionName(m)
    {
      var known := HasDBinderStub(m.binderObject);
      if !known {
        return false;
      }
      var session := QuerySessionObject(m.stub);
      if session.Some? {
        return false;
      }
      return C.ValidSessionName(m);
    }

    method MakeSessionByReplyMessage(m: T.Message, alloc: bool)
      modifies this`sessionInfos
      ensures sessionInfos == if alloc && Attaches(dBinderStubs, old(sessionInfos), m)
                              then [SessionOf(m)] + old(sessionInfos) else old(sessionInfos)
    {
      var valid := IsValidReplyMessage(m);
      if !valid || !alloc {
        return;
      }
      var session := SessionOf(m);
      if session.stubIndex == 0 {
        return;
      }
      sessionInfos := [session] + sessionInfos;
    }

    /** Takes the first session of a stub off the list. */
    method DetachSessionObject(cookie: nat)
      modifies this`sessionInfos
      ensures sessionInfos == DropSession(old(sessionInfos), cookie)
    {
      var i := 0;
      while i < |sessionInfos| && sessionInfos[i].stub != cookie
        invariant i <= |sessionInfos| && forall j :: 0 <= j < i ==> sessionInfos[j].stub != cookie
      {
        i := i + 1;
      }
      DropsFirst(sessionInfos, i, cookie);
      if i < |sessionInfos| {
        sessionInfos := sessionInfos[..i] + sessionInfos[i + 1..];
      }
    }

    method CleanUpFailedCall(stub: Stub)
      requires forall i, j :: 0 <= i < j < |dBinderStubs| ==> dBinderStubs[i] != dBinderStubs[j]
      modifies this`sessionInfos, this`dBinderStubs
      ensures sessionInfos == DropSession(old(sessionInfos), stub.cookie)
      ensures dBinderStubs == Without(old(dBinderStubs), {stub})
    {
      DetachSessionObject(stub.cookie);
      var i := 0;
      while i < |dBinderStubs| && dBinderStubs[i] != stub
        invariant i <= |dBinderStubs| && stub !in dBinderStubs[..i]
      {
        i := i + 1;
      }
      if i < |dBinderStubs| {
        EraseIsWithout(dBinderStubs, i);
        dBinderStubs := dBinderStubs[..i] + dBinderStubs[i + 1..];
      } else {
        WithoutNone(dBinderStubs, {stub});
      }
    }

    method AttachThreadLockInfo(node: Node)
      modifies this`threadLocks
      ensures threadLocks == [node] + old(threadLocks)
    {
      threadLocks := [node] + threadLocks;
    }

    method DetachThreadLockInfo(node: Node)
      requires node in threadLocks
      requires forall i, j :: 0 <= i < j < |threadLocks| ==> threadLocks[i] != threadLocks[j]
      modifies this`threadLocks
      ensures threadLocks == Without(old(threadLocks), {node})
    {
      var i := 0;
      while threadLocks[i] != node
        invariant i < |threadLocks| && node !in threadLocks[..i]
        decreases |threadLocks| - i
      {
        i := i + 1;
      }
      EraseIsWithout(threadLocks, i);
      threadLocks := threadLocks[..i] + threadLocks[i + 1..];
    }
  }

  /** Dropping a session removes the first one of the stub. */
  lemma {:induction false} DropsFirst(sessions: seq<SessionInfo>, i: nat, cookie: nat)
    requires i <= |sessions| && (forall j :: 0 <= j < i ==> sessions[j].stub != cookie)
    requires i < |sessions| ==> sessions[i].stub == cookie
    ensures DropSession(sessions, cookie) ==
      if i == |sessions| then sessions else sessions[..i] + sessions[i + 1..]
  {
    hide DropSession;
    DropUnfolds(sessions, cookie);
    if i == 0 {
      assert sessions != [] ==> sessions[..0] + sessions[1..] == sessions[1..];
    } else {
      var rest := sessions[1..];
      assert forall j :: 0 <= j < i - 1 ==> rest[j] == sessions[j + 1];
      DropsFirst(rest, i - 1, cookie);
      if i < |sessions| {
        assert sessions[..i] == [sessions[0]] + rest[..i - 1];
        assert sessions[i + 1..] == rest[i..];
      } else {
        assert sessions == [sessions[0]] + rest;
      }
    }
  }

  lemma DropUnfolds(sessions: seq<SessionInfo>, cookie: nat)
    ensures DropSession(sessions, cookie) ==
      if sessions == [] then []
      else if sessions[0].stub == cookie then sessions[1..]
      else [sessions[0]] + DropSession(sessions[1..], cookie)
  {
  }
}
