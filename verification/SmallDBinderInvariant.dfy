/** What every step of the small DBinder client keeps. */
module SmallDBinderInvariant {
  import opened Sequences
  import T = DBinderTypes
  import opened SmallDBinder

  // ----- waiter nodes

  /** The listed nodes are, each once, exactly the nodes of the callers that have one. */
  ghost predicate NodesInv(locks: seq<Node>, calls: map<nat, Call>, nextNode: nat) {
    && (forall i, j :: 0 <= i < j < |locks| ==> locks[i] != locks[j])
    && (forall node :: node in locks ==> node.id < nextNode && Owned(calls, node))
    && (forall id :: id in calls ==> Lists(locks, id, calls[id].pc))
  }

  ghost predicate Owned(calls: map<nat, Call>, node: Node) {
    node.owner in calls && NodeOf(calls[node.owner].pc) == T.Some(node)
  }

  ghost predicate Lists(locks: seq<Node>, id: nat, pc: Pc) {
    NodeOf(pc).Some? ==> NodeOf(pc).value.owner == id && NodeOf(pc).value in locks
  }

  /** A caller moves on with the node it has, or without one. */
  lemma NodesSame(locks: seq<Node>, calls: map<nat, Call>, nextNode: nat, id: nat, call: Call)
    requires NodesInv(locks, calls, nextNode)
    requires NodeOf(call.pc) == if id in calls then NodeOf(calls[id].pc) else T.None
    ensures NodesInv(locks, calls[id := call], nextNode)
  {
    forall node | node in locks ensures Owned(calls[id := call], node) {
      assert Owned(calls, node);
    }
    if id in calls {
      assert Lists(locks, id, calls[id].pc);
    }
  }

  lemma NodesAttach(locks: seq<Node>, calls: map<nat, Call>, nextNode: nat, id: nat, call: Call)
    requires NodesInv(locks, calls, nextNode) && id in calls && NodeOf(calls[id].pc) == T.None
    requires call.pc.Attached? && call.pc.node.id == nextNode && call.pc.node.owner == id
    ensures NodesInv([call.pc.node] + locks, calls[id := call], nextNode + 1)
  {
    forall node | node in locks ensures Owned(calls[id := call], node) {
      assert Owned(calls, node);
    }
    forall k | k in calls ensures Lists([call.pc.node] + locks, k, calls[id := call][k].pc) {
      assert Lists(locks, k, calls[k].pc);
    }
  }

  lemma NodesLeave(locks: seq<Node>, calls: map<nat, Call>, nextNode: nat, id: nat, call: Call)
    requires NodesInv(locks, calls, nextNode) && id in calls && NodeOf(calls[id].pc).Some?
    requires NodeOf(call.pc) == T.None
    ensures NodesInv(Without(locks, {NodeOf(calls[id].pc).value}), calls[id := call], nextNode)
  {
    var gone := NodeOf(calls[id].pc).value;
    var rest := Without(locks, {gone});
    WithoutDistinct(locks, {gone});
    WithoutMembers(locks, {gone});
    assert Lists(locks, id, calls[id].pc);
    forall node | node in rest ensures Owned(calls[id := call], node) {
      assert Owned(calls, node);
    }
    forall k | k in calls ensures Lists(rest, k, calls[id := call][k].pc) {
      assert Lists(locks, k, calls[k].pc);
    }
  }

  // ----- mutexes

  ghost predicate HeldBy(calls: map<nat, Call>, handlers: map<nat, Handler>, node: Node, holder: Holder) {
    match holder
    case ByCaller => node.owner in calls && HoldsMutex(calls[node.owner].pc) && calls[node.owner].pc.node == node
    case ByHandler(h) => h in handlers && handlers[h].pc == Holding(node)
  }

  ghost predicate CallerHolds(mutexes: map<Node, Holder>, id: nat, pc: Pc) {
    HoldsMutex(pc) ==> pc.node.owner == id && pc.node in mutexes && mutexes[pc.node] == ByCaller
  }

  ghost predicate HandlerHolds(mutexes: map<Node, Holder>, h: nat, pc: HandlerPc) {
    pc.Holding? ==> pc.node in mutexes && mutexes[pc.node] == ByHandler(h)
  }

  /** A node's mutex is held by its owner between locking and waiting and after waking, by a
      handler while it signals, and by nobody else. */
  ghost predicate MutexInv(mutexes: map<Node, Holder>, calls: map<nat, Call>, handlers: map<nat, Handler>) {
    && (forall node :: node in mutexes ==> HeldBy(calls, handlers, node, mutexes[node]))
    && (forall id :: id in calls ==> CallerHolds(mutexes, id, calls[id].pc))
    && (forall h :: h in handlers ==> HandlerHolds(mutexes, h, handlers[h].pc))
  }

  lemma MutexSame(mutexes: map<Node, Holder>, calls: map<nat, Call>, handlers: map<nat, Handler>, id: nat, call: Call)
    requires MutexInv(mutexes, calls, handlers)
    requires if HoldsMutex(call.pc) then id in calls && HoldsMutex(calls[id].pc) && call.pc.node == calls[id].pc.node
             else id !in calls || !HoldsMutex(calls[id].pc)
    ensures MutexInv(mutexes, calls[id := call], handlers)
  {
    forall node | node in mutexes ensures HeldBy(calls[id := call], handlers, node, mutexes[node]) {
      assert HeldBy(calls, handlers, node, mutexes[node]);
    }
    if id in calls {
      assert CallerHolds(mutexes, id, calls[id].pc);
    }
  }

  lemma MutexHold(mutexes: map<Node, Holder>, calls: map<nat, Call>, handlers: map<nat, Handler>, id: nat, call: Call)
    requires MutexInv(mutexes, calls, handlers) && id in calls && !HoldsMutex(calls[id].pc)
    requires HoldsMutex(call.pc) && call.pc.node !in mutexes && call.pc.node.owner == id
    ensures MutexInv(mutexes[call.pc.node := ByCaller], calls[id := call], handlers)
  {
    forall node | node in mutexes ensures HeldBy(calls[id := call], handlers, node, mutexes[node]) {
      assert HeldBy(calls, handlers, node, mutexes[node]);
    }
    forall k | k in calls ensures CallerHolds(mutexes, k, calls[k].pc) {
    }
    forall h | h in handlers ensures HandlerHolds(mutexes, h, handlers[h].pc) {
    }
  }

  /** A caller gives its mutex back, or never had it while nobody else holds it. */
  lemma MutexFree(mutexes: map<Node, Holder>, calls: map<nat, Call>, handlers: map<nat, Handler>,
                  id: nat, call: Call, node: Node)
    requires MutexInv(mutexes, calls, handlers) && id in calls && !HoldsMutex(call.pc)
    requires if HoldsMutex(calls[id].pc) then node == calls[id].pc.node else node !in mutexes
    ensures MutexInv(mutexes - {node}, calls[id := call], handlers)
  {
    assert CallerHolds(mutexes, id, calls[id].pc);
    forall n | n in mutexes - {node} ensures HeldBy(calls[id := call], handlers, n, mutexes[n]) {
      assert HeldBy(calls, handlers, n, mutexes[n]);
    }
    forall k | k in calls ensures CallerHolds(mutexes - {node}, k, calls[id := call][k].pc) {
      assert CallerHolds(mutexes, k, calls[k].pc);
    }
    forall h | h in handlers ensures HandlerHolds(mutexes - {node}, h, handlers[h].pc) {
      assert HandlerHolds(mutexes, h, handlers[h].pc);
    }
  }

  /** A handler moves on, or ends, without touching a mutex. */
  lemma HandlerMoves(mutexes: map<Node, Holder>, calls: map<nat, Call>, handlers: map<nat, Handler>,
                     h: nat, hd: Handler)
    requires MutexInv(mutexes, calls, handlers) && (h in handlers ==> !handlers[h].pc.Holding?) && !hd.pc.Holding?
    ensures MutexInv(mutexes, calls, handlers[h := hd]) && MutexInv(mutexes, calls, handlers - {h})
  {
    forall node | node in mutexes
      ensures HeldBy(calls, handlers[h := hd], node, mutexes[node])
      ensures HeldBy(calls, handlers - {h}, node, mutexes[node])
    {
      assert HeldBy(calls, handlers, node, mutexes[node]);
    }
  }

  lemma HandlerLocks(mutexes: map<Node, Holder>, calls: map<nat, Call>, handlers: map<nat, Handler>,
                     h: nat, hd: Handler)
    requires MutexInv(mutexes, calls, handlers) && h in handlers && !handlers[h].pc.Holding?
    requires hd.pc.Holding? && hd.pc.node !in mutexes
    ensures MutexInv(mutexes[hd.pc.node := ByHandler(h)], calls, handlers[h := hd])
  {
    forall node | node in mutexes ensures HeldBy(calls, handlers[h := hd], node, mutexes[node]) {
      assert HeldBy(calls, handlers, node, mutexes[node]);
    }
    forall k | k in calls ensures CallerHolds(mutexes, k, calls[k].pc) {
    }
    forall k | k in handlers ensures HandlerHolds(mutexes, k, handlers[k].pc) {
    }
  }

  lemma HandlerSignals(mutexes: map<Node, Holder>, calls: map<nat, Call>, handlers: map<nat, Handler>,
                       h: nat, node: Node)
    requires MutexInv(mutexes, calls, handlers) && h in handlers && handlers[h].pc == Holding(node)
    ensures MutexInv(mutexes - {node}, Signalling(calls, node), handlers - {h})
  {
    assert HandlerHolds(mutexes, h, handlers[h].pc);
    var calls' := Signalling(calls, node);
    forall n | n in mutexes - {node} ensures HeldBy(calls', handlers - {h}, n, mutexes[n]) {
      assert HeldBy(calls, handlers, n, mutexes[n]);
    }
    forall k | k in calls' ensures CallerHolds(mutexes - {node}, k, calls'[k].pc) {
      assert CallerHolds(mutexes, k, calls[k].pc);
    }
    forall k | k in handlers && k != h ensures HandlerHolds(mutexes - {node}, k, handlers[k].pc) {
      assert HandlerHolds(mutexes, k, handlers[k].pc);
    }
  }

  // ----- stubs

  ghost predicate CallerStub(stubs: seq<Stub>, cleaned: set<nat>, nextStub: nat, stub: Stub, creating: bool) {
    && stub.cookie < nextStub
    && (forall listed :: listed in stubs && listed.cookie == stub.cookie ==> listed == stub && !creating)
    && (creating ==> stub.cookie !in cleaned)
  }

  /** A stub is listed at most once, after its maker listed it and before a failing caller
      cleaned it up; while it is being made only its maker knows it. */
  ghost predicate StubsInv(stubs: seq<Stub>, calls: map<nat, Call>, cleaned: set<nat>, nextStub: nat) {
    && (forall i, j :: 0 <= i < j < |stubs| ==> stubs[i].cookie != stubs[j].cookie)
    && (forall stub :: stub in stubs ==> stub.cookie < nextStub && stub.cookie !in cleaned)
    && (forall id :: id in calls ==> CallerStub(stubs, cleaned, nextStub, calls[id].stub, calls[id].pc.Creating?))
    && (forall id, k :: id in calls && k in calls && id != k && calls[id].pc.Creating? ==>
          calls[k].stub.cookie != calls[id].stub.cookie)
    && (forall c :: c in cleaned ==> c < nextStub)
  }

  lemma StubsSame(stubs: seq<Stub>, calls: map<nat, Call>, cleaned: set<nat>, nextStub: nat, id: nat, call: Call)
    requires StubsInv(stubs, calls, cleaned, nextStub) && id in calls
    requires call.stub == calls[id].stub && !call.pc.Creating?
    ensures StubsInv(stubs, calls[id := call], cleaned, nextStub)
  {
    assert CallerStub(stubs, cleaned, nextStub, calls[id].stub, calls[id].pc.Creating?);
  }

  lemma StubsFound(stubs: seq<Stub>, calls: map<nat, Call>, cleaned: set<nat>, nextStub: nat, id: nat, call: Call)
    requires StubsInv(stubs, calls, cleaned, nextStub) && id !in calls && call.stub in stubs && !call.pc.Creating?
    ensures StubsInv(stubs, calls[id := call], cleaned, nextStub)
  {
    forall k | k in calls && calls[k].pc.Creating? ensures calls[k].stub.cookie != call.stub.cookie {
      assert CallerStub(stubs, cleaned, nextStub, calls[k].stub, true);
    }
  }

  lemma StubsNew(stubs: seq<Stub>, calls: map<nat, Call>, cleaned: set<nat>, nextStub: nat, id: nat, call: Call)
    requires StubsInv(stubs, calls, cleaned, nextStub) && id !in calls && call.stub.cookie == nextStub
    ensures StubsInv(stubs, calls[id := call], cleaned, nextStub + 1)
  {
    forall k | k in calls
      ensures CallerStub(stubs, cleaned, nextStub + 1, calls[k].stub, calls[k].pc.Creating?)
      ensures calls[k].stub.cookie < nextStub
    {
      assert CallerStub(stubs, cleaned, nextStub, calls[k].stub, calls[k].pc.Creating?);
    }
  }

  lemma StubsRegister(stubs: seq<Stub>, calls: map<nat, Call>, cleaned: set<nat>, nextStub: nat, id: nat, call: Call)
    requires StubsInv(stubs, calls, cleaned, nextStub) && id in calls && calls[id].pc.Creating?
    requires call.stub == calls[id].stub && !call.pc.Creating?
    ensures StubsInv([call.stub] + stubs, calls[id := call], cleaned, nextStub)
  {
    assert CallerStub(stubs, cleaned, nextStub, calls[id].stub, true);
    forall k | k in calls
      ensures CallerStub([call.stub] + stubs, cleaned, nextStub, calls[k].stub, k != id && calls[k].pc.Creating?)
    {
      assert CallerStub(stubs, cleaned, nextStub, calls[k].stub, calls[k].pc.Creating?);
    }
  }

  lemma {:induction false} WithoutCookies(stubs: seq<Stub>, gone: set<Stub>)
    requires forall i, j :: 0 <= i < j < |stubs| ==> stubs[i].cookie != stubs[j].cookie
    ensures forall i, j :: 0 <= i < j < |Without(stubs, gone)| ==>
      Without(stubs, gone)[i].cookie != Without(stubs, gone)[j].cookie
  {
    if stubs != [] {
      var n := |stubs| - 1;
      WithoutCookies(stubs[..n], gone);
      WithoutMembers(stubs[..n], gone);
      var w := Without(stubs[..n], gone);
      forall i | 0 <= i < |w| ensures w[i].cookie != stubs[n].cookie {
        assert w[i] in stubs[..n];
      }
    }
  }

  lemma StubsClean(stubs: seq<Stub>, calls: map<nat, Call>, cleaned: set<nat>, nextStub: nat, id: nat, call: Call)
    requires StubsInv(stubs, calls, cleaned, nextStub) && id in calls && !calls[id].pc.Creating?
    requires call.stub == calls[id].stub && !call.pc.Creating?
    ensures StubsInv(Without(stubs, {call.stub}), calls[id := call], cleaned + {call.stub.cookie}, nextStub)
  {
    var rest, more := Without(stubs, {call.stub}), cleaned + {call.stub.cookie};
    WithoutCookies(stubs, {call.stub});
    WithoutMembers(stubs, {call.stub});
    assert CallerStub(stubs, cleaned, nextStub, call.stub, false);
    forall k | k in calls ensures CallerStub(rest, more, nextStub, calls[k].stub, calls[k].pc.Creating?) {
      assert CallerStub(stubs, cleaned, nextStub, calls[k].stub, calls[k].pc.Creating?);
    }
  }

  // ----- sessions

  lemma {:induction false} CountHas(sessions: seq<SessionInfo>, cookie: nat)
    ensures CountOf(sessions, cookie) > 0 <==> HasSession(sessions, cookie)
  {
    if sessions != [] {
      CountHas(sessions[1..], cookie);
      HasSessionHead(sessions, cookie);
    }
  }

  lemma HasSessionHead(sessions: seq<SessionInfo>, cookie: nat)
    requires sessions != []
    ensures HasSession(sessions, cookie) <==> sessions[0].stub == cookie || HasSession(sessions[1..], cookie)
  {
    if HasSession(sessions[1..], cookie) {
      var i :| 0 <= i < |sessions| - 1 && sessions[1..][i].stub == cookie;
      assert sessions[i + 1].stub == cookie;
    }
    if HasSession(sessions, cookie) && sessions[0].stub != cookie {
      var i :| 0 <= i < |sessions| && sessions[i].stub == cookie;
      assert sessions[1..][i - 1].stub == cookie;
    }
  }

  /** A clean-up takes one session of its stub, if there is one, and no other. */
  lemma {:induction false} DropSessionCount(sessions: seq<SessionInfo>, cookie: nat, other: nat)
    ensures CountOf(DropSession(sessions, cookie), other) ==
      if other == cookie && CountOf(sessions, cookie) > 0 then CountOf(sessions, cookie) - 1
      else CountOf(sessions, other)
  {
    if sessions != [] && sessions[0].stub != cookie {
      DropSessionCount(sessions[1..], cookie, other);
    }
  }

  lemma DropKeepsOthers(sessions: seq<SessionInfo>, cookie: nat, other: nat)
    requires other != cookie
    ensures HasSession(DropSession(sessions, cookie), other) <==> HasSession(sessions, other)
  {
    DropSessionCount(sessions, cookie, other);
    CountHas(sessions, other);
    CountHas(DropSession(sessions, cookie), other);
  }

  ghost predicate HandlerInv(hd: Handler, sessions: seq<SessionInfo>, dropped: set<nat>) {
    && (hd.backed ==> HasSession(sessions, hd.msg.stub) || hd.msg.stub in dropped)
    && (hd.pc.Checked? ==> WellFormed(hd.msg))
  }

  /** Handled replies whose stub had a session still have one, unless a failing call dropped it. */
  ghost predicate BackedInv(handlers: map<nat, Handler>, sessions: seq<SessionInfo>, dropped: set<nat>) {
    forall h :: h in handlers ==> HandlerInv(handlers[h], sessions, dropped)
  }

  lemma BackedUpdate(handlers: map<nat, Handler>, sessions: seq<SessionInfo>, dropped: set<nat>, h: nat, hd: Handler)
    requires BackedInv(handlers, sessions, dropped) && HandlerInv(hd, sessions, dropped)
    ensures BackedInv(handlers[h := hd], sessions, dropped) && BackedInv(handlers - {h}, sessions, dropped)
  {
    hide HandlerInv;
  }

  lemma BackedAttach(handlers: map<nat, Handler>, sessions: seq<SessionInfo>, dropped: set<nat>, session: SessionInfo)
    requires BackedInv(handlers, sessions, dropped)
    ensures BackedInv(handlers, [session] + sessions, dropped)
  {
    forall h | h in handlers ensures HandlerInv(handlers[h], [session] + sessions, dropped) {
      assert HandlerInv(handlers[h], sessions, dropped);
      HasSessionHead([session] + sessions, handlers[h].msg.stub);
    }
  }

  lemma BackedDrop(handlers: map<nat, Handler>, sessions: seq<SessionInfo>, dropped: set<nat>, cookie: nat)
    requires BackedInv(handlers, sessions, dropped)
    ensures BackedInv(handlers, DropSession(sessions, cookie), dropped + {cookie})
  {
    forall h | h in handlers ensures HandlerInv(handlers[h], DropSession(sessions, cookie), dropped + {cookie}) {
      assert HandlerInv(handlers[h], sessions, dropped);
      if handlers[h].msg.stub != cookie {
        DropKeepsOthers(sessions, cookie, handlers[h].msg.stub);
      }
    }
  }

  // ----- every step

  ghost predicate Inv(s: State) {
    && NodesInv(s.locks, s.calls, s.nextNode)
    && MutexInv(s.mutexes, s.calls, s.handlers)
    && StubsInv(s.stubs, s.calls, s.cleaned, s.nextStub)
    && BackedInv(s.handlers, s.sessions, s.dropped)
  }

  /** The caller a step belongs to, if it is one of a caller. */
  predicate OfCaller(e: Event) {
    !(e.Arrive? || e.CheckStub? || e.CheckSession? || e.AttachSession? || e.FindLock? || e.LockFound? || e.Signal?)
  }

  /** Steps of a caller after it was registered that leave its node and mutex to it. */
  predicate Ordinary(e: Event) {
    e.Advance? || e.Read? || e.Send? || e.Spurious? || e.Expire?
  }

  lemma OrdinaryStep(s: State, e: Event)
    requires Inv(s) && Enabled(s, e) && Ordinary(e)
    ensures Inv(Next(s, e))
  {
    var call := Next(s, e).calls[e.id];
    assert Next(s, e).calls == s.calls[e.id := call];
    NodesSame(s.locks, s.calls, s.nextNode, e.id, call);
    MutexSame(s.mutexes, s.calls, s.handlers, e.id, call);
    StubsSame(s.stubs, s.calls, s.cleaned, s.nextStub, e.id, call);
  }

  lemma {:induction false} FindStubListed(stubs: seq<Stub>, service: string, device: string, binderObject: nat)
    ensures var r := FindStub(stubs, service, device, binderObject);
      r.Some? ==> r.value in stubs && SameStub(r.value, service, device, binderObject)
  {
    if stubs != [] {
      FindStubListed(stubs[1..], service, device, binderObject);
    }
  }

  lemma BeginStep(s: State, id: nat, service: string, device: string, binderObject: nat)
    requires Inv(s) && id !in s.calls
    ensures Inv(BeginCall(s, id, service, device, binderObject))
  {
    hide NodesInv, MutexInv, StubsInv, BackedInv, FindStub;
    FindStubListed(s.stubs, service, device, binderObject);
    var found := FindStub(s.stubs, service, device, binderObject);
    if found.Some? {
      BeginWith(s, id, Call(found.value, 0, 0, Start));
      StubsFound(s.stubs, s.calls, s.cleaned, s.nextStub, id, Call(found.value, 0, 0, Start));
    } else {
      var call := Call(Stub(s.nextStub, service, device, binderObject), 0, 0, Creating);
      BeginWith(s, id, call);
      StubsNew(s.stubs, s.calls, s.cleaned, s.nextStub, id, call);
    }
  }

  lemma BeginWith(s: State, id: nat, call: Call)
    requires Inv(s) && id !in s.calls && NodeOf(call.pc) == T.None
    ensures NodesInv(s.locks, s.calls[id := call], s.nextNode)
    ensures MutexInv(s.mutexes, s.calls[id := call], s.handlers)
  {
    hide NodesInv, MutexInv;
    NodesSame(s.locks, s.calls, s.nextNode, id, call);
    MutexSame(s.mutexes, s.calls, s.handlers, id, call);
  }

  lemma RegisterStep(s: State, id: nat, alloc: bool)
    requires Inv(s) && At(s, id, Creating)
    ensures Inv(RegisterStub(s, id, alloc))
  {
    var call := RegisterStub(s, id, alloc).calls[id];
    hide NodesInv, MutexInv, StubsInv;
    NodesSame(s.locks, s.calls, s.nextNode, id, call);
    MutexSame(s.mutexes, s.calls, s.handlers, id, call);
    if alloc {
      StubsRegister(s.stubs, s.calls, s.cleaned, s.nextStub, id, call);
    } else {
      StubsSame(s.stubs, s.calls, s.cleaned, s.nextStub, id, call);
    }
  }

  lemma NodesLater(locks: seq<Node>, calls: map<nat, Call>, nextNode: nat)
    requires NodesInv(locks, calls, nextNode)
    ensures NodesInv(locks, calls, nextNode + 1)
  {
  }

  lemma AttachNodeStep(s: State, id: nat, alloc: bool)
    requires Inv(s) && At(s, id, Numbered)
    ensures Inv(AttachNode(s, id, alloc))
  {
    var call := AttachNode(s, id, alloc).calls[id];
    hide NodesInv, MutexInv, StubsInv;
    MutexSame(s.mutexes, s.calls, s.handlers, id, call);
    StubsSame(s.stubs, s.calls, s.cleaned, s.nextStub, id, call);
    if alloc {
      NodesAttach(s.locks, s.calls, s.nextNode, id, call);
    } else {
      NodesSame(s.locks, s.calls, s.nextNode, id, call);
      NodesLater(s.locks, s.calls[id := call], s.nextNode);
    }
  }

  /** A caller without the mutex of its node takes it. */
  lemma HoldStep(s: State, id: nat, node: Node, pc: Pc)
    requires Inv(s) && id in s.calls && node !in s.mutexes && !HoldsMutex(s.calls[id].pc)
    requires NodeOf(s.calls[id].pc) == T.Some(node) && HoldsMutex(pc) && pc.node == node
    ensures Inv(Hold(s, id, node, pc))
  {
    var call := s.calls[id].(pc := pc);
    assert Lists(s.locks, id, s.calls[id].pc);
    hide NodesInv, MutexInv, StubsInv;
    NodesSame(s.locks, s.calls, s.nextNode, id, call);
    MutexHold(s.mutexes, s.calls, s.handlers, id, call);
    StubsSame(s.stubs, s.calls, s.cleaned, s.nextStub, id, call);
  }

  lemma BlockStep(s: State, id: nat, node: Node)
    requires Inv(s) && At(s, id, Sent(node))
    ensures Inv(Block(s, id, node))
  {
    var call := s.calls[id].(pc := Blocked(node));
    hide NodesInv, MutexInv, StubsInv;
    NodesSame(s.locks, s.calls, s.nextNode, id, call);
    MutexFree(s.mutexes, s.calls, s.handlers, id, call, node);
    StubsSame(s.stubs, s.calls, s.cleaned, s.nextStub, id, call);
  }

  lemma LeaveStep(s: State, id: nat, node: Node, ok: bool)
    requires Inv(s) && id in s.calls && NodeOf(s.calls[id].pc) == T.Some(node)
    requires !HoldsMutex(s.calls[id].pc) ==> node !in s.mutexes
    ensures Inv(Leave(s, id, node, ok))
  {
    var call := AfterTry(s.calls[id], ok);
    hide NodesInv, MutexInv, StubsInv;
    NodesLeave(s.locks, s.calls, s.nextNode, id, call);
    MutexFree(s.mutexes, s.calls, s.handlers, id, call, node);
    StubsSame(s.stubs, s.calls, s.cleaned, s.nextStub, id, call);
  }

  lemma DropKeeps(s: State, id: nat)
    requires Inv(s) && At(s, id, Failed)
    ensures Inv(DropStep(s, id))
  {
    var call := s.calls[id].(pc := Dropped);
    hide NodesInv, MutexInv, StubsInv, BackedInv, DropSession, HasSession;
    BackedDrop(s.handlers, s.sessions, s.dropped, call.stub.cookie);
    NodesSame(s.locks, s.calls, s.nextNode, id, call);
    MutexSame(s.mutexes, s.calls, s.handlers, id, call);
    StubsSame(s.stubs, s.calls, s.cleaned, s.nextStub, id, call);
  }

  lemma UnlistKeeps(s: State, id: nat)
    requires Inv(s) && At(s, id, Dropped)
    ensures Inv(UnlistStep(s, id))
  {
    var call := s.calls[id].(pc := Done(false));
    hide NodesInv, MutexInv, StubsInv, BackedInv;
    NodesSame(s.locks, s.calls, s.nextNode, id, call);
    MutexSame(s.mutexes, s.calls, s.handlers, id, call);
    StubsClean(s.stubs, s.calls, s.cleaned, s.nextStub, id, call);
  }

  /** A handler that touches no mutex moves on or ends. */
  lemma HandlerStep(s: State, h: nat, hd: Handler)
    requires Inv(s) && (h in s.handlers ==> !s.handlers[h].pc.Holding?) && !hd.pc.Holding?
    requires HandlerInv(hd, s.sessions, s.dropped)
    ensures Inv(s.(handlers := s.handlers[h := hd])) && Inv(s.(handlers := s.handlers - {h}))
  {
    hide NodesInv, MutexInv, StubsInv, BackedInv, HandlerInv;
    HandlerMoves(s.mutexes, s.calls, s.handlers, h, hd);
    BackedUpdate(s.handlers, s.sessions, s.dropped, h, hd);
  }

  lemma ProceedKeeps(s: State, h: nat, pass: bool, pc: HandlerPc)
    requires Inv(s) && h in s.handlers && !s.handlers[h].pc.Holding? && !pc.Holding?
    requires pass && pc.Checked? ==> WellFormed(s.handlers[h].msg)
    ensures Inv(Proceed(s, h, pass, pc))
  {
    hide Inv, HasSession, WellFormed;
    HandlerStep(s, h, Proceed(s, h, pass, pc).handlers[h]);
  }

  lemma AttachKeeps(s: State, h: nat, alloc: bool)
    requires Inv(s) && HandlerAt(s, h, Checked)
    ensures Inv(AttachStep(s, h, alloc))
  {
    var m := s.handlers[h].msg;
    var hd := Handler(m, Made, alloc || HasSession(s.sessions, m.stub));
    BackedAttach(s.handlers, s.sessions, s.dropped, SessionOf(m));
    HasSessionHead([SessionOf(m)] + s.sessions, m.stub);
    hide NodesInv, MutexInv, StubsInv, BackedInv, HasSession;
    HandlerStep(if alloc then s.(sessions := [SessionOf(m)] + s.sessions) else s, h, hd);
  }

  lemma FindLockKeeps(s: State, h: nat)
    requires Inv(s) && HandlerAt(s, h, Made)
    ensures Inv(FindLockStep(s, h))
  {
    var found := FindNode(s.locks, s.handlers[h].msg.seqNumber);
    assert HandlerInv(s.handlers[h], s.sessions, s.dropped);
    hide Inv, FindNode, HasSession;
    HandlerStep(s, h, if found.Some? then s.handlers[h].(pc := Found(found.value)) else s.handlers[h]);
  }

  lemma LockFoundKeeps(s: State, h: nat, node: Node)
    requires Inv(s) && HandlerAt(s, h, Found(node)) && node !in s.mutexes
    ensures Inv(LockFoundStep(s, h, node))
  {
    var hd := s.handlers[h].(pc := Holding(node));
    assert HandlerInv(s.handlers[h], s.sessions, s.dropped);
    hide NodesInv, MutexInv, StubsInv, BackedInv, HasSession;
    HandlerLocks(s.mutexes, s.calls, s.handlers, h, hd);
    BackedUpdate(s.handlers, s.sessions, s.dropped, h, hd);
  }

  lemma SignalKeeps(s: State, h: nat, node: Node)
    requires Inv(s) && HandlerAt(s, h, Holding(node))
    ensures Inv(SignalStep(s, h, node))
  {
    assert HandlerInv(s.handlers[h], s.sessions, s.dropped);
    hide NodesInv, MutexInv, StubsInv, BackedInv, HasSession;
    BackedUpdate(s.handlers, s.sessions, s.dropped, h, s.handlers[h]);
    HandlerSignals(s.mutexes, s.calls, s.handlers, h, node);
    if node.owner in s.calls && s.calls[node.owner].pc == Blocked(node) {
      var call := s.calls[node.owner].(pc := Signalled(node));
      NodesSame(s.locks, s.calls, s.nextNode, node.owner, call);
      StubsSame(s.stubs, s.calls, s.cleaned, s.nextStub, node.owner, call);
    }
  }

  /** Every step of every thread keeps the invariant, whatever replies arrive. */
  lemma StepKeepsInv(s: State, e: Event)
    requires Inv(s) && Enabled(s, e)
    ensures Inv(Next(s, e))
  {
    hide Inv, BeginCall, RegisterStub, AttachNode, Hold, Block, Leave, DropStep, UnlistStep, Proceed, AttachStep,
      FindLockStep, LockFoundStep, SignalStep, SetCall, HasSession, WellFormed, HasBinderObject;
    match e
    case Begin(id, service, device, binderObject) => BeginStep(s, id, service, device, binderObject);
    case Register(id, alloc) => RegisterStep(s, id, alloc);
    case Advance(_) => OrdinaryStep(s, e);
    case Read(_) => OrdinaryStep(s, e);
    case Attach(id, alloc) => AttachNodeStep(s, id, alloc);
    case LockNode(id) => HoldStep(s, id, s.calls[id].pc.node, Locked(s.calls[id].pc.node));
    case Send(_, _) => OrdinaryStep(s, e);
    case Wait(id, clock) =>
      if clock {
        BlockStep(s, id, s.calls[id].pc.node);
      } else {
        LeaveStep(s, id, s.calls[id].pc.node, false);
      }
    case Spurious(_) => OrdinaryStep(s, e);
    case Expire(_) => OrdinaryStep(s, e);
    case Wake(id, ret) => HoldStep(s, id, s.calls[id].pc.node, Awake(s.calls[id].pc.node, ret));
    case Exit(id) =>
      LeaveStep(s, id, s.calls[id].pc.node, s.calls[id].pc.ret && HasSession(s.sessions, s.calls[id].stub.cookie));
    case GiveUp(id) => LeaveStep(s, id, s.calls[id].pc.node, false);
    case Drop(id) => DropKeeps(s, id);
    case Unlist(id) => UnlistKeeps(s, id);
    case Arrive(h, msg) => HandlerStep(s, h, Handler(msg, Arrived, false));
    case CheckStub(h) =>
      ProceedKeeps(s, h, HasBinderObject(s.stubs, s.handlers[h].msg.binderObject), StubKnown);
    case CheckSession(h) =>
      var m := s.handlers[h].msg;
      ProceedKeeps(s, h, !HasSession(s.sessions, m.stub) && WellFormed(m), Checked);
    case AttachSession(h, alloc) => AttachKeeps(s, h, alloc);
    case FindLock(h) => FindLockKeeps(s, h);
    case LockFound(h) => LockFoundKeeps(s, h, s.handlers[h].pc.node);
    case Signal(h) => SignalKeeps(s, h, s.handlers[h].pc.node);
  }
}
