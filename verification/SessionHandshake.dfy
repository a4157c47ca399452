/** The handshake between threads that wait for a session and threads that announce it. The
    critical section of a node's mutex is one step; the condition wait ends one. */
module SessionHandshake {

  /** A SessionIdList entry. */
  datatype Node = Node(id: nat, sessionId: int)

  datatype Pc =
    | WaitFound(node: Node)           // WaitForSessionIdReady, about to look at the flag
    | Blocked(node: Node)             // in the timed wait
    | Woken(node: Node)               // taken out of the wait, about to look again
    | AnnounceFound(node: Node)       // HandleNewConnection, about to set the flag
    | Done(ok: bool)

  datatype State = State(
    nextNode: nat,
    idList: seq<Node>,
    ready: set<Node>,                 // the nodes with isReady
    threads: map<nat, Pc>)

  function Initial(): State { State(0, [], {}, map[]) }

  datatype Event =
    | Wait(t: nat, sessionId: int, alloc: bool)
    | Look(t: nat, clock: bool)
    | Expire(t: nat)
    | Spurious(t: nat)
    | LookAgain(t: nat)
    | Announce(t: nat, sessionId: int, alloc: bool)
    | SetReady(t: nat)

  // ----- the list

  predicate Has(idList: seq<Node>, sessionId: int) {
    exists i :: 0 <= i < |idList| && idList[i].sessionId == sessionId
  }

  function Find(idList: seq<Node>, sessionId: int): (r: Node)
    requires Has(idList, sessionId)
    ensures r in idList && r.sessionId == sessionId
  {
    if idList[0].sessionId == sessionId then idList[0]
    else
      assert Has(idList[1..], sessionId) by {
        var i :| 0 <= i < |idList| && idList[i].sessionId == sessionId;
        assert idList[1..][i - 1].sessionId == sessionId;
      }
      Find(idList[1..], sessionId)
  }

  /** FindOrNewSessionIdObject for thread t: it goes on with the node, or fails. */
  function Enter(s: State, t: nat, sessionId: int, alloc: bool, waits: bool): State {
    if sessionId <= 0 then s.(threads := s.threads[t := Done(false)])
    else if Has(s.idList, sessionId) then
      var node := Find(s.idList, sessionId);
      s.(threads := s.threads[t := if waits then WaitFound(node) else AnnounceFound(node)])
    else if !alloc then s.(threads := s.threads[t := Done(false)])
    else
      var node := Node(s.nextNode, sessionId);
      s.(nextNode := s.nextNode + 1,
         idList := [node] + s.idList,
         threads := s.threads[t := if waits then WaitFound(node) else AnnounceFound(node)])
  }

  // ----- the steps

  predicate Enabled(s: State, e: Event) {
    match e
    case Wait(t, _, _) => t !in s.threads
    case Announce(t, _, _) => t !in s.threads
    case Look(t, _) => t in s.threads && s.threads[t].WaitFound?
    case Expire(t) => t in s.threads && s.threads[t].Blocked?
    case Spurious(t) => t in s.threads && s.threads[t].Blocked?
    case LookAgain(t) => t in s.threads && s.threads[t].Woken?
    case SetReady(t) => t in s.threads && s.threads[t].AnnounceFound?
  }

  /** A broadcast takes every thread out of the wait on the node. */
  function Broadcast(threads: map<nat, Pc>, node: Node): map<nat, Pc> {
    map t | t in threads :: if threads[t] == Blocked(node) then Woken(node) else threads[t]
  }

  function Move(s: State, t: nat, pc: Pc): State {
    s.(threads := s.threads[t := pc])
  }

  function Next(s: State, e: Event): State
    requires Enabled(s, e)
  {
    match e
    case Wait(t, sessionId, alloc) => Enter(s, t, sessionId, alloc, true)
    case Announce(t, sessionId, alloc) => Enter(s, t, sessionId, alloc, false)
    case Look(t, clock) =>
      var node := s.threads[t].node;
      Move(s, t, if node in s.ready then Done(true) else if clock then Blocked(node) else Done(false))
    case Expire(t) => Move(s, t, Done(false))
    case Spurious(t) => Move(s, t, Woken(s.threads[t].node))
    case LookAgain(t) => Move(s, t, Done(s.threads[t].node in s.ready))
    case SetReady(t) =>
      var node := s.threads[t].node;
      s.(ready := s.ready + {node},
         threads := if node in s.ready then s.threads[t := Done(true)]
                    else Broadcast(s.threads, node)[t := Done(true)])
  }

  // ----- what every step keeps

  ghost predicate ThreadInv(idList: seq<Node>, ready: set<Node>, pc: Pc) {
    (!pc.Done? ==> pc.node in idList) && (pc.Blocked? ==> pc.node !in ready)
  }

  /** One node per session id; nobody waits on a node that is ready. */
  ghost predicate Inv(s: State) {
    && (forall i, j :: 0 <= i < j < |s.idList| ==> s.idList[i].sessionId != s.idList[j].sessionId)
    && (forall i :: 0 <= i < |s.idList| ==> s.idList[i].id < s.nextNode && s.idList[i].sessionId > 0)
    && (forall node :: node in s.ready ==> node in s.idList)
    && (forall t :: t in s.threads ==> ThreadInv(s.idList, s.ready, s.threads[t]))
  }

  lemma EnterKeeps(s: State, t: nat, sessionId: int, alloc: bool, waits: bool)
    requires Inv(s) && t !in s.threads
    ensures Inv(Enter(s, t, sessionId, alloc, waits))
  {
    hide Has, Find;
    var d := Enter(s, t, sessionId, alloc, waits);
    if Has(s.idList, sessionId) {
      FindListed(s.idList, sessionId);
    } else {
      HasNone(s.idList, sessionId);
    }
    forall u | u in s.threads ensures ThreadInv(d.idList, d.ready, s.threads[u]) {
      assert ThreadInv(s.idList, s.ready, s.threads[u]);
    }
  }

  lemma FindListed(idList: seq<Node>, sessionId: int)
    requires Has(idList, sessionId)
    ensures Find(idList, sessionId) in idList && Find(idList, sessionId).sessionId == sessionId
  {
  }

  lemma HasNone(idList: seq<Node>, sessionId: int)
    requires !Has(idList, sessionId)
    ensures forall i :: 0 <= i < |idList| ==> idList[i].sessionId != sessionId
  {
  }

  lemma StepKeepsInv(s: State, e: Event)
    requires Inv(s) && Enabled(s, e)
    ensures Inv(Next(s, e)) && s.ready <= Next(s, e).ready
    ensures forall node :: node in s.idList ==> node in Next(s, e).idList
  {
    hide Has, Find;
    if e.Wait? || e.Announce? {
      EnterKeeps(s, e.t, e.sessionId, e.alloc, e.Wait?);
    } else {
      hide Enter;
      assert ThreadInv(s.idList, s.ready, s.threads[e.t]);
    }
  }

  // ----- runs

  ghost predicate IsRun(states: seq<State>, events: seq<Event>) {
    && |states| == |events| + 1
    && states[0] == Initial()
    && forall k {:trigger events[k]} :: 0 <= k < |events| ==>
         Enabled(states[k], events[k]) && states[k + 1] == Next(states[k], events[k])
  }

  lemma {:induction false} RunInv(states: seq<State>, events: seq<Event>, k: nat)
    requires IsRun(states, events) && k < |states|
    ensures Inv(states[k])
  {
    if k > 0 {
      hide Next, Enabled, Inv;
      RunInv(states, events, k - 1);
      assert Enabled(states[k - 1], events[k - 1]);
      StepKeepsInv(states[k - 1], events[k - 1]);
    } else {
      assert Inv(Initial());
    }
  }

  /** Readiness never reverts, and no node leaves the list. */
  lemma {:induction false} ReadyStays(states: seq<State>, events: seq<Event>, i: nat, j: nat, node: Node)
    requires IsRun(states, events) && i <= j < |states| && node in states[i].ready
    ensures node in states[j].ready && node in states[j].idList
    decreases j
  {
    if i == j {
      RunInv(states, events, i);
    } else {
      ReadyStays(states, events, i, j - 1, node);
      RunInv(states, events, j - 1);
      hide Next, Enabled, Inv;
      assert Enabled(states[j - 1], events[j - 1]);
      StepKeepsInv(states[j - 1], events[j - 1]);
    }
  }

  /** Thread t announces the session in step i. */
  ghost predicate Announces(states: seq<State>, events: seq<Event>, i: nat, sessionId: int) {
    && i < |events| && i < |states| && events[i].SetReady? && events[i].t in states[i].threads
    && states[i].threads[events[i].t].AnnounceFound?
    && states[i].threads[events[i].t].node.sessionId == sessionId
  }

  lemma {:induction false} ReadyWasAnnounced(states: seq<State>, events: seq<Event>, k: nat, node: Node)
    returns (i: nat)
    requires IsRun(states, events) && k < |states| && node in states[k].ready
    ensures i < k && Announces(states, events, i, node.sessionId)
  {
    assert k > 0;
    assert Enabled(states[k - 1], events[k - 1]) && states[k] == Next(states[k - 1], events[k - 1]);
    if node in states[k - 1].ready {
      i := ReadyWasAnnounced(states, events, k - 1, node);
    } else {
      i := k - 1;
      BecomesReady(states[k - 1], events[k - 1], node);
    }
  }

  lemma BecomesReady(s: State, e: Event, node: Node)
    requires Enabled(s, e) && node !in s.ready && node in Next(s, e).ready
    ensures e.SetReady? && s.threads[e.t] == AnnounceFound(node)
  {
    hide Has, Find;
  }

  /** What a thread that waits for a session may become in one step. */
  ghost predicate Waiting(s: State, t: nat, sessionId: int) {
    && t in s.threads && !s.threads[t].AnnounceFound?
    && (!s.threads[t].Done? ==> s.threads[t].node.sessionId == sessionId)
    && (s.threads[t] == Done(true) ==> exists node :: node in s.ready && node.sessionId == sessionId)
  }

  lemma WaitStarts(s: State, t: nat, sessionId: int, alloc: bool)
    requires t !in s.threads
    ensures Waiting(Enter(s, t, sessionId, alloc, true), t, sessionId)
    ensures sessionId <= 0 ==> Enter(s, t, sessionId, alloc, true).threads[t] == Done(false)
  {
  }

  lemma WaitingStep(s: State, e: Event, t: nat, sessionId: int)
    requires Inv(s) && Enabled(s, e) && Waiting(s, t, sessionId)
    ensures Waiting(Next(s, e), t, sessionId)
  {
    hide Has, Find;
    StepKeepsInv(s, e);
    if s.threads[t] == Done(true) {
      var node :| node in s.ready && node.sessionId == sessionId;
      assert node in Next(s, e).ready;
    }
    if e.Look? || e.LookAgain? {
      var node := s.threads[e.t].node;
      assert node in s.ready ==> node in Next(s, e).ready;
    }
  }

  lemma {:induction false} WaitingRun(states: seq<State>, events: seq<Event>, j: nat, k: nat, t: nat, sessionId: int)
    requires IsRun(states, events) && j < k < |states|
    requires events[j].Wait? && events[j].t == t && events[j].sessionId == sessionId
    ensures Waiting(states[k], t, sessionId)
    decreases k
  {
    assert Enabled(states[k - 1], events[k - 1]) && states[k] == Next(states[k - 1], events[k - 1]);
    if k == j + 1 {
      hide Enter;
      WaitStarts(states[j], t, sessionId, events[j].alloc);
    } else {
      hide Next, Enabled, Waiting, Inv;
      WaitingRun(states, events, j, k - 1, t, sessionId);
      RunInv(states, events, k - 1);
      WaitingStep(states[k - 1], events[k - 1], t, sessionId);
    }
  }

  /** A wait succeeds only for a session that was announced before it returned. */
  lemma SuccessWasAnnounced(states: seq<State>, events: seq<Event>, j: nat, k: nat, t: nat, sessionId: int)
    returns (i: nat)
    requires IsRun(states, events) && j < k < |states|
    requires events[j].Wait? && events[j].t == t && events[j].sessionId == sessionId
    requires t in states[k].threads && states[k].threads[t] == Done(true)
    ensures i < k && Announces(states, events, i, sessionId)
  {
    WaitingRun(states, events, j, k, t, sessionId);
    var node :| node in states[k].ready && node.sessionId == sessionId;
    i := ReadyWasAnnounced(states, events, k, node);
  }

  lemma FindReady(s: State, node: Node)
    requires Inv(s) && node in s.idList
    ensures Has(s.idList, node.sessionId) && Find(s.idList, node.sessionId) == node
  {
    var i :| 0 <= i < |s.idList| && s.idList[i] == node;
    assert Has(s.idList, s.idList[i].sessionId);
    FindListed(s.idList, node.sessionId);
  }

  lemma IdleStep(s: State, e: Event, t: nat, pc: Pc)
    requires Enabled(s, e) && t in s.threads && s.threads[t] == pc && (pc.WaitFound? || pc.Woken?)
    requires if pc.WaitFound? then !(e.Look? && e.t == t) else e != LookAgain(t)
    ensures t in Next(s, e).threads && Next(s, e).threads[t] == pc
  {
    hide Has, Find;
  }

  lemma {:induction false} IdleRun(states: seq<State>, events: seq<Event>, i: nat, j: nat, t: nat, pc: Pc)
    requires IsRun(states, events) && i <= j < |states| && (pc.WaitFound? || pc.Woken?)
    requires t in states[i].threads && states[i].threads[t] == pc
    requires forall m :: i <= m < j ==>
      if pc.WaitFound? then !(events[m].Look? && events[m].t == t) else events[m] != LookAgain(t)
    ensures t in states[j].threads && states[j].threads[t] == pc
    decreases j
  {
    if i < j {
      hide Next, Enabled;
      IdleRun(states, events, i, j - 1, t, pc);
      assert Enabled(states[j - 1], events[j - 1]);
      IdleStep(states[j - 1], events[j - 1], t, pc);
    }
  }

  lemma SetReadyStep(states: seq<State>, events: seq<Event>, i: nat, sessionId: int) returns (node: Node)
    requires IsRun(states, events) && Announces(states, events, i, sessionId)
    ensures node == states[i].threads[events[i].t].node && node in states[i + 1].ready
  {
    node := states[i].threads[events[i].t].node;
    assert Enabled(states[i], events[i]) && states[i + 1] == Next(states[i], events[i]);
  }

  /** A wait that starts after the announcement succeeds the first time it looks, whatever
      the clock says and without memory; it never blocks. */
  lemma AnnouncedFirstSucceeds(states: seq<State>, events: seq<Event>, i: nat, j: nat, k: nat,
                               t: nat, sessionId: int, alloc: bool, clock: bool)
    requires IsRun(states, events) && Announces(states, events, i, sessionId) && i < j < k < |events|
    requires events[j] == Wait(t, sessionId, alloc) && events[k] == Look(t, clock)
    requires forall m :: j < m < k ==> !(events[m].Look? && events[m].t == t)
    ensures t in states[k + 1].threads && states[k + 1].threads[t] == Done(true)
  {
    var node := SetReadyStep(states, events, i, sessionId);
    ReadyStays(states, events, i + 1, j, node);
    ReadyStays(states, events, i + 1, k, node);
    RunInv(states, events, j);
    FindReady(states[j], node);
    assert Enabled(states[j], events[j]) && states[j + 1] == Next(states[j], events[j]);
    assert sessionId > 0;
    assert states[j + 1].threads[t] == WaitFound(node);
    IdleRun(states, events, j + 1, k, t, WaitFound(node));
    assert Enabled(states[k], events[k]) && states[k + 1] == Next(states[k], events[k]);
  }

  lemma BroadcastWakes(states: seq<State>, events: seq<Event>, i: nat, t: nat, sessionId: int) returns (node: Node)
    requires IsRun(states, events) && Announces(states, events, i, sessionId)
    requires t in states[i].threads && states[i].threads[t].Blocked? && states[i].threads[t].node.sessionId == sessionId
    ensures t in states[i + 1].threads && states[i + 1].threads[t] == Woken(node) && node in states[i + 1].ready
  {
    RunInv(states, events, i);
    node := SetReadyStep(states, events, i, sessionId);
    var s := states[i];
    assert ThreadInv(s.idList, s.ready, s.threads[t]) && ThreadInv(s.idList, s.ready, s.threads[events[i].t]);
    FindReady(s, node);
    FindReady(s, s.threads[t].node);
    assert Enabled(s, events[i]) && states[i + 1] == Next(s, events[i]);
  }

  /** A thread blocked when its session is announced is taken out of the wait: until it looks
      again it cannot time out, and when it looks it succeeds. */
  lemma BlockedIsWoken(states: seq<State>, events: seq<Event>, i: nat, k: nat, t: nat, sessionId: int)
    requires IsRun(states, events) && Announces(states, events, i, sessionId) && i < k < |events|
    requires t in states[i].threads && states[i].threads[t].Blocked? && states[i].threads[t].node.sessionId == sessionId
    requires forall m :: i < m < k ==> events[m] != LookAgain(t)
    ensures t in states[k].threads && states[k].threads[t].Woken?
    ensures events[k] != Expire(t)
    ensures events[k] == LookAgain(t) ==> t in states[k + 1].threads && states[k + 1].threads[t] == Done(true)
  {
    var node := BroadcastWakes(states, events, i, t, sessionId);
    IdleRun(states, events, i + 1, k, t, Woken(node));
    ReadyStays(states, events, i + 1, k, node);
    assert Enabled(states[k], events[k]) && states[k + 1] == Next(states[k], events[k]);
  }

  // ----- one handshake

  /** A thread that enters with a positive id goes on with a node of that id, the listed one if
      there is one and otherwise a new one in front that is not ready; without memory for a
      new one, or with another id, it fails. */
  lemma EnterFindsOrMakes(s: State, t: nat, sessionId: int, alloc: bool, waits: bool)
    requires Inv(s)
    ensures var d := Enter(s, t, sessionId, alloc, waits);
      && t in d.threads && d.threads == s.threads[t := d.threads[t]] && d.ready == s.ready
      && (sessionId <= 0 || (!alloc && !Has(s.idList, sessionId)) ==>
            d.threads[t] == Done(false) && d.idList == s.idList)
      && (sessionId > 0 && (alloc || Has(s.idList, sessionId)) ==>
            && (if waits then d.threads[t].WaitFound? else d.threads[t].AnnounceFound?)
            && d.threads[t].node.sessionId == sessionId && d.threads[t].node in d.idList
            && (Has(s.idList, sessionId) ==> d.idList == s.idList)
            && (!Has(s.idList, sessionId) ==>
                  d.idList == [d.threads[t].node] + s.idList && d.threads[t].node !in s.ready))
  {
    if Has(s.idList, sessionId) {
      FindListed(s.idList, sessionId);
    }
  }

  /** A look at a node that is ready succeeds, one at a node that is not blocks if the clock
      can be read and fails otherwise; a timeout always fails; a second look tells readiness. */
  lemma LooksTellReadiness(s: State, t: nat, clock: bool)
    requires t in s.threads && !s.threads[t].Done?
    ensures var node := s.threads[t].node;
      && (s.threads[t].WaitFound? ==>
            Next(s, Look(t, clock)).threads[t] ==
              if node in s.ready then Done(true) else if clock then Blocked(node) else Done(false))
      && (s.threads[t].Blocked? ==> Next(s, Expire(t)).threads[t] == Done(false))
      && (s.threads[t].Woken? ==> Next(s, LookAgain(t)).threads[t] == Done(node in s.ready))
  {
  }

  /** In any state that has neither thread, a wait for a session nobody has announced blocks,
      an announcement of it wakes the waiter, both succeed, and the session is ready. */
  lemma HandshakeCompletes(s: State, t: nat, u: nat, sessionId: int) returns (d: State)
    requires Inv(s) && t !in s.threads && u !in s.threads && t != u && sessionId > 0
    requires forall node :: node in s.ready ==> node.sessionId != sessionId
    ensures Enabled(s, Wait(t, sessionId, true))
    ensures var s1 := Next(s, Wait(t, sessionId, true));
      && Enabled(s1, Look(t, true))
      && var s2 := Next(s1, Look(t, true));
         && t in s2.threads && s2.threads[t].Blocked? && Enabled(s2, Announce(u, sessionId, false))
         && var s3 := Next(s2, Announce(u, sessionId, false));
            && Enabled(s3, SetReady(u))
            && var s4 := Next(s3, SetReady(u));
               && Enabled(s4, LookAgain(t)) && d == Next(s4, LookAgain(t))
    ensures t in d.threads && d.threads[t] == Done(true) && u in d.threads && d.threads[u] == Done(true)
    ensures exists node :: node in d.ready && node in d.idList && node.sessionId == sessionId
  {
    var s1 := Next(s, Wait(t, sessionId, true));
    StepKeepsInv(s, Wait(t, sessionId, true));
    EnterFindsOrMakes(s, t, sessionId, true, true);
    var node := s1.threads[t].node;
    FindReady(s1, node);
    hide Inv, Enter, Has, Find;
    var s2 := Next(s1, Look(t, true));
    assert s2.idList == s1.idList && s2.ready == s1.ready && s2.threads == s1.threads[t := Blocked(node)];
    d := AnnounceWakes(s2, t, u, node);
    assert node in d.ready && node in d.idList;
  }

  /** The second half: from the block on. */
  lemma AnnounceWakes(s: State, t: nat, u: nat, node: Node) returns (d: State)
    requires Has(s.idList, node.sessionId) && Find(s.idList, node.sessionId) == node && node.sessionId > 0
    requires t in s.threads && s.threads[t] == Blocked(node) && u !in s.threads && node !in s.ready
    ensures Enabled(s, Announce(u, node.sessionId, false))
    ensures var s3 := Next(s, Announce(u, node.sessionId, false));
      && Enabled(s3, SetReady(u))
      && var s4 := Next(s3, SetReady(u));
         && Enabled(s4, LookAgain(t)) && d == Next(s4, LookAgain(t))
    ensures t in d.threads && d.threads[t] == Done(true) && u in d.threads && d.threads[u] == Done(true)
    ensures node in d.ready && d.idList == s.idList
  {
    AnnounceFinds(s, u, node);
    hide Enter, Has, Find;
    var s3 := Next(s, Announce(u, node.sessionId, false));
    var s4 := Next(s3, SetReady(u));
    assert s4.threads[t] == Woken(node) && node in s4.ready;
    d := Next(s4, LookAgain(t));
  }

  lemma AnnounceFinds(s: State, u: nat, node: Node)
    requires Has(s.idList, node.sessionId) && Find(s.idList, node.sessionId) == node && node.sessionId > 0
    ensures Enter(s, u, node.sessionId, false, false) == s.(threads := s.threads[u := AnnounceFound(node)])
  {
  }

  // ----- the list as it is searched and changed

  class SessionIdList {
    var nextNode: nat
    var idList: seq<Node>
    var ready: set<Node>

    method FindOrNewSessionIdObject(sessionId: int, alloc: bool) returns (ok: bool, node: Node)
      modifies this`idList, this`nextNode
      ensures ok <==> Has(old(idList), sessionId) || alloc
      ensures Has(old(idList), sessionId) ==>
        node == Find(old(idList), sessionId) && idList == old(idList) && nextNode == old(nextNode)
      ensures !Has(old(idList), sessionId) && alloc ==>
        node == Node(old(nextNode), sessionId) && idList == [node] + old(idList) && nextNode == old(nextNode) + 1
      ensures !ok ==> idList == old(idList) && nextNode == old(nextNode)
    {
      node := Node(nextNode, sessionId);
      for i := 0 to |idList|
        invariant Has(idList, sessionId) ==> Has(idList[i..], sessionId) &&
                                             Find(idList, sessionId) == Find(idList[i..], sessionId)
        invariant forall j :: 0 <= j < i ==> idList[j].sessionId != sessionId
      {
        if idList[i].sessionId == sessionId {
          return true, idList[i];
        }
        assert idList[i..][1..] == idList[i + 1..];
      }
      if !alloc {
        return false, node;
      }
      idList, nextNode := [node] + idList, nextNode + 1;
      return true, node;
    }

    /** The result tells whether waiting threads were woken. */
    method HandleNewConnection(sessionId: int, alloc: bool) returns (ok: bool, broadcast: bool)
      modifies this
      ensures ok <==> sessionId > 0 && (Has(old(idList), sessionId) || alloc)
      ensures ok ==> Has(idList, sessionId) && ready == old(ready) + {Find(idList, sessionId)}
      ensures !ok ==> idList == old(idList) && ready == old(ready)
      ensures broadcast <==> ok && Find(idList, sessionId) !in old(ready)
    {
      if sessionId <= 0 {
        return false, false;
      }
      var node: Node;
      ok, node := FindOrNewSessionIdObject(sessionId, alloc);
      if !ok {
        return false, false;
      }
      assert idList[0] == node ==> Has(idList, sessionId);
      broadcast := node !in ready;
      ready := ready + {node};
    }
  }
}
