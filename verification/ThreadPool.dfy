/** The counters of the C thread pool: what may still be spawned, per protocol. */
module ThreadPool {

  const IF_PROT_BINDER: int := 0
  const IF_PROT_DATABUS: int := 1
  const PROTO_NUM: int := 2
  const SET_MAX_THREADS_DEFAULT: int := 4
  const SET_MAX_THREADS_MAX: int := 16
  const ERR_NONE: int := 0
  const ERR_FAILED: int := -1
  const ERR_INVALID_PARAM: int := -2

  datatype Pool = Pool(
    maxThreadNum: int,
    idleThreadNum: int,
    idleSocketThreadNum: int,
    live: int,                      // history: binder threads spawned and not yet over
    liveSocket: int)                // history: databus threads spawned and not yet over

  /** created tells whether the context and the thread could be made. */
  datatype Event = Spawn(proto: int, created: bool) | Exit(proto: int) | SetMax(n: int)

  function Init(n: int): Pool { Pool(n + n, n, n, 0, 0) }

  function Idle(p: Pool, proto: int): int {
    if proto == IF_PROT_BINDER then p.idleThreadNum
    else if proto == IF_PROT_DATABUS then p.idleSocketThreadNum
    else 0
  }

  function Live(p: Pool, proto: int): int {
    if proto == IF_PROT_BINDER then p.live
    else if proto == IF_PROT_DATABUS then p.liveSocket
    else 0
  }

  /** One slot of a protocol goes from idle to live, or back with count -1. */
  function Take(p: Pool, proto: int, count: int): Pool {
    if proto == IF_PROT_BINDER then p.(idleThreadNum := p.idleThreadNum - count, live := p.live + count)
    else if proto == IF_PROT_DATABUS then
      p.(idleSocketThreadNum := p.idleSocketThreadNum - count, liveSocket := p.liveSocket + count)
    else p
  }

  predicate Spawns(p: Pool, proto: int, created: bool) {
    Idle(p, proto) > 0 && created
  }

  function SpawnCode(p: Pool, proto: int, created: bool): int {
    if Idle(p, proto) <= 0 then ERR_INVALID_PARAM else if created then ERR_NONE else ERR_FAILED
  }

  function UpdateMax(p: Pool, n: int): Pool {
    var total := n + n;
    if total <= p.maxThreadNum then p
    else
      var more := (total - p.maxThreadNum) / PROTO_NUM;
      p.(maxThreadNum := total,
         idleThreadNum := p.idleThreadNum + more,
         idleSocketThreadNum := p.idleSocketThreadNum + more)
  }

  predicate AcceptsMax(n: int) {
    SET_MAX_THREADS_DEFAULT <= n <= SET_MAX_THREADS_MAX
  }

  function Next(p: Pool, e: Event): Pool {
    match e
    case Spawn(proto, created) => if Spawns(p, proto, created) then Take(p, proto, 1) else p
    case Exit(proto) => Take(p, proto, -1)
    case SetMax(n) => if AcceptsMax(n) then UpdateMax(p, n) else p
  }

  function Run(events: seq<Event>): Pool {
    if events == [] then Init(SET_MAX_THREADS_DEFAULT)
    else Next(Run(events[..|events| - 1]), events[|events| - 1])
  }

  /** Only live threads exit. */
  predicate Legal(events: seq<Event>) {
    events != [] ==>
      var front, e := events[..|events| - 1], events[|events| - 1];
      Legal(front) && (e.Exit? ==> Live(Run(front), e.proto) > 0)
  }

  // ----- conservation

  predicate Conserved(p: Pool) {
    && p.maxThreadNum % PROTO_NUM == 0
    && p.idleThreadNum >= 0 && p.idleSocketThreadNum >= 0 && p.live >= 0 && p.liveSocket >= 0
    && p.idleThreadNum + p.live == p.maxThreadNum / PROTO_NUM
    && p.idleSocketThreadNum + p.liveSocket == p.maxThreadNum / PROTO_NUM
  }

  lemma StepConserves(p: Pool, e: Event)
    requires Conserved(p) && (e.Exit? ==> Live(p, e.proto) > 0)
    ensures Conserved(Next(p, e)) && p.maxThreadNum <= Next(p, e).maxThreadNum
  {
  }

  lemma {:induction false} RunConserves(events: seq<Event>)
    requires Legal(events)
    ensures Conserved(Run(events))
  {
    if events != [] {
      RunConserves(events[..|events| - 1]);
      StepConserves(Run(events[..|events| - 1]), events[|events| - 1]);
    }
  }

  // ----- the limit

  /** The greatest limit accepted so far. */
  function Greatest(events: seq<Event>): int {
    if events == [] then SET_MAX_THREADS_DEFAULT
    else
      var g, e := Greatest(events[..|events| - 1]), events[|events| - 1];
      if e.SetMax? && AcceptsMax(e.n) && e.n > g then e.n else g
  }

  lemma StepLimit(p: Pool, e: Event, g: int)
    ensures p.maxThreadNum == PROTO_NUM * g ==>
      Next(p, e).maxThreadNum == PROTO_NUM * if e.SetMax? && AcceptsMax(e.n) && e.n > g then e.n else g
  {
  }

  lemma {:induction false} RunLimit(events: seq<Event>)
    ensures Run(events).maxThreadNum == PROTO_NUM * Greatest(events)
    ensures Greatest(events) <= SET_MAX_THREADS_MAX
  {
    if events != [] {
      var front, e := events[..|events| - 1], events[|events| - 1];
      StepLimit(Run(front), e, Greatest(front));
      hide Next;
      RunLimit(front);
    }
  }

  lemma LiveBound(p: Pool, g: int)
    requires Conserved(p) && p.maxThreadNum == PROTO_NUM * g
    ensures p.live <= g && p.liveSocket <= g
    ensures p.idleThreadNum == g - p.live && p.idleSocketThreadNum == g - p.liveSocket
  {
  }

  /** Whatever the order of spawns, exits and limits, the limit in force is the greatest one
      accepted, and each protocol has at most that many live threads, so at most 16. */
  lemma LimitIsGreatest(events: seq<Event>)
    requires Legal(events)
    ensures Run(events).maxThreadNum == PROTO_NUM * Greatest(events)
    ensures Run(events).live <= Greatest(events) && Run(events).liveSocket <= Greatest(events)
    ensures Greatest(events) <= SET_MAX_THREADS_MAX
  {
    hide Run, Greatest, Legal, Conserved;
    RunConserves(events);
    RunLimit(events);
    LiveBound(Run(events), Greatest(events));
  }

  /** A spawn is refused as full exactly when as many threads of the protocol are live as the
      greatest accepted limit allows. */
  lemma SpawnRefusedWhenFull(events: seq<Event>, proto: int, created: bool)
    requires Legal(events) && (proto == IF_PROT_BINDER || proto == IF_PROT_DATABUS)
    ensures SpawnCode(Run(events), proto, created) == ERR_INVALID_PARAM <==>
      Live(Run(events), proto) == Greatest(events)
    ensures SpawnCode(Run(events), proto, created) == ERR_NONE <==>
      Live(Run(events), proto) < Greatest(events) && created
  {
    hide Run, Legal, Greatest, Conserved;
    RunConserves(events);
    RunLimit(events);
    LiveBound(Run(events), Greatest(events));
  }

  // ----- what spawns, exits and limits do

  predicate Known(proto: int) { proto == 0 || proto == 1 }

  /** A spawn succeeds exactly for a protocol with an idle slot when the thread can be made; it
      then turns one idle slot of that protocol into a live one and touches nothing else, and
      otherwise it changes nothing. */
  lemma SpawnTakesSlot(p: Pool, proto: int, other: int, created: bool)
    requires Known(other)
    ensures var d := Next(p, Spawn(proto, created));
      && (SpawnCode(p, proto, created) == ERR_NONE <==> Known(proto) && Idle(p, proto) > 0 && created)
      && d.maxThreadNum == p.maxThreadNum
      && (SpawnCode(p, proto, created) == ERR_NONE ==>
            && Idle(d, proto) == Idle(p, proto) - 1 && Live(d, proto) == Live(p, proto) + 1
            && (other != proto ==> Idle(d, other) == Idle(p, other) && Live(d, other) == Live(p, other)))
      && (SpawnCode(p, proto, created) != ERR_NONE ==> d == p)
  {
  }

  /** An exit gives one live slot of its protocol back and touches nothing else. */
  lemma ExitGivesSlot(p: Pool, proto: int, other: int)
    requires Known(proto) && Known(other)
    ensures var d := Next(p, Exit(proto));
      && d.maxThreadNum == p.maxThreadNum
      && Idle(d, proto) == Idle(p, proto) + 1 && Live(d, proto) == Live(p, proto) - 1
      && (other != proto ==> Idle(d, other) == Idle(p, other) && Live(d, other) == Live(p, other))
  {
  }

  /** A limit of 4 to 16 above the one in force gives both protocols that many slots more;
      any other changes nothing. */
  lemma LimitAddsSlots(p: Pool, n: int, g: int)
    requires p.maxThreadNum == 2 * g
    ensures var d := Next(p, SetMax(n));
      && (4 <= n <= 16 && n > g ==>
            && d.maxThreadNum == 2 * n
            && d.idleThreadNum == p.idleThreadNum + (n - g)
            && d.idleSocketThreadNum == p.idleSocketThreadNum + (n - g)
            && d.live == p.live && d.liveSocket == p.liveSocket)
      && (!(4 <= n <= 16 && n > g) ==> d == p)
  {
  }

  /** The two protocols are told apart by these fields. */
  lemma Protocols(p: Pool)
    ensures Idle(p, 0) == p.idleThreadNum && Idle(p, 1) == p.idleSocketThreadNum
    ensures Live(p, 0) == p.live && Live(p, 1) == p.liveSocket
  {
  }

  /** The spawns of a protocol in a run that returned ERR_NONE. */
  function Spawned(events: seq<Event>, proto: int): int {
    if events == [] then 0
    else
      var front, e := events[..|events| - 1], events[|events| - 1];
      Spawned(front, proto) +
      if e.Spawn? && e.proto == proto && SpawnCode(Run(front), proto, e.created) == ERR_NONE then 1 else 0
  }

  function Exited(events: seq<Event>, proto: int): int {
    if events == [] then 0
    else
      var front, e := events[..|events| - 1], events[|events| - 1];
      Exited(front, proto) + if e.Exit? && e.proto == proto then 1 else 0
  }

  lemma LiveStep(p: Pool, e: Event, proto: int)
    requires Known(proto)
    ensures Live(Next(p, e), proto) == Live(p, proto) +
      (if e.Spawn? && e.proto == proto && SpawnCode(p, proto, e.created) == ERR_NONE then 1 else 0) -
      (if e.Exit? && e.proto == proto then 1 else 0)
  {
  }

  /** Over every run the live threads of a protocol are the spawns of it that returned
      ERR_NONE less its exits, and the idle slots are what is left of the greatest limit. */
  lemma {:induction false} LiveIsSpawnedLessExited(events: seq<Event>, proto: int)
    requires Legal(events) && Known(proto)
    ensures Live(Run(events), proto) == Spawned(events, proto) - Exited(events, proto)
    ensures Idle(Run(events), proto) == Greatest(events) - (Spawned(events, proto) - Exited(events, proto))
  {
    if events != [] {
      var front, e := events[..|events| - 1], events[|events| - 1];
      LiveStep(Run(front), e, proto);
      hide Next;
      LiveIsSpawnedLessExited(front, proto);
    }
    IdleIsRest(events);
  }

  lemma IdleIsRest(events: seq<Event>)
    requires Legal(events)
    ensures Run(events).idleThreadNum == Greatest(events) - Run(events).live
    ensures Run(events).idleSocketThreadNum == Greatest(events) - Run(events).liveSocket
  {
    hide Run, Legal, Greatest, Conserved;
    RunConserves(events);
    RunLimit(events);
    LiveBound(Run(events), Greatest(events));
  }

  // ----- the counters as they are changed

  class Counters {
    var maxThreadNum: int
    var idleThreadNum: int
    var idleSocketThreadNum: int
    ghost var live: int
    ghost var liveSocket: int

    ghost function State(): Pool
      reads this
    {
      Pool(maxThreadNum, idleThreadNum, idleSocketThreadNum, live, liveSocket)
    }

    constructor (n: int)
      ensures State() == Init(n)
    {
      maxThreadNum, idleThreadNum, idleSocketThreadNum := n + n, n, n;
      live, liveSocket := 0, 0;
    }

    method SpawnNewThread(proto: int, created: bool) returns (ret: int)
      modifies this
      ensures State() == Next(old(State()), Spawn(proto, created))
      ensures ret == SpawnCode(old(State()), proto, created)
      ensures maxThreadNum == old(maxThreadNum)
      ensures idleThreadNum == old(idleThreadNum) - if ret == ERR_NONE && proto == 0 then 1 else 0
      ensures idleSocketThreadNum == old(idleSocketThreadNum) - if ret == ERR_NONE && proto == 1 then 1 else 0
      ensures Conserved(old(State())) ==> Conserved(State())
    {
      if !(proto == IF_PROT_BINDER && idleThreadNum > 0) && !(proto == IF_PROT_DATABUS && idleSocketThreadNum > 0) {
        return ERR_INVALID_PARAM;
      }
      if !created {
        return ERR_FAILED;
      }
      if proto == IF_PROT_BINDER {
        idleThreadNum, live := idleThreadNum - 1, live + 1;
      } else if proto == IF_PROT_DATABUS {
        idleSocketThreadNum, liveSocket := idleSocketThreadNum - 1, liveSocket + 1;
      }
      return ERR_NONE;
    }

    method ThreadContextDestructor(proto: int)
      requires Live(State(), proto) > 0
      modifies this
      ensures State() == Next(old(State()), Exit(proto))
      ensures Conserved(old(State())) ==> Conserved(State())
    {
      if proto == IF_PROT_BINDER {
        idleThreadNum, live := idleThreadNum + 1, live - 1;
      } else if proto == IF_PROT_DATABUS {
        idleSocketThreadNum, liveSocket := idleSocketThreadNum + 1, liveSocket - 1;
      }
    }

    method UpdateMaxThreadNum(n: int)
      modifies this
      ensures State() == UpdateMax(old(State()), n)
      ensures Conserved(old(State())) ==> Conserved(State())
    {
      var totalNum := n + n;
      var oldThreadNum := maxThreadNum;
      if totalNum <= oldThreadNum {
        return;
      }
      var diff := totalNum - oldThreadNum;
      maxThreadNum := totalNum;
      idleThreadNum := idleThreadNum + diff / PROTO_NUM;
      idleSocketThreadNum := idleSocketThreadNum + diff / PROTO_NUM;
    }

    method SetMaxWorkThreadNum(n: int) returns (accepted: bool)
      modifies this
      ensures State() == Next(old(State()), SetMax(n))
      ensures accepted <==> AcceptsMax(n)
      ensures Conserved(old(State())) ==> Conserved(State())
    {
      if n < SET_MAX_THREADS_DEFAULT || n > SET_MAX_THREADS_MAX {
        return false;
      }
      UpdateMaxThreadNum(n);
      return true;
    }
  }
}
