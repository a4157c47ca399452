/** Which queued request gets an answer, over whole runs of the server half. */
module DBinderServerRuns {
  import opened DBinderTypes
  import opened DBinderServer

  datatype Event =
    | Request(m: Message, adm: Admission, env: ReplyEnv)
    | Loaded(key: SaKey, found: bool, a: Answer, env: ReplyEnv)

  function Next(sv: Server, e: Event): Server {
    match e
    case Request(m, adm, env) => Receive(sv, m, adm, env)
    case Loaded(key, found, a, env) => Load(sv, key, found, a, env)
  }

  function Run(events: seq<Event>): Server {
    if events == [] then Start() else Next(Run(events[..|events| - 1]), events[|events| - 1])
  }

  /** The step queues a record. */
  predicate Queues(e: Event) {
    e.Request? && Accepts(e.m, e.adm)
  }

  /** A request is refused while an older one for the same key is pending. */
  predicate Displaces(sv: Server, e: Event) {
    && Queues(e) && !e.adm.available
    && FirstOf(sv.pending, KeyOf(Amend(e.m).value)) < |sv.pending|
  }

  /** The record such a step takes off the queue. */
  function Displaced(sv: Server, e: Event): nat
    requires Displaces(sv, e)
  {
    sv.pending[FirstOf(sv.pending, KeyOf(Amend(e.m).value))].id
  }

  // ----- counting records

  function Hit(a: nat, b: nat): nat { if a == b then 1 else 0 }

  /** How often a record stands in a queue. */
  function Count(q: seq<Record>, id: nat): nat {
    if q == [] then 0 else Hit(q[0].id, id) + Count(q[1..], id)
  }

  lemma {:induction false} CountPush(q: seq<Record>, r: Record, id: nat)
    ensures Count(q + [r], id) == Count(q, id) + Hit(r.id, id)
  {
    if q == [] {
      assert q + [r] == [r];
    } else {
      assert (q + [r])[1..] == q[1..] + [r];
      CountPush(q[1..], r, id);
    }
  }

  lemma {:induction false} CountRemove(q: seq<Record>, i: nat, id: nat)
    requires i < |q|
    ensures Count(RemoveAt(q, i), id) + Hit(q[i].id, id) == Count(q, id)
  {
    if i == 0 {
      assert RemoveAt(q, i) == q[1..];
    } else {
      CountRemove(q[1..], i - 1, id);
      assert RemoveAt(q, i)[1..] == RemoveAt(q[1..], i - 1);
    }
  }

  lemma {:induction false} CountIn(q: seq<Record>, id: nat)
    ensures Count(q, id) > 0 <==> exists i :: 0 <= i < |q| && q[i].id == id
  {
    if q != [] {
      CountIn(q[1..], id);
      if i :| 0 <= i < |q| && q[i].id == id {
        assert i > 0 ==> q[1..][i - 1].id == id;
      }
      if i :| 0 <= i < |q| - 1 && q[1..][i].id == id {
        assert q[i + 1].id == id;
      }
    }
  }

  /** How often a record was answered or is pending. */
  function Sum(sv: Server, id: nat): nat {
    sv.replies[id] + Count(sv.pending, id)
  }

  function Issued(sv: Server, e: Event, id: nat): nat {
    if Queues(e) then Hit(sv.nextRecord, id) else 0
  }

  lemma LoadSum(sv: Server, e: Event, id: nat)
    requires e.Loaded?
    ensures var d := Next(sv, e);
      Sum(d, id) == Sum(sv, id) && sv.replies[id] <= d.replies[id] && d.nextRecord == sv.nextRecord
  {
    hide Count, Verdict, Granted, Marked;
    var i := FirstOf(sv.pending, e.key);
    if i < |sv.pending| {
      CountRemove(sv.pending, i, id);
    }
  }

  lemma ReceiveSum(sv: Server, e: Event, id: nat)
    requires Queues(e)
    ensures var d := Next(sv, e);
      && d.nextRecord == sv.nextRecord + 1 && sv.replies[id] <= d.replies[id]
      && (if Displaces(sv, e) then Sum(d, id) + Hit(Displaced(sv, e), id) == Sum(sv, id) + 2 * Hit(sv.nextRecord, id)
          else Sum(d, id) == Sum(sv, id) + Hit(sv.nextRecord, id))
      && Count(d.pending, id) <= Count(sv.pending, id) + Hit(sv.nextRecord, id)
  {
    hide Count, Marked, KeyOf, Amend;
    var r := Record(sv.nextRecord, Amend(e.m).value);
    CountPush(sv.pending, r, id);
    if Displaces(sv, e) {
      var i := FirstOf(sv.pending, KeyOf(r.msg));
      var marked := r.(msg := Marked(r.msg, MESSAGE_AS_REMOTE_ERROR, DBINDER_SA_NOT_AVAILABLE, e.env.listening));
      CountRemove(sv.pending, i, id);
      CountPush(RemoveAt(sv.pending, i), marked, id);
    }
  }

  /** A step counts every record once when it is queued, and only a displacing step counts
      the new record twice and the displaced one less. */
  lemma StepSum(sv: Server, e: Event, id: nat)
    ensures var d := Next(sv, e);
      && sv.replies[id] <= d.replies[id]
      && Count(d.pending, id) <= Count(sv.pending, id) + Issued(sv, e, id)
      && (if Displaces(sv, e) then Sum(d, id) + Hit(Displaced(sv, e), id) == Sum(sv, id) + 2 * Hit(sv.nextRecord, id)
          else Sum(d, id) == Sum(sv, id) + Issued(sv, e, id))
      && d.nextRecord == sv.nextRecord + if Queues(e) then 1 else 0
  {
    if e.Loaded? {
      LoadSum(sv, e, id);
    } else if Queues(e) {
      ReceiveSum(sv, e, id);
    }
  }

  // ----- runs

  /** A record is pending at most once, and only records handed out are pending or answered. */
  ghost predicate IdInv(sv: Server, id: nat) {
    Count(sv.pending, id) <= 1 && (id >= sv.nextRecord ==> Sum(sv, id) == 0)
  }

  lemma {:induction false} RunIds(events: seq<Event>, id: nat)
    ensures IdInv(Run(events), id)
  {
    if events != [] {
      var front, e := events[..|events| - 1], events[|events| - 1];
      RunIds(front, id);
      RunIds(front, Run(front).nextRecord);
      StepSum(Run(front), e, id);
      if Displaces(Run(front), e) {
        DisplacedWaits(front, e);
      }
      hide Next, Count, Displaces;
    }
  }

  /** A displaced record was pending, and not the one that comes. */
  lemma DisplacedWaits(events: seq<Event>, e: Event)
    requires Displaces(Run(events), e)
    ensures Count(Run(events).pending, Displaced(Run(events), e)) > 0
  {
    CountIn(Run(events).pending, Displaced(Run(events), e));
  }

  predicate Pending(sv: Server, id: nat) {
    exists i :: 0 <= i < |sv.pending| && sv.pending[i].id == id
  }

  /** Every record still waits unanswered, or has left the queue and was answered once. */
  ghost predicate OneAnswerEach(sv: Server) {
    forall id :: 0 <= id < sv.nextRecord ==> sv.replies[id] == if Pending(sv, id) then 0 else 1
  }

  /** Step k of the run displaces a record. */
  ghost predicate DisplacesAt(events: seq<Event>, k: nat)
    requires k < |events|
  {
    Displaces(Run(events[..k]), events[k])
  }

  ghost predicate Undisturbed(events: seq<Event>) {
    forall k :: 0 <= k < |events| ==> !DisplacesAt(events, k)
  }

  lemma SameStep(events: seq<Event>, k: nat)
    requires k < |events|
    ensures var n := |events| - 1;
      if k < n then DisplacesAt(events, k) == DisplacesAt(events[..n], k)
      else DisplacesAt(events, k) == Displaces(Run(events[..n]), events[n])
  {
    hide Displaces, Run;
    assert k < |events| - 1 ==> events[..|events| - 1][..k] == events[..k];
  }

  lemma UndisturbedStep(events: seq<Event>)
    requires events != []
    ensures var front, e := events[..|events| - 1], events[|events| - 1];
      Undisturbed(events) <==> Undisturbed(front) && !Displaces(Run(front), e)
  {
    hide Displaces, Run, DisplacesAt;
    var n := |events| - 1;
    forall k | 0 <= k < n ensures DisplacesAt(events[..n], k) == DisplacesAt(events, k) {
      SameStep(events, k);
    }
    SameStep(events, n);
    if Undisturbed(events) {
      assert !DisplacesAt(events, n);
    }
  }

  /** As long as nothing is displaced, every record counts once. */
  lemma {:induction false} AllCountOnce(events: seq<Event>, id: nat)
    requires Undisturbed(events) && id < Run(events).nextRecord
    ensures Sum(Run(events), id) == 1
  {
    if events != [] {
      var front, e := events[..|events| - 1], events[|events| - 1];
      UndisturbedStep(events);
      StepSum(Run(front), e, id);
      RunIds(front, id);
      hide Next, Count, Displaces, Undisturbed;
      if id < Run(front).nextRecord {
        AllCountOnce(front, id);
      }
    }
  }

  /** The first displaced record counts no more, in whatever follows. */
  lemma {:induction false} SomeIsLost(events: seq<Event>) returns (id: nat)
    requires !Undisturbed(events)
    ensures id < Run(events).nextRecord && Sum(Run(events), id) == 0
  {
    var front, e := events[..|events| - 1], events[|events| - 1];
    UndisturbedStep(events);
    if Undisturbed(front) {
      id := Displaced(Run(front), e);
      DisplacedWaits(front, e);
      RunIds(front, id);
      AllCountOnce(front, id);
    } else {
      id := SomeIsLost(front);
    }
    StepSum(Run(front), e, id);
    hide Next, Count, Displaces, Undisturbed;
  }

  lemma CountsOnce(events: seq<Event>, id: nat)
    requires id < Run(events).nextRecord
    ensures var sv := Run(events); Sum(sv, id) == 1 <==> sv.replies[id] == if Pending(sv, id) then 0 else 1
  {
    RunIds(events, id);
    CountIn(Run(events).pending, id);
    hide Run, Count;
  }

  /** Every queued record waits unanswered until it leaves the queue and is then answered
      exactly once, if and only if no request was ever refused while an older one for the
      same device and ability was pending. */
  lemma OneAnswerEachIffUndisturbed(events: seq<Event>)
    ensures OneAnswerEach(Run(events)) <==> Undisturbed(events)
  {
    hide Run, Sum, Undisturbed, Pending;
    if Undisturbed(events) {
      forall id | 0 <= id < Run(events).nextRecord
        ensures Run(events).replies[id] == if Pending(Run(events), id) then 0 else 1
      {
        AllCountOnce(events, id);
        CountsOnce(events, id);
      }
    } else {
      var id := SomeIsLost(events);
      CountsOnce(events, id);
    }
  }

  /** In a step of a run, as many answers go to each record as it leaves the queue, if and
      only if the step does not displace one. */
  lemma StepAnswersWhatLeaves(events: seq<Event>, e: Event)
    ensures var sv, d := Run(events), Next(Run(events), e);
      (forall id: nat :: d.replies[id] - sv.replies[id] ==
                         Count(sv.pending, id) + Issued(sv, e, id) - Count(d.pending, id)) <==> !Displaces(sv, e)
  {
    var sv := Run(events);
    forall id: nat ensures Next(sv, e).replies[id] + Count(Next(sv, e).pending, id) == Sum(Next(sv, e), id) {
    }
    if Displaces(sv, e) {
      var m := Displaced(sv, e);
      DisplacedWaits(events, e);
      RunIds(events, m);
      StepSum(sv, e, m);
    } else {
      forall id: nat ensures Sum(Next(sv, e), id) == Sum(sv, id) + Issued(sv, e, id) {
        StepSum(sv, e, id);
      }
    }
  }

  /** A record that is not pending stays so, with the answers it has had. */
  lemma GoneStep(sv: Server, e: Event, m: nat)
    requires Count(sv.pending, m) == 0 && m < sv.nextRecord
    ensures var d := Next(sv, e); Count(d.pending, m) == 0 && d.replies[m] == sv.replies[m] && m < d.nextRecord
  {
    StepSum(sv, e, m);
    hide Next, Count, Displaces;
  }

  lemma DisplacedStep(events: seq<Event>, e: Event)
    requires Displaces(Run(events), e)
    ensures var sv, d, m := Run(events), Next(Run(events), e), Displaced(Run(events), e);
      Count(d.pending, m) == 0 && d.replies[m] == sv.replies[m] && m < d.nextRecord
  {
    var m := Displaced(Run(events), e);
    DisplacedWaits(events, e);
    RunIds(events, m);
    StepSum(Run(events), e, m);
    hide Next, Count, Displaces, Run;
  }

  /** A displaced record is never pending again and gets no further answer. */
  lemma {:induction false} DisplacedIsLost(events: seq<Event>, i: nat, j: nat)
    requires i < j <= |events| && Displaces(Run(events[..i]), events[i])
    ensures var m := Displaced(Run(events[..i]), events[i]);
      && m < Run(events[..j]).nextRecord
      && Count(Run(events[..j]).pending, m) == 0 && !Pending(Run(events[..j]), m)
      && Run(events[..j]).replies[m] == Run(events[..i]).replies[m]
    decreases j
  {
    hide Next, Count, Displaces;
    var m := Displaced(Run(events[..i]), events[i]);
    assert Run(events[..j]) == Next(Run(events[..j - 1]), events[j - 1]) by {
      assert events[..j][..j - 1] == events[..j - 1];
    }
    if j == i + 1 {
      DisplacedStep(events[..i], events[i]);
    } else {
      DisplacedIsLost(events, i, j - 1);
      GoneStep(Run(events[..j - 1]), events[j - 1], m);
    }
    CountIn(Run(events[..j]).pending, m);
  }

  // ----- a run that loses a request

  const ASKED: Message :=
    Message(2, DATABUS_TYPE, MESSAGE_AS_INVOKER, 0, 0, 1, 1, 1, 0, "a", "b", 1, 0, ZeroBuffer(), 0, 0)

  /** The first request waits for its ability; the second cannot be served and takes the
      first one's place: record 0 has left the queue and was never answered. */
  lemma RequestIsLost() returns (events: seq<Event>)
    ensures var sv := Run(events);
      0 < sv.nextRecord && !Pending(sv, 0) && sv.replies[0] == 0 && !Undisturbed(events)
  {
    var first := Request(ASKED, Admission(true, true), ReplyEnv(true, true));
    var second := Request(ASKED, Admission(true, false), ReplyEnv(true, true));
    events := [first, second];
    assert Amend(ASKED) == Some(ASKED);
    assert [first][..0] == [] && events[..1] == [first] && events[|events| - 1] == second;
    var sv := Run([first]);
    assert Run([]) == Start() && sv == Next(Start(), first);
    assert sv.pending == [Record(0, ASKED)];
    assert Run(events) == Next(sv, second);
    assert Run(events).pending == [Record(1, Marked(ASKED, MESSAGE_AS_REMOTE_ERROR, DBINDER_SA_NOT_AVAILABLE, true))];
    assert DisplacesAt(events, 1);
  }
}
