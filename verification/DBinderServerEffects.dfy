/** What the server half does, said on message fields: whose requests a loaded ability
    answers, what the answers say, and what makes a request be granted. */
module DBinderServerEffects {
  import opened DBinderTypes
  import opened DBinderServer

  // ----- whose requests are answered

  /** The record was asked by this device for this ability. */
  predicate Waits(r: Record, device: string, ability: int) {
    r.msg.fromDeviceId == device && ToInt32(r.msg.binderObject) == ability
  }

  /** The queue without those records, in order. */
  function Rest(q: seq<Record>, device: string, ability: int): seq<Record> {
    if q == [] then []
    else if Waits(q[0], device, ability) then Rest(q[1..], device, ability)
    else [q[0]] + Rest(q[1..], device, ability)
  }

  /** How many there are. */
  function Waiting(q: seq<Record>, device: string, ability: int): nat {
    if q == [] then 0 else Waiting(q[1..], device, ability) + if Waits(q[0], device, ability) then 1 else 0
  }

  /** Draining a key leaves exactly the records of other devices or abilities, in order, and
      takes one turn per record drained. */
  lemma {:induction false} DrainTakesWaiting(q: seq<Record>, key: SaKey)
    ensures Others(q, key) == Rest(q, key.device, key.ability)
    ensures Tally(q)[key] == Waiting(q, key.device, key.ability)
    ensures forall r :: r in Others(q, key) <==> r in q && !Waits(r, key.device, key.ability)
  {
    if q != [] {
      DrainTakesWaiting(q[1..], key);
      assert forall r :: r in q <==> r == q[0] || r in q[1..];
    }
  }

  /** The first record taken for a key was asked by its device for its ability, and no older
      one was. */
  lemma FirstIsOldest(q: seq<Record>, key: SaKey)
    ensures var i := FirstOf(q, key);
      && (i < |q| ==> Waits(q[i], key.device, key.ability))
      && (forall j :: 0 <= j < i ==> !Waits(q[j], key.device, key.ability))
  {
  }

  // ----- requests that arrive

  /** The signed 32-bit value of a field: in range and equal to it modulo 2^32. */
  lemma Int32Meaning(x: nat)
    ensures -0x8000_0000 <= ToInt32(x) < 0x8000_0000
    ensures (x - ToInt32(x)) % 0x1_0000_0000 == 0
  {
  }

  /** A request is amended so that both its fields name one valid ability, the stub index's if
      that is valid and else the binder object's; nothing else of it changes. */
  lemma AmendedNamesOneAbility(m: Message)
    ensures var byIndex, byObject := ToInt32(m.stubIndex), ToInt32(m.binderObject);
      && (Amend(m).Some? <==> 1 <= byIndex <= 0xffffff || 1 <= byObject <= 0xffffff)
      && (Amend(m).Some? ==>
            var a := Amend(m).value;
            && ToInt32(a.binderObject) == (if 1 <= byIndex <= 0xffffff then byIndex else byObject)
            && ToInt32(a.stubIndex) == ToInt32(a.binderObject)
            && a.(stubIndex := m.stubIndex, binderObject := m.binderObject) == m)
  {
  }

  /** A request that names a valid, distributed and available ability is queued last as a new
      record and not answered yet. */
  lemma AcceptedIsQueued(sv: Server, m: Message, adm: Admission, env: ReplyEnv)
    requires Amend(m).Some? && adm.distributed && adm.available
    ensures var d := Receive(sv, m, adm, env);
      && d.pending == sv.pending + [Record(sv.nextRecord, Amend(m).value)] && d.nextRecord == sv.nextRecord + 1
      && d.replies == sv.replies && d.proxies == sv.proxies && d.granted == sv.granted
      && ReceiveSends(m, adm, env) == None
  {
  }

  /** Any other request is answered at once, to the asker, with the error code and the reason
      in the transport field, if there is a listener and the reply gets through. */
  lemma RejectedIsToldWhy(sv: Server, m: Message, adm: Admission, env: ReplyEnv)
    requires !(Amend(m).Some? && adm.distributed && adm.available)
    ensures (ReceiveSends(m, adm, env).Some? <==> env.listening && env.delivered)
    ensures ReceiveSends(m, adm, env).Some? ==>
      var p := ReceiveSends(m, adm, env).value;
      && p.to == m.fromDeviceId && p.msg.fromDeviceId == m.fromDeviceId && p.msg.toDeviceId == m.toDeviceId
      && p.msg.seqNumber == m.seqNumber && p.msg.stub == m.stub && p.msg.code == MESSAGE_AS_REMOTE_ERROR
      && p.msg.transType == (if Amend(m).None? then DBINDER_SAID_INVALID
                             else if !adm.distributed then DBINDER_SA_NOT_DISTRUBUTED
                             else DBINDER_SA_NOT_AVAILABLE)
    ensures Amend(m).None? || !adm.distributed ==> Receive(sv, m, adm, env) == sv
  {
  }

  /** A request whose ability is not available takes the oldest one of its device and ability
      out of the queue; then it stays itself, with the error code and the reason in it if a
      listener was there and as it came if not. Without an older one the queue is unchanged. */
  lemma UnavailableTakesOldest(sv: Server, m: Message, adm: Admission, env: ReplyEnv, i: nat)
    requires Amend(m).Some? && adm.distributed && !adm.available && i <= |sv.pending|
    requires var a := Amend(m).value;
      && (forall j :: 0 <= j < i ==> !Waits(sv.pending[j], a.fromDeviceId, ToInt32(a.binderObject)))
      && (i < |sv.pending| ==> Waits(sv.pending[i], a.fromDeviceId, ToInt32(a.binderObject)))
    ensures var a := Amend(m).value; var d := Receive(sv, m, adm, env);
      && (i == |sv.pending| ==> d.pending == sv.pending)
      && (i < |sv.pending| ==>
            d.pending == sv.pending[..i] + sv.pending[i + 1..] +
              [Record(sv.nextRecord,
                      if env.listening then a.(code := MESSAGE_AS_REMOTE_ERROR, transType := DBINDER_SA_NOT_AVAILABLE)
                      else a)])
      && d.nextRecord == sv.nextRecord + 1 && d.replies == sv.replies + multiset{sv.nextRecord}
  {
    var a := Amend(m).value;
    FirstIsOldest(sv.pending, KeyOf(a));
    assert FirstOf(sv.pending, KeyOf(a)) == i;
  }

  // ----- answers

  /** A request is granted exactly when the ability was found and is watched, the request is a
      databus one from a legal device, and the ability named its session, was asked and
      answered with an index and a name of 1 to 200 characters. */
  lemma GrantedExactly(m: Message, known: bool, found: bool, a: Answer)
    ensures Verdict(m, known, found, a) == 0 <==>
      && found && (known || a.deathAccepted)
      && m.transType == DATABUS_TYPE && 0 < |m.fromDeviceId| <= 64
      && a.named && a.written && a.invoked
      && a.stubIndex != 0 && 0 < |a.sessionName| <= 200
    ensures Verdict(m, known, found, a) == DBINDER_SA_NOT_FOUND <==> !found || !(known || a.deathAccepted)
  {
  }

  /** In a turn the oldest request of the key is answered to its asker, under its number and
      tag: a grant with the index and the terminated name of the ability, a refusal with the
      error code and the reason. */
  lemma TurnAnswersOldest(sv: Server, key: SaKey, found: bool, a: Answer, env: ReplyEnv, i: nat)
    requires i < |sv.pending| && Waits(sv.pending[i], key.device, key.ability)
    requires forall j :: 0 <= j < i ==> !Waits(sv.pending[j], key.device, key.ability)
    ensures var r := sv.pending[i]; var sent := LoadSends(sv, key, found, a, env);
      var verdict := Verdict(r.msg, key.ability in sv.proxies, found, a);
      && Load(sv, key, found, a, env).pending == sv.pending[..i] + sv.pending[i + 1..]
      && Load(sv, key, found, a, env).replies == sv.replies + multiset{r.id}
      && (sent.Some? <==> env.listening && env.delivered)
      && (sent.Some? ==>
            && sent.value.to == r.msg.fromDeviceId && sent.value.msg.seqNumber == r.msg.seqNumber
            && sent.value.msg.stub == r.msg.stub && sent.value.msg.fromDeviceId == r.msg.fromDeviceId
            && sent.value.msg.toDeviceId == r.msg.toDeviceId)
      && (sent.Some? && verdict == 0 ==>
            && var name := sent.value.msg.serviceName;
               && name[..|a.sessionName|] == a.sessionName && name[|a.sessionName|] == '\0'
               && sent.value.msg == r.msg.(version := 2, code := MESSAGE_AS_REPLY, stubIndex := a.stubIndex,
                                           serviceNameLength := |a.sessionName|, tokenId := a.tokenId,
                                           serviceName := name))
      && (sent.Some? && verdict != 0 ==>
            sent.value.msg == r.msg.(code := MESSAGE_AS_REMOTE_ERROR, transType := verdict))
  {
    FirstIsOldest(sv.pending, key);
    assert FirstOf(sv.pending, key) == i;
  }

  /** Without a request of the key a turn does nothing. */
  lemma NothingToAnswer(sv: Server, key: SaKey, found: bool, a: Answer, env: ReplyEnv)
    requires forall r :: r in sv.pending ==> !Waits(r, key.device, key.ability)
    ensures Load(sv, key, found, a, env) == sv && LoadSends(sv, key, found, a, env) == None
  {
    FirstIsOldest(sv.pending, key);
  }

  /** An ability that was not found, or was neither known nor let itself be watched, is no more
      known than before. */
  lemma UnwatchedStaysUnknown(sv: Server, key: SaKey, found: bool, a: Answer, env: ReplyEnv)
    requires !found || (key.ability !in sv.proxies && !a.deathAccepted)
    ensures Load(sv, key, found, a, env).proxies == sv.proxies
  {
    FirstIsOldest(sv.pending, key);
  }

  /** An ability that was found and let itself be watched is known from then on: later requests
      for it do not depend on another registration. */
  lemma KnownStaysKnown(sv: Server, key: SaKey, a: Answer, env: ReplyEnv, m: Message, b: Answer)
    requires exists r :: r in sv.pending && Waits(r, key.device, key.ability)
    requires key.ability in sv.proxies || a.deathAccepted
    ensures var d := Load(sv, key, true, a, env);
      && d.proxies == sv.proxies + {key.ability}
      && Verdict(m, key.ability in d.proxies, true, b) == Verdict(m, true, true, b.(deathAccepted := true))
  {
    FirstIsOldest(sv.pending, key);
  }

  // ----- a whole drain

  /** The identities of the waiting records. */
  function WaitIds(q: seq<Record>, device: string, ability: int): multiset<nat> {
    if q == [] then multiset{}
    else WaitIds(q[1..], device, ability) + if Waits(q[0], device, ability) then multiset{q[0].id} else multiset{}
  }

  /** The turns whose reply gets through. */
  function Delivered(turns: seq<(Answer, ReplyEnv)>): nat {
    if turns == [] then 0
    else
      var env := turns[|turns| - 1].1;
      Delivered(turns[..|turns| - 1]) + if env.listening && env.delivered then 1 else 0
  }

  lemma {:induction false} RemovingOne(q: seq<Record>, i: nat, device: string, ability: int)
    requires i < |q| && Waits(q[i], device, ability)
    ensures Waiting(q[..i] + q[i + 1..], device, ability) + 1 == Waiting(q, device, ability)
    ensures Rest(q[..i] + q[i + 1..], device, ability) == Rest(q, device, ability)
    ensures WaitIds(q[..i] + q[i + 1..], device, ability) + multiset{q[i].id} == WaitIds(q, device, ability)
  {
    if i == 0 {
      assert q[..0] + q[1..] == q[1..];
    } else {
      var less := q[..i] + q[i + 1..];
      assert less[1..] == q[1..][..i - 1] + q[1..][i..];
      RemovingOne(q[1..], i - 1, device, ability);
    }
  }

  lemma {:induction false} SomeWaits(q: seq<Record>, device: string, ability: int) returns (i: nat)
    requires Waiting(q, device, ability) > 0
    ensures i < |q| && Waits(q[i], device, ability) && forall j :: 0 <= j < i ==> !Waits(q[j], device, ability)
  {
    if Waits(q[0], device, ability) {
      i := 0;
    } else {
      i := SomeWaits(q[1..], device, ability);
      assert forall j :: 0 < j <= i ==> q[j] == q[1..][j - 1];
      i := i + 1;
    }
  }

  lemma {:induction false} NoIdsLeft(q: seq<Record>, device: string, ability: int)
    requires Waiting(q, device, ability) == 0
    ensures WaitIds(q, device, ability) == multiset{}
  {
    if q != [] {
      NoIdsLeft(q[1..], device, ability);
    }
  }

  /** One turn on a queue where some record waits. */
  lemma OneTurn(sv: Server, key: SaKey, found: bool, a: Answer, env: ReplyEnv)
    requires Waiting(sv.pending, key.device, key.ability) > 0
    ensures var d := Load(sv, key, found, a, env); var sent := LoadSends(sv, key, found, a, env);
      && Waiting(d.pending, key.device, key.ability) + 1 == Waiting(sv.pending, key.device, key.ability)
      && Rest(d.pending, key.device, key.ability) == Rest(sv.pending, key.device, key.ability)
      && d.replies + WaitIds(d.pending, key.device, key.ability) ==
           sv.replies + WaitIds(sv.pending, key.device, key.ability)
      && (sent.Some? <==> env.listening && env.delivered) && (sent.Some? ==> sent.value.to == key.device)
  {
    var i := SomeWaits(sv.pending, key.device, key.ability);
    TurnAnswersOldest(sv, key, found, a, env, i);
    RemovingOne(sv.pending, i, key.device, key.ability);
    hide Load, LoadSends, Rest, Waiting, WaitIds, Verdict;
  }

  /** A drain with one turn per waiting record answers each of those records once and no
      other, sends the asking device one reply for each turn whose reply gets through, and
      leaves exactly the rest of the queue. */
  lemma {:induction false} DrainAnswersEach(sv: Server, key: SaKey, found: bool, turns: seq<(Answer, ReplyEnv)>)
    requires |turns| <= Waiting(sv.pending, key.device, key.ability)
    ensures var d := LoadAll(sv, key, found, turns); var sent := LoadAllSends(sv, key, found, turns);
      && Waiting(d.pending, key.device, key.ability) + |turns| == Waiting(sv.pending, key.device, key.ability)
      && Rest(d.pending, key.device, key.ability) == Rest(sv.pending, key.device, key.ability)
      && d.replies + WaitIds(d.pending, key.device, key.ability) ==
           sv.replies + WaitIds(sv.pending, key.device, key.ability)
      && (|turns| == Waiting(sv.pending, key.device, key.ability) ==>
            d.replies == sv.replies + WaitIds(sv.pending, key.device, key.ability))
      && |sent| == Delivered(turns) && forall p :: p in sent ==> p.to == key.device
  {
    hide Load, LoadSends, Rest, Waiting, WaitIds;
    if turns != [] {
      var front, last := turns[..|turns| - 1], turns[|turns| - 1];
      DrainAnswersEach(sv, key, found, front);
      OneTurn(LoadAll(sv, key, found, front), key, found, last.0, last.1);
    }
    if |turns| == Waiting(sv.pending, key.device, key.ability) {
      NoIdsLeft(LoadAll(sv, key, found, turns).pending, key.device, key.ability);
    }
  }
}
