/** The server half of a DBinder service: requests wait in a queue until their system
    ability is loaded, then the same record travels back as the reply. */
module DBinderServer {
  import opened DBinderTypes

  /** What a queued request waits for: the asking device and the system ability. */
  datatype SaKey = SaKey(device: string, ability: int)

  /** A queued DHandleEntryTxRx object: its identity and what it holds now. */
  datatype Record = Record(id: nat, msg: Message)

  datatype Server = Server(
    nextRecord: nat,                // identity of the next queued record
    pending: seq<Record>,           // loadSaReply_
    proxies: set<int>,              // keys of proxyObject_
    // history, read by no step:
    queued: multiset<SaKey>,        // every request ever queued
    answered: multiset<SaKey>,      // every reply attempt for a queued request
    replies: multiset<nat>,         // the records those attempts were for
    granted: set<Message>)          // every success reply made

  function Start(): Server { Server(0, [], {}, multiset{}, multiset{}, multiset{}, {}) }

  /** What the ability manager and the ability itself answer to one request. */
  datatype Answer = Answer(
    deathAccepted: bool,            // AddDeathRecipient on the ability
    named: bool,                    // the ability has a session name
    written: bool,                  // the parcel was filled
    invoked: bool,                  // InvokeListenThread succeeded
    stubIndex: nat,
    sessionName: string,
    tokenId: nat)

  datatype ReplyEnv = ReplyEnv(listening: bool, delivered: bool)

  function KeyOf(m: Message): SaKey {
    SaKey(m.fromDeviceId, ToInt32(m.binderObject))
  }

  predicate ValidAbility(id: int) {
    FIRST_SYS_ABILITY_ID <= id <= LAST_SYS_ABILITY_ID
  }

  /** CheckAndAmendSaId: two names for the ability are made to agree, the stub index wins. */
  function Amend(m: Message): Option<Message> {
    var byIndex, byObject := ToInt32(m.stubIndex), ToInt32(m.binderObject);
    if ValidAbility(byIndex) then
      Some(if byIndex != byObject then m.(binderObject := m.stubIndex) else m)
    else if ValidAbility(byObject) then Some(m.(stubIndex := m.binderObject))
    else None
  }

  /** The record after SendReplyMessageToRemote; without a listener it is left as it was. */
  function Marked(m: Message, code: nat, reason: nat, listening: bool): Message {
    m.(code := if listening then code else m.code,
       transType := if listening && code == MESSAGE_AS_REMOTE_ERROR then reason else m.transType)
  }

  function ReplyPacket(m: Message, code: nat, reason: nat, env: ReplyEnv): Option<Packet> {
    if env.listening && env.delivered then Some(Packet(m.fromDeviceId, Marked(m, code, reason, true)))
    else None
  }

  /** Where the first request with this key stands; the length when there is none. */
  function FirstOf(q: seq<Record>, key: SaKey): (i: nat)
    ensures i <= |q|
    ensures i < |q| ==> KeyOf(q[i].msg) == key
    ensures forall j :: 0 <= j < i ==> KeyOf(q[j].msg) != key
  {
    if q == [] then 0
    else if KeyOf(q[0].msg) == key then 0
    else 1 + FirstOf(q[1..], key)
  }

  function RemoveAt<T>(q: seq<T>, i: nat): seq<T>
    requires i < |q|
  {
    q[..i] + q[i + 1..]
  }

  // ----- a request arrives

  datatype Admission = Admission(distributed: bool, available: bool)

  predicate Accepts(m: Message, adm: Admission) {
    Amend(m).Some? && adm.distributed
  }

  /** The queue when the ability cannot be loaded: the request was pushed and the first
      request with its key was popped. If that is an older one, the new record stays queued,
      already marked with the error it was refused with. */
  function Refuse(q: seq<Record>, r: Record, listening: bool): seq<Record> {
    var i := FirstOf(q, KeyOf(r.msg));
    if i < |q|
    then RemoveAt(q, i) +
         [r.(msg := Marked(r.msg, MESSAGE_AS_REMOTE_ERROR, DBINDER_SA_NOT_AVAILABLE, listening))]
    else q
  }

  function Receive(sv: Server, m: Message, adm: Admission, env: ReplyEnv): Server {
    if !Accepts(m, adm) then sv
    else
      var r := Record(sv.nextRecord, Amend(m).value);
      sv.(nextRecord := sv.nextRecord + 1,
          pending := if adm.available then sv.pending + [r] else Refuse(sv.pending, r, env.listening),
          queued := sv.queued + multiset{KeyOf(r.msg)},
          answered := if adm.available then sv.answered else sv.answered + multiset{KeyOf(r.msg)},
          replies := if adm.available then sv.replies else sv.replies + multiset{r.id})
  }

  function ReceiveSends(m: Message, adm: Admission, env: ReplyEnv): Option<Packet> {
    match Amend(m)
    case None => ReplyPacket(m, MESSAGE_AS_REMOTE_ERROR, DBINDER_SAID_INVALID, env)
    case Some(a) =>
      if !adm.distributed then ReplyPacket(a, MESSAGE_AS_REMOTE_ERROR, DBINDER_SA_NOT_DISTRUBUTED, env)
      else if !adm.available then ReplyPacket(a, MESSAGE_AS_REMOTE_ERROR, DBINDER_SA_NOT_AVAILABLE, env)
      else None
  }

  // ----- the ability is loaded

  predicate UsableName(a: Answer) {
    a.stubIndex != 0 && 0 < |a.sessionName| <= SERVICENAME_LENGTH
  }

  /** 0 when the request is granted, else the reason it is refused. */
  function Verdict(m: Message, known: bool, found: bool, a: Answer): nat {
    if !found || (!known && !a.deathAccepted) then DBINDER_SA_NOT_FOUND
    else if m.transType != DATABUS_TYPE then DBINDER_SA_INVOKE_FAILED
    else if IllegalDevice(m.fromDeviceId) then DBINDER_DEVICEID_INVALID
    else if !a.named then DBINDER_SESSION_NAME_NOT_FOUND
    else if !a.written then DBINDER_WRITE_PARCEL_FAILED
    else if !a.invoked then DBINDER_INVOKE_STUB_THREAD_FAILED
    else if !UsableName(a) then DBINDER_SESSION_NAME_INVALID
    else 0
  }

  /** SetReplyMessage: the name is copied into the fixed buffer and terminated. */
  function Granted(m: Message, a: Answer): Message
    requires |a.sessionName| <= SERVICENAME_LENGTH
  {
    m.(version := RPC_TOKENID_SUPPORT_VERSION,
       code := if m.version >= RPC_TOKENID_SUPPORT_VERSION then MESSAGE_AS_REPLY_TOKENID else MESSAGE_AS_REPLY,
       stubIndex := a.stubIndex,
       serviceNameLength := |a.sessionName|,
       tokenId := a.tokenId,
       serviceName := a.sessionName + "\0" + m.serviceName[|a.sessionName| + 1..])
  }

  /** The record sent back for a popped request and the code it is sent with. */
  function Outcome(m: Message, known: bool, found: bool, a: Answer): Message {
    if Verdict(m, known, found, a) == 0 then Granted(m, a) else m
  }

  function OutcomeCode(verdict: nat): nat {
    if verdict == 0 then MESSAGE_AS_REPLY else MESSAGE_AS_REMOTE_ERROR
  }

  /** One turn of the loop in LoadSystemAbilityComplete. */
  function Load(sv: Server, key: SaKey, found: bool, a: Answer, env: ReplyEnv): Server {
    var i := FirstOf(sv.pending, key);
    if i == |sv.pending| then sv
    else
      var m := sv.pending[i].msg;
      var known := ToInt32(m.binderObject) in sv.proxies;
      var verdict := Verdict(m, known, found, a);
      sv.(pending := RemoveAt(sv.pending, i),
          proxies := if found && (known || a.deathAccepted) then sv.proxies + {ToInt32(m.binderObject)}
                     else sv.proxies,
          answered := sv.answered + multiset{key},
          replies := sv.replies + multiset{sv.pending[i].id},
          granted := if verdict == 0 && env.listening
                     then sv.granted + {Marked(Granted(m, a), MESSAGE_AS_REPLY, 0, true)}
                     else sv.granted)
  }

  function LoadSends(sv: Server, key: SaKey, found: bool, a: Answer, env: ReplyEnv): Option<Packet> {
    var i := FirstOf(sv.pending, key);
    if i == |sv.pending| then None
    else
      var m := sv.pending[i].msg;
      var known := ToInt32(m.binderObject) in sv.proxies;
      var verdict := Verdict(m, known, found, a);
      ReplyPacket(Outcome(m, known, found, a), OutcomeCode(verdict), verdict, env)
  }

  // ----- conservation

  /** How many requests of each kind a queue holds. */
  function Tally(q: seq<Record>): multiset<SaKey> {
    if q == [] then multiset{} else multiset{KeyOf(q[0].msg)} + Tally(q[1..])
  }

  lemma {:induction false} TallyConcat(p: seq<Record>, q: seq<Record>)
    ensures Tally(p + q) == Tally(p) + Tally(q)
  {
    if p == [] {
      assert p + q == q;
    } else {
      assert (p + q)[1..] == p[1..] + q;
      TallyConcat(p[1..], q);
    }
  }

  lemma TallyCons(r: Record, q: seq<Record>)
    ensures Tally([r] + q) == multiset{KeyOf(r.msg)} + Tally(q)
  {
    assert ([r] + q)[1..] == q;
  }

  lemma {:induction false} TallyRemove(q: seq<Record>, i: nat)
    requires i < |q|
    ensures Tally(RemoveAt(q, i)) + multiset{KeyOf(q[i].msg)} == Tally(q)
  {
    hide Tally, KeyOf;
    TallyCons(q[0], q[1..]);
    assert q == [q[0]] + q[1..];
    if i == 0 {
      assert RemoveAt(q, i) == q[1..];
    } else {
      TallyRemove(q[1..], i - 1);
      TallyCons(q[0], RemoveAt(q[1..], i - 1));
      assert RemoveAt(q, i) == [q[0]] + RemoveAt(q[1..], i - 1);
    }
  }

  lemma TallyPush(q: seq<Record>, r: Record)
    ensures Tally(q + [r]) == Tally(q) + multiset{KeyOf(r.msg)}
  {
    TallyConcat(q, [r]);
    assert [r][1..] == [];
  }

  /** Per key, requests queued are reply attempts made plus requests still pending. */
  ghost predicate Conserved(sv: Server) {
    sv.queued == sv.answered + Tally(sv.pending)
  }

  lemma ReceiveConserves(sv: Server, m: Message, adm: Admission, env: ReplyEnv)
    requires Conserved(sv)
    ensures Conserved(Receive(sv, m, adm, env))
  {
    if Accepts(m, adm) {
      var r := Record(sv.nextRecord, Amend(m).value);
      var i := FirstOf(sv.pending, KeyOf(r.msg));
      if adm.available {
        TallyPush(sv.pending, r);
      } else if i < |sv.pending| {
        TallyRemove(sv.pending, i);
        TallyPush(RemoveAt(sv.pending, i),
                  r.(msg := Marked(r.msg, MESSAGE_AS_REMOTE_ERROR, DBINDER_SA_NOT_AVAILABLE, env.listening)));
      }
    }
  }

  lemma LoadConserves(sv: Server, key: SaKey, found: bool, a: Answer, env: ReplyEnv)
    requires Conserved(sv)
    ensures Conserved(Load(sv, key, found, a, env))
  {
    var i := FirstOf(sv.pending, key);
    if i < |sv.pending| {
      TallyRemove(sv.pending, i);
    }
  }

  // ----- draining one key

  /** The requests that wait for something else, in order. */
  function Others(q: seq<Record>, key: SaKey): seq<Record> {
    if q == [] then []
    else (if KeyOf(q[0].msg) == key then [] else [q[0]]) + Others(q[1..], key)
  }

  lemma {:induction false} OthersConcat(p: seq<Record>, q: seq<Record>, key: SaKey)
    ensures Others(p + q, key) == Others(p, key) + Others(q, key)
  {
    if p == [] {
      assert p + q == q;
    } else {
      assert (p + q)[1..] == p[1..] + q;
      OthersConcat(p[1..], q, key);
    }
  }

  lemma OthersRemove(q: seq<Record>, i: nat, key: SaKey)
    requires i < |q| && KeyOf(q[i].msg) == key
    ensures Others(RemoveAt(q, i), key) == Others(q, key)
  {
    assert q == q[..i] + ([q[i]] + q[i + 1..]);
    OthersConcat(q[..i], [q[i]] + q[i + 1..], key);
    OthersConcat(q[..i], q[i + 1..], key);
    OthersConcat([q[i]], q[i + 1..], key);
  }

  lemma {:induction false} OthersAll(q: seq<Record>, key: SaKey)
    requires forall i :: 0 <= i < |q| ==> KeyOf(q[i].msg) != key
    ensures Others(q, key) == q
  {
    if q != [] {
      OthersAll(q[1..], key);
    }
  }

  lemma {:induction false} OthersHasNone(q: seq<Record>, key: SaKey)
    ensures Tally(Others(q, key))[key] == 0
  {
    if q != [] {
      OthersHasNone(q[1..], key);
      TallyConcat(if KeyOf(q[0].msg) == key then [] else [q[0]], Others(q[1..], key));
      assert [q[0]][1..] == [];
    }
  }

  /** A refused request leaves exactly as many requests of its key pending as before, and the
      order of all others. */
  lemma RefuseKeepsCount(q: seq<Record>, r: Record, listening: bool)
    ensures Tally(Refuse(q, r, listening)) == Tally(q)
    ensures Others(Refuse(q, r, listening), KeyOf(r.msg)) == Others(q, KeyOf(r.msg))
  {
    var i := FirstOf(q, KeyOf(r.msg));
    if i < |q| {
      var marked := r.(msg := Marked(r.msg, MESSAGE_AS_REMOTE_ERROR, DBINDER_SA_NOT_AVAILABLE, listening));
      TallyRemove(q, i);
      TallyPush(RemoveAt(q, i), marked);
      OthersRemove(q, i, KeyOf(r.msg));
      OthersConcat(RemoveAt(q, i), [marked], KeyOf(r.msg));
    }
  }

  /** Turns of the loop in LoadSystemAbilityComplete, one per answer. */
  function LoadAll(sv: Server, key: SaKey, found: bool, turns: seq<(Answer, ReplyEnv)>): Server {
    if turns == [] then sv
    else
      var last := turns[|turns| - 1];
      Load(LoadAll(sv, key, found, turns[..|turns| - 1]), key, found, last.0, last.1)
  }
  /** The replies those turns put on the network, in order. */
  function LoadAllSends(sv: Server, key: SaKey, found: bool, turns: seq<(Answer, ReplyEnv)>): seq<Packet> {
    if turns == [] then []
    else
      var front, last := turns[..|turns| - 1], turns[|turns| - 1];
      LoadAllSends(sv, key, found, front) +
      match LoadSends(LoadAll(sv, key, found, front), key, found, last.0, last.1)
      case None => []
      case Some(p) => [p]
  }

  lemma LoadAllOneMore(sv: Server, key: SaKey, found: bool, turns: seq<(Answer, ReplyEnv)>, a: Answer, env: ReplyEnv)
    ensures LoadAll(sv, key, found, turns + [(a, env)]) == Load(LoadAll(sv, key, found, turns), key, found, a, env)
    ensures LoadAllSends(sv, key, found, turns + [(a, env)]) ==
      LoadAllSends(sv, key, found, turns) +
      (match LoadSends(LoadAll(sv, key, found, turns), key, found, a, env)
       case None => []
       case Some(p) => [p])
  {
    var all := turns + [(a, env)];
    assert all[..|all| - 1] == turns && all[|all| - 1] == (a, env);
  }
}
