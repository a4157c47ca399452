/** The server half of the DBinderService object: the queue of requests that wait for their
    system ability, with the loops and the in-place changes of the original. */
module DBinderLoader {
  import opened DBinderTypes
  import opened DBinderServer
  import E = DBinderServerEffects

  class AbilityLoader {
    var nextRecord: nat
    var loadSaReply: seq<Record>
    var proxyObject: set<int>
    ghost var queued: multiset<SaKey>
    ghost var answered: multiset<SaKey>
    ghost var replies: multiset<nat>
    ghost var granted: set<Message>

    ghost function State(): Server
      reads this
    {
      Server(nextRecord, loadSaReply, proxyObject, queued, answered, replies, granted)
    }

    constructor ()
      ensures State() == DBinderServer.Start()
    {
      nextRecord, loadSaReply, proxyObject := 0, [], {};
      queued, answered, replies, granted := multiset{}, multiset{}, multiset{}, {};
    }

    /** Takes the first request of a key off the queue. */
    method PopLoadSaItem(key: SaKey) returns (r: Option<Record>, at: nat)
      modifies this`loadSaReply
      ensures at == FirstOf(old(loadSaReply), key)
      ensures r.None? <==> at == |old(loadSaReply)|
      ensures r.None? ==> loadSaReply == old(loadSaReply)
      ensures r.Some? ==> r.value == old(loadSaReply)[at] && loadSaReply == RemoveAt(old(loadSaReply), at)
      ensures r.Some? ==> r.value.msg.fromDeviceId == key.device && ToInt32(r.value.msg.binderObject) == key.ability
      ensures forall j :: 0 <= j < at ==> !E.Waits(old(loadSaReply)[j], key.device, key.ability)
    {
      var i := 0;
      while i < |loadSaReply| && KeyOf(loadSaReply[i].msg) != key
        invariant i <= |loadSaReply| && FirstOf(loadSaReply, key) == i + FirstOf(loadSaReply[i..], key)
      {
        assert loadSaReply[i..][1..] == loadSaReply[i + 1..];
        i := i + 1;
      }
      at := i;
      if i == |loadSaReply| {
        return None, i;
      }
      r := Some(loadSaReply[i]);
      loadSaReply := RemoveAt(loadSaReply, i);
    }

    /** A refused request is queued all the same, then the first request of its key is taken
        off. When that is an older one, marking the refused record for its error reply
        changes it inside the queue. */
    method QueueRefused(r: Record, listening: bool)
      modifies this`loadSaReply
      ensures loadSaReply == Refuse(old(loadSaReply), r, listening)
    {
      hide FirstOf, KeyOf, RemoveAt, Marked, Refuse;
      RefuseInPlace(loadSaReply, r, listening);
      var last := |loadSaReply|;
      loadSaReply := loadSaReply + [r];
      var _, at := PopLoadSaItem(KeyOf(r.msg));
      if at < last {
        var marked := Marked(r.msg, MESSAGE_AS_REMOTE_ERROR, DBINDER_SA_NOT_AVAILABLE, listening);
        loadSaReply := loadSaReply[last - 1 := r.(msg := marked)];
      }
    }

    /** Queues an accepted request, or refuses it when its ability cannot be loaded. */
    method Enqueue(a: Message, available: bool, listening: bool)
      modifies this`nextRecord, this`loadSaReply, this`queued, this`answered, this`replies
      ensures var r := Record(old(nextRecord), a);
        && nextRecord == old(nextRecord) + 1 && queued == old(queued) + multiset{KeyOf(a)}
        && loadSaReply == (if available then old(loadSaReply) + [r] else Refuse(old(loadSaReply), r, listening))
        && answered == (if available then old(answered) else old(answered) + multiset{KeyOf(a)})
        && replies == (if available then old(replies) else old(replies) + multiset{r.id})
    {
      hide KeyOf, Refuse;
      var r := Record(nextRecord, a);
      nextRecord, queued := nextRecord + 1, queued + multiset{KeyOf(a)};
      if available {
        loadSaReply := loadSaReply + [r];
      } else {
        QueueRefused(r, listening);
        answered, replies := answered + multiset{KeyOf(a)}, replies + multiset{r.id};
      }
    }

    method OnRemoteInvokerMessage(m: Message, adm: Admission, env: ReplyEnv)
      returns (ok: bool, sent: Option<Packet>)
      modifies this
      ensures State() == Receive(old(State()), m, adm, env)
      ensures sent == ReceiveSends(m, adm, env)
      ensures ok <==> Accepts(m, adm) && adm.available
    {
      hide KeyOf, Refuse, Amend, ReplyPacket;
      var amended := Amend(m);
      if amended.None? {
        return false, ReplyPacket(m, MESSAGE_AS_REMOTE_ERROR, DBINDER_SAID_INVALID, env);
      }
      var a := amended.value;
      if !adm.distributed {
        return false, ReplyPacket(a, MESSAGE_AS_REMOTE_ERROR, DBINDER_SA_NOT_DISTRUBUTED, env);
      }
      Enqueue(a, adm.available, env.listening);
      if !adm.available {
        return false, ReplyPacket(a, MESSAGE_AS_REMOTE_ERROR, DBINDER_SA_NOT_AVAILABLE, env);
      }
      return true, None;
    }

    /** Answers one request that was taken off the queue. */
    method AnswerRequest(r: Record, found: bool, a: Answer, env: ReplyEnv) returns (sent: Option<Packet>)
      modifies this`proxyObject, this`answered, this`granted, this`replies
      ensures var m := r.msg; var known := ToInt32(m.binderObject) in old(proxyObject);
        var verdict := Verdict(m, known, found, a);
        && sent == ReplyPacket(Outcome(m, known, found, a), OutcomeCode(verdict), verdict, env)
        && proxyObject == (if found && (known || a.deathAccepted) then old(proxyObject) + {ToInt32(m.binderObject)}
                           else old(proxyObject))
        && answered == old(answered) + multiset{KeyOf(m)} && replies == old(replies) + multiset{r.id}
        && granted == (if verdict == 0 && env.listening
                       then old(granted) + {Marked(Granted(m, a), MESSAGE_AS_REPLY, 0, true)}
                       else old(granted))
    {
      var m := r.msg;
      answered, replies := answered + multiset{KeyOf(m)}, replies + multiset{r.id};
      if !found {
        return ReplyPacket(m, MESSAGE_AS_REMOTE_ERROR, DBINDER_SA_NOT_FOUND, env);
      }
      var ability := ToInt32(m.binderObject);
      if ability !in proxyObject {
        if !a.deathAccepted {
          return ReplyPacket(m, MESSAGE_AS_REMOTE_ERROR, DBINDER_SA_NOT_FOUND, env);
        }
        proxyObject := proxyObject + {ability};
      }
      if m.transType != DATABUS_TYPE {
        return ReplyPacket(m, MESSAGE_AS_REMOTE_ERROR, DBINDER_SA_INVOKE_FAILED, env);
      }
      var reply, result := OnRemoteInvokerDataBusMessage(m, a);
      if result != 0 {
        return ReplyPacket(reply, MESSAGE_AS_REMOTE_ERROR, result, env);
      }
      if env.listening {
        granted := granted + {Marked(reply, MESSAGE_AS_REPLY, 0, true)};
      }
      return ReplyPacket(reply, MESSAGE_AS_REPLY, 0, env);
    }

    method OnRemoteInvokerDataBusMessage(m: Message, a: Answer) returns (reply: Message, result: nat)
      requires m.transType == DATABUS_TYPE
      ensures result == Verdict(m, true, true, a) && reply == Outcome(m, true, true, a)
    {
      reply := m;
      if IllegalDevice(m.fromDeviceId) {
        return m, DBINDER_DEVICEID_INVALID;
      }
      if !a.named {
        return m, DBINDER_SESSION_NAME_NOT_FOUND;
      }
      if !a.written {
        return m, DBINDER_WRITE_PARCEL_FAILED;
      }
      if !a.invoked {
        return m, DBINDER_INVOKE_STUB_THREAD_FAILED;
      }
      if a.stubIndex == 0 || |a.sessionName| == 0 || |a.sessionName| > SERVICENAME_LENGTH {
        return m, DBINDER_SESSION_NAME_INVALID;
      }
      return Granted(m, a), 0;
    }

    /** Answers every pending request of the key and leaves all others in their order. What
        the ability answers and whether a reply gets through is arbitrary in every turn. */
    method LoadSystemAbilityComplete(key: SaKey, found: bool)
      returns (turns: seq<(Answer, ReplyEnv)>, sent: seq<Packet>)
      modifies this
      ensures State() == LoadAll(old(State()), key, found, turns)
      ensures sent == LoadAllSends(old(State()), key, found, turns)
      ensures loadSaReply == Others(old(loadSaReply), key)
      ensures loadSaReply == E.Rest(old(loadSaReply), key.device, key.ability)
      ensures |turns| == Tally(old(loadSaReply))[key] == E.Waiting(old(loadSaReply), key.device, key.ability)
      ensures Tally(loadSaReply)[key] == 0
      ensures State().replies == old(State().replies) + E.WaitIds(old(loadSaReply), key.device, key.ability)
      ensures |sent| == E.Delivered(turns) && forall p :: p in sent ==> p.to == key.device
    {
      hide Tally, Others, Load, LoadSends, Verdict, Outcome, KeyOf, ReplyPacket, Marked, Granted;
      E.DrainTakesWaiting(loadSaReply, key);
      turns, sent := [], [];
      var more := true;
      while more
        invariant State() == LoadAll(old(State()), key, found, turns)
        invariant sent == LoadAllSends(old(State()), key, found, turns)
        invariant Others(loadSaReply, key) == Others(old(loadSaReply), key)
        invariant |turns| + Tally(loadSaReply)[key] == Tally(old(loadSaReply))[key]
        invariant !more ==> FirstOf(loadSaReply, key) == |loadSaReply|
        decreases |loadSaReply|, more
      {
        var a: Answer, env: ReplyEnv := *, *;
        var packet: Option<Packet>;
        more, packet := LoadTurn(key, found, a, env);
        if more {
          LoadAllOneMore(old(State()), key, found, turns, a, env);
          turns := turns + [(a, env)];
          sent := sent + match packet { case None => [] case Some(p) => [p] };
        }
      }
      OthersAll(loadSaReply, key);
      OthersHasNone(loadSaReply, key);
      E.DrainAnswersEach(old(State()), key, found, turns);
    }

    method LoadTurn(key: SaKey, found: bool, a: Answer, env: ReplyEnv) returns (more: bool, sent: Option<Packet>)
      modifies this
      ensures more <==> FirstOf(old(loadSaReply), key) < |old(loadSaReply)|
      ensures State() == Load(old(State()), key, found, a, env)
      ensures sent == LoadSends(old(State()), key, found, a, env)
      ensures Others(loadSaReply, key) == Others(old(loadSaReply), key)
      ensures Tally(loadSaReply)[key] + (if more then 1 else 0) == Tally(old(loadSaReply))[key]
      ensures |loadSaReply| + (if more then 1 else 0) == |old(loadSaReply)|
      ensures !more ==> State() == old(State())
    {
      hide Tally, Others, Verdict, Outcome, OutcomeCode, ReplyPacket, Marked, Granted;
      ghost var q := loadSaReply;
      var popped, at := PopLoadSaItem(key);
      if popped.None? {
        return false, None;
      }
      TallyRemove(q, at);
      OthersRemove(q, at, key);
      sent := AnswerRequest(popped.value, found, a, env);
      return true, sent;
    }
  }

  /** Pushing, popping the first of the key and marking the record where it then stands. */
  lemma RefuseInPlace(q: seq<Record>, r: Record, listening: bool)
    ensures var at, all := FirstOf(q + [r], KeyOf(r.msg)), q + [r];
      && at < |all|
      && |RemoveAt(all, at)| == |q|
      && Refuse(q, r, listening) ==
           if at == |q| then RemoveAt(all, at)
           else
             var marked := Marked(r.msg, MESSAGE_AS_REMOTE_ERROR, DBINDER_SA_NOT_AVAILABLE, listening);
             RemoveAt(all, at)[|q| - 1 := r.(msg := marked)]
  {
    FirstOfPush(q, r);
    hide Marked, KeyOf, FirstOf, RemoveAt;
    var at := FirstOf(q + [r], KeyOf(r.msg));
    if at < |q| {
      RemoveEarlier(q, r, at);
    } else {
      RemoveLast(q, r);
    }
  }

  lemma RemoveEarlier(q: seq<Record>, r: Record, at: nat)
    requires at < |q|
    ensures RemoveAt(q + [r], at) == RemoveAt(q, at) + [r] && |RemoveAt(q, at)| == |q| - 1
  {
  }

  lemma RemoveLast(q: seq<Record>, r: Record)
    ensures RemoveAt(q + [r], |q|) == q
  {
  }

  lemma {:induction false} FirstOfPush(q: seq<Record>, r: Record)
    ensures FirstOf(q + [r], KeyOf(r.msg)) == FirstOf(q, KeyOf(r.msg))
  {
    if q != [] {
      assert (q + [r])[1..] == q[1..] + [r];
      FirstOfPush(q[1..], r);
    }
  }
}
