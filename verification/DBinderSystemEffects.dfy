/** A whole negotiation between two devices as a run of the system, and what the network and
    a delivery do. */
module DBinderSystemEffects {
  import opened DBinderTypes
  import C = DBinderClient
  import I = DBinderClientInvariant
  import S = DBinderServer
  import opened DBinderSystem

  const BOTH: S.ReplyEnv := S.ReplyEnv(true, true)

  /** Nothing sent is ever taken off the network, and a step touches one device only. */
  lemma StepTouchesOneDevice(x: System, device: string, act: Action, y: System, other: string)
    requires Next(x, device, act, y)
    ensures x.net <= y.net && y.nodes.Keys == x.nodes.Keys
    ensures other in x.nodes && other != device ==> y.nodes[other] == x.nodes[other]
  {
    hide C.Next, S.Receive, S.Load, S.ReceiveSends, S.LoadSends;
  }

  /** A delivered request reaches the server half only, a delivered reply or error the client
      half only, and a packet with another code nobody. */
  lemma DeliveryReachesHalf(x: System, device: string, p: Packet, adm: S.Admission, env: S.ReplyEnv, y: System)
    requires Next(x, device, Receive(p, adm, env), y)
    ensures p in x.net && p.to == device
    ensures p.msg.code == 1 ==>
      && y.nodes[device].client == x.nodes[device].client
      && y.nodes[device].server == S.Receive(x.nodes[device].server, p.msg, adm, env)
      && y.net == x.net + Carry(S.ReceiveSends(p.msg, adm, env))
    ensures p.msg.code != 1 ==> y.nodes[device].server == x.nodes[device].server && y.net == x.net
    ensures p.msg.code == 2 || p.msg.code == 5 ==>
      y.nodes[device].client == C.OnReply(x.nodes[device].client, p.msg)
    ensures p.msg.code == 4 ==> y.nodes[device].client == C.OnError(x.nodes[device].client, p.msg)
    ensures p.msg.code !in {1, 2, 4, 5} ==> y == x
  {
    hide C.OnReply, C.OnError, S.Receive, S.ReceiveSends;
  }

  /** What the call and the server bring to a negotiation. */
  ghost predicate Ready(c: C.Client, sv: S.Server, id: nat, env: C.SendEnv, adm: S.Admission, key: S.SaKey,
                        a: S.Answer)
  {
    && I.Inv(c) && C.At(c, id, Invoking) && C.InvokeSends(c, id, env).Some?
    && I.NoWrap(C.InvokeCall(c, id, env).tags.issued)
    && c.calls[id].stub in c.registered && c.calls[id].stub !in c.sessions
    && var request := C.InvokeSends(c, id, env).value.msg;
       && S.Accepts(request, adm) && adm.available
       && key == S.KeyOf(S.Amend(request).value) && S.FirstOf(sv.pending, key) == |sv.pending|
       && S.Verdict(S.Amend(request).value, key.ability in sv.proxies, true, a) == 0
  }

  function WithClient(x: System, device: string, c: C.Client, sent: Option<Packet>): System
    requires device in x.nodes
  {
    System(x.nodes[device := Node(c, x.nodes[device].server)], x.net + Carry(sent))
  }

  function WithServer(x: System, device: string, sv: S.Server, sent: Option<Packet>): System
    requires device in x.nodes
  {
    System(x.nodes[device := Node(x.nodes[device].client, sv)], x.net + Carry(sent))
  }

  lemma AskStep(x: System, device: string, id: nat, env: C.SendEnv) returns (y: System)
    requires device in x.nodes && C.At(x.nodes[device].client, id, Invoking)
    requires env.localId == device
    ensures var c := x.nodes[device].client;
      && Next(x, device, Local(C.Invoke(id, env)), y)
      && y == WithClient(x, device, C.InvokeCall(c, id, env), C.InvokeSends(c, id, env))
  {
    var c := x.nodes[device].client;
    hide C.InvokeCall, C.InvokeSends;
    y := WithClient(x, device, C.InvokeCall(c, id, env), C.InvokeSends(c, id, env));
  }

  lemma QueueStep(x: System, device: string, p: Packet, adm: S.Admission) returns (y: System)
    requires device in x.nodes && p in x.net && p.to == device && p.msg.code == MESSAGE_AS_INVOKER
    ensures Next(x, device, Receive(p, adm, BOTH), y)
    ensures y == WithServer(x, device, S.Receive(x.nodes[device].server, p.msg, adm, BOTH),
                            S.ReceiveSends(p.msg, adm, BOTH))
  {
    hide S.Receive, S.ReceiveSends;
    y := WithServer(x, device, S.Receive(x.nodes[device].server, p.msg, adm, BOTH), S.ReceiveSends(p.msg, adm, BOTH));
  }

  lemma GrantStep(x: System, device: string, key: S.SaKey, a: S.Answer) returns (y: System)
    requires device in x.nodes
    ensures Next(x, device, Load(key, true, a, BOTH), y)
    ensures y == WithServer(x, device, S.Load(x.nodes[device].server, key, true, a, BOTH),
                            S.LoadSends(x.nodes[device].server, key, true, a, BOTH))
  {
    hide S.Load, S.LoadSends;
    y := WithServer(x, device, S.Load(x.nodes[device].server, key, true, a, BOTH),
                    S.LoadSends(x.nodes[device].server, key, true, a, BOTH));
  }

  lemma DeliverStep(x: System, device: string, p: Packet, adm: S.Admission) returns (y: System)
    requires device in x.nodes && p in x.net && p.to == device && p.msg.code == MESSAGE_AS_REPLY
    ensures Next(x, device, Receive(p, adm, BOTH), y)
    ensures y == WithClient(x, device, C.OnReply(x.nodes[device].client, p.msg), None)
  {
    hide C.OnReply;
    y := WithClient(x, device, C.OnReply(x.nodes[device].client, p.msg), None);
  }

  /** Two devices of any system can negotiate in four steps: the asker sends, the server
      queues, the server answers, the asker takes the answer. The asker's stub then has the
      session the server granted and its caller can wake; no third device is touched. */
  lemma NegotiationRuns(x: System, asker: string, server: string, id: nat, env: C.SendEnv, adm: S.Admission,
                        key: S.SaKey, a: S.Answer) returns (x1: System, x2: System, x3: System, x4: System)
    requires asker in x.nodes && server in x.nodes && asker != server && NulFree(asker) && env.localId == asker
    requires Ready(x.nodes[asker].client, x.nodes[server].server, id, env, adm, key, a)
    requires CStr(x.nodes[asker].client.calls[id].stub.key.device) == server && NulFree(a.sessionName)
    ensures Next(x, asker, Local(C.Invoke(id, env)), x1)
    ensures C.InvokeSends(x.nodes[asker].client, id, env).Some?
    ensures Next(x1, server, Receive(C.InvokeSends(x.nodes[asker].client, id, env).value, adm, BOTH), x2)
    ensures Next(x2, server, Load(key, true, a, BOTH), x3)
    ensures exists p :: Next(x3, asker, Receive(p, adm, BOTH), x4)
    ensures asker in x4.nodes
    ensures var call := x.nodes[asker].client.calls[id]; var c := x4.nodes[asker].client;
      && C.MayWake(c, id)
      && c.sessions == x.nodes[asker].client.sessions[call.stub :=
           Session(call.seqNum, DATABUS_TYPE, 0, 0, a.stubIndex, a.sessionName, 0, asker, server)]
  {
    var c, sv := x.nodes[asker].client, x.nodes[server].server;
    var request := C.InvokeSends(c, id, env).value;
    CStrNulFree(asker);
    NegotiationCompletes(c, id, env, sv, adm, key, a);
    hide I.Inv, C.InvokeCall, C.InvokeSends, S.Receive, S.ReceiveSends, S.Load, S.LoadSends, C.OnReply, S.Accepts,
      S.Amend, S.FirstOf, S.Verdict, Next;
    x1 := AskStep(x, asker, id, env);
    x2 := QueueStep(x1, server, request, adm);
    x3 := GrantStep(x2, server, key, a);
    var answer := S.LoadSends(S.Receive(sv, request.msg, adm, BOTH), key, true, a, BOTH).value;
    assert x2.nodes[server].server == S.Receive(sv, request.msg, adm, BOTH);
    assert x3.nodes[asker].client == C.InvokeCall(c, id, env) && answer in x3.net;
    x4 := DeliverStep(x3, asker, answer, adm);
  }
}
