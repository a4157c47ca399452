/** Any number of devices running DBinder services over a network that may lose, repeat and
    reorder: a packet once sent may be received at any later time, any number of times, or never. */
module DBinderSystem {
  import opened DBinderTypes
  import C = DBinderClient
  import I = DBinderClientInvariant
  import R = DBinderClientRuns
  import S = DBinderServer

  datatype Node = Node(client: C.Client, server: S.Server)

  datatype System = System(nodes: map<string, Node>, net: set<Packet>)

  datatype Action =
    | Local(e: C.Event)
    | Receive(p: Packet, adm: S.Admission, env: S.ReplyEnv)
    | Load(key: S.SaKey, found: bool, a: S.Answer, env: S.ReplyEnv)

  function Carry(sent: Option<Packet>): set<Packet> {
    match sent
    case None => {}
    case Some(p) => {p}
  }

  /** A device learns its own network id or, when the query fails, an empty one. */
  predicate LocalEvent(device: string, e: C.Event) {
    !e.Reply? && !e.Error? && (e.Invoke? ==> e.env.localId == "" || e.env.localId == device)
  }

  ghost predicate ClientMove(x: System, device: string, e: C.Event, y: System) {
    && device in x.nodes && device in y.nodes
    && C.Next(x.nodes[device].client, e, y.nodes[device].client)
    && y.nodes == x.nodes[device := Node(y.nodes[device].client, x.nodes[device].server)]
    && y.net == x.net + Carry(C.Sends(x.nodes[device].client, e))
  }

  ghost predicate ServerMove(x: System, device: string, server: S.Server, sent: Option<Packet>, y: System) {
    && device in x.nodes
    && y.nodes == x.nodes[device := Node(x.nodes[device].client, server)]
    && y.net == x.net + Carry(sent)
  }

  ghost predicate Next(x: System, device: string, act: Action, y: System) {
    device in x.nodes &&
    match act
    case Local(e) => LocalEvent(device, e) && ClientMove(x, device, e, y)
    case Receive(p, adm, env) =>
      p in x.net && p.to == device &&
      if p.msg.code == MESSAGE_AS_INVOKER then
        ServerMove(x, device, S.Receive(x.nodes[device].server, p.msg, adm, env), S.ReceiveSends(p.msg, adm, env), y)
      else if p.msg.code == MESSAGE_AS_REPLY || p.msg.code == MESSAGE_AS_REPLY_TOKENID then
        ClientMove(x, device, C.Reply(p.msg), y)
      else if p.msg.code == MESSAGE_AS_REMOTE_ERROR then ClientMove(x, device, C.Error(p.msg), y)
      else y == x
    case Load(key, found, a, env) =>
      ServerMove(x, device, S.Load(x.nodes[device].server, key, found, a, env),
                 S.LoadSends(x.nodes[device].server, key, found, a, env), y)
  }

  ghost predicate Initial(x: System) {
    && x.net == {}
    && (forall d :: d in x.nodes ==> NulFree(d) && x.nodes[d] == Node(C.Start(), S.Start()))
  }

  ghost predicate IsRun(states: seq<System>, actions: seq<(string, Action)>) {
    && |states| == |actions| + 1
    && Initial(states[0])
    && forall k {:trigger actions[k]} :: 0 <= k < |actions| ==>
         Next(states[k], actions[k].0, actions[k].1, states[k + 1])
  }

  // ----- where messages come from

  /** The fields of a request that its answer carries back. */
  predicate SameExchange(a: Message, b: Message) {
    && a.seqNumber == b.seqNumber && a.stub == b.stub
    && a.fromDeviceId == b.fromDeviceId && a.toDeviceId == b.toDeviceId
    && a.pid == b.pid && a.uid == b.uid
  }

  /** A request on the network, addressed to device, that m carries back. */
  ghost predicate Asked(net: set<Packet>, device: string, m: Message) {
    exists q :: q in net && q.msg.code == MESSAGE_AS_INVOKER && q.to == device && SameExchange(q.msg, m)
  }

  /** The stub that was given a tag, while the tag counter has not wrapped. */
  ghost predicate Owns(c: C.Client, tag: nat, s: Stub) {
    I.NoWrap(c.tags.issued) ==> tag in c.tags.owner && c.tags.owner[tag] == s
  }

  ghost predicate RequestInv(nodes: map<string, Node>, p: Packet) {
    && p.to == p.msg.toDeviceId
    && p.msg.fromDeviceId in nodes
    && exists s :: Owns(nodes[p.msg.fromDeviceId].client, p.msg.stub, s) && CStr(s.key.device) == p.to
  }

  /** An answer goes back to the asker, who asked the answering device; a success was granted there. */
  ghost predicate AnswerInv(nodes: map<string, Node>, net: set<Packet>, p: Packet) {
    && p.to == p.msg.fromDeviceId
    && exists d :: d in nodes && Asked(net, d, p.msg) &&
         (p.msg.code == MESSAGE_AS_REPLY ==> p.msg in nodes[d].server.granted)
  }

  ghost predicate PacketInv(nodes: map<string, Node>, net: set<Packet>, p: Packet) {
    if p.msg.code == MESSAGE_AS_INVOKER then RequestInv(nodes, p)
    else (p.msg.code == MESSAGE_AS_REPLY || p.msg.code == MESSAGE_AS_REMOTE_ERROR) && AnswerInv(nodes, net, p)
  }

  /** A session was made from a reply on the network, under a tag given to its stub. */
  ghost predicate SessionInv(c: C.Client, net: set<Packet>, device: string, s: Stub)
    requires s in c.sessions
  {
    exists p :: p in net && p.to == device && p.msg.code == MESSAGE_AS_REPLY &&
      c.sessions[s] == C.SessionOf(p.msg) && C.ValidSessionName(p.msg) && p.msg.stubIndex != 0 &&
      Owns(c, p.msg.stub, s)
  }

  ghost predicate NodeInv(net: set<Packet>, device: string, n: Node) {
    && NulFree(device)
    && I.Inv(n.client)
    && S.Conserved(n.server)
    && (forall r :: r in n.server.pending ==> Asked(net, device, r.msg))
    && (forall s :: s in n.client.sessions ==> SessionInv(n.client, net, device, s))
  }

  ghost predicate Inv(x: System) {
    && (forall d :: d in x.nodes ==> NodeInv(x.net, d, x.nodes[d]))
    && (forall p :: p in x.net ==> PacketInv(x.nodes, x.net, p))
  }

  // ----- growing histories

  /** Every tag keeps its owner and every grant stays recorded. */
  ghost predicate Grows(a: Node, b: Node) {
    && a.client.tags.issued <= b.client.tags.issued
    && (I.NoWrap(b.client.tags.issued) ==>
          forall t :: t in a.client.tags.owner ==>
            t in b.client.tags.owner && b.client.tags.owner[t] == a.client.tags.owner[t])
    && a.server.granted <= b.server.granted
  }

  lemma PacketKept(nodes: map<string, Node>, nodes': map<string, Node>, net: set<Packet>, net': set<Packet>, p: Packet)
    requires PacketInv(nodes, net, p) && net <= net' && nodes.Keys == nodes'.Keys
    requires forall d :: d in nodes ==> Grows(nodes[d], nodes'[d])
    ensures PacketInv(nodes', net', p)
  {
    if p.msg.code == MESSAGE_AS_INVOKER {
      var s :| Owns(nodes[p.msg.fromDeviceId].client, p.msg.stub, s) && CStr(s.key.device) == p.to;
      assert Owns(nodes'[p.msg.fromDeviceId].client, p.msg.stub, s);
    } else {
      var d :| d in nodes && Asked(net, d, p.msg) &&
        (p.msg.code == MESSAGE_AS_REPLY ==> p.msg in nodes[d].server.granted);
      assert Asked(net', d, p.msg);
    }
  }

  lemma NodeKept(net: set<Packet>, net': set<Packet>, device: string, n: Node)
    requires NodeInv(net, device, n) && net <= net'
    ensures NodeInv(net', device, n)
  {
    forall r | r in n.server.pending ensures Asked(net', device, r.msg) {
      assert Asked(net, device, r.msg);
    }
    forall s | s in n.client.sessions ensures SessionInv(n.client, net', device, s) {
      assert SessionInv(n.client, net, device, s);
    }
  }

  lemma AddTagGrows(tt: C.TagTable, s: Stub)
    requires I.TagInv(tt)
    ensures tt.issued <= C.AddTag(tt, s).issued
    ensures I.NoWrap(C.AddTag(tt, s).issued) ==>
      forall t :: t in tt.owner ==> t in C.AddTag(tt, s).owner && C.AddTag(tt, s).owner[t] == tt.owner[t]
  {
  }

  lemma TagsGrow(c: C.Client, e: C.Event, d: C.Client)
    requires I.TagInv(c.tags) && C.Next(c, e, d)
    ensures c.tags.issued <= d.tags.issued
    ensures I.NoWrap(d.tags.issued) ==>
      forall t :: t in c.tags.owner ==> t in d.tags.owner && d.tags.owner[t] == c.tags.owner[t]
  {
    hide C.BeginCall, C.InvokeCall, C.PollCall, C.TimeoutCall, C.WokenCall, C.TestCall, C.DeleteCall,
      C.DetachCall, C.OnReply, C.OnError,
      C.CloseSession, C.ServiceDies, C.DeviceDies, C.SetStatus, C.AttachRecipient, C.DetachRecipient, C.AddTag;
    if e.Invoke? {
      AddTagGrows(c.tags, c.calls[e.id].stub);
    }
  }

  // ----- steps of a client

  /** The tag of a sent request belongs to the stub that sent it. */
  lemma SenderOwnsTag(tt: C.TagTable, s: Stub)
    requires I.TagInv(tt) && I.NoWrap(C.AddTag(tt, s).issued)
    ensures C.TagFor(tt, s) in C.AddTag(tt, s).owner && C.AddTag(tt, s).owner[C.TagFor(tt, s)] == s
  {
  }

  lemma RequestIsGood(c: C.Client, id: nat, env: C.SendEnv, device: string, nodes: map<string, Node>)
    requires I.TagInv(c.tags) && id in c.calls && C.InvokeSends(c, id, env).Some?
    requires NulFree(device) && (env.localId == "" || env.localId == device)
    requires device in nodes && nodes[device].client == C.InvokeCall(c, id, env)
    ensures RequestInv(nodes, C.InvokeSends(c, id, env).value)
    ensures C.InvokeSends(c, id, env).value.msg.code == MESSAGE_AS_INVOKER
  {
    var s := c.calls[id].stub;
    var d := nodes[device].client;
    CStrNulFree(device);
    assert d.tags == C.AddTag(c.tags, s);
    if I.NoWrap(d.tags.issued) {
      SenderOwnsTag(c.tags, s);
    }
    assert Owns(d, C.TagFor(c.tags, s), s);
  }

  /** A reply taken from the network is the only source of a new session. */
  lemma SessionsStayGood(net: set<Packet>, device: string, c: C.Client, e: C.Event, d: C.Client, s: Stub)
    requires I.TagInv(c.tags) && C.Next(c, e, d) && s in d.sessions
    requires s in c.sessions ==> SessionInv(c, net, device, s)
    requires e.Reply? ==> Packet(device, e.msg) in net && e.msg.code == MESSAGE_AS_REPLY
    ensures SessionInv(d, net, device, s)
  {
    TagsGrow(c, e, d);
    hide C.Next;
    if s in c.sessions && d.sessions[s] == c.sessions[s] {
      var p :| p in net && p.to == device && p.msg.code == MESSAGE_AS_REPLY &&
        c.sessions[s] == C.SessionOf(p.msg) && C.ValidSessionName(p.msg) && p.msg.stubIndex != 0 &&
        Owns(c, p.msg.stub, s);
      assert Owns(d, p.msg.stub, s);
    } else {
      R.SessionChange(c, e, d, s);
      var p := Packet(device, e.msg);
      assert p in net && Owns(d, p.msg.stub, s);
    }
  }

  lemma ClientMoveKeepsNode(x: System, device: string, e: C.Event, y: System)
    requires Inv(x) && ClientMove(x, device, e, y)
    requires e.Reply? ==> Packet(device, e.msg) in x.net && e.msg.code == MESSAGE_AS_REPLY
    ensures NodeInv(y.net, device, y.nodes[device])
  {
    var n, n' := x.nodes[device], y.nodes[device];
    assert NodeInv(x.net, device, n);
    I.StepKeepsInv(n.client, e, n'.client);
    forall s | s in n'.client.sessions ensures SessionInv(n'.client, x.net, device, s) {
      SessionsStayGood(x.net, device, n.client, e, n'.client, s);
    }
    assert NodeInv(x.net, device, n') by {
      assert n'.server == n.server;
    }
    NodeKept(x.net, y.net, device, n');
  }

  /** One node moved and kept its invariant, and what it sent is good: the rest follows. */
  lemma MoveKeeps(x: System, device: string, sent: Option<Packet>, y: System)
    requires Inv(x) && device in x.nodes && device in y.nodes
    requires y.nodes == x.nodes[device := y.nodes[device]] && y.net == x.net + Carry(sent)
    requires Grows(x.nodes[device], y.nodes[device]) && NodeInv(y.net, device, y.nodes[device])
    requires sent.Some? ==> PacketInv(y.nodes, y.net, sent.value)
    ensures Inv(y)
  {
    hide NodeInv, PacketInv;
    forall k | k in y.nodes ensures NodeInv(y.net, k, y.nodes[k]) {
      if k != device {
        NodeKept(x.net, y.net, k, x.nodes[k]);
      }
    }
    forall p | p in y.net ensures PacketInv(y.nodes, y.net, p) {
      if p in x.net {
        PacketKept(x.nodes, y.nodes, x.net, y.net, p);
      }
    }
  }

  lemma ClientSendsGood(x: System, device: string, e: C.Event, y: System)
    requires NulFree(device) && ClientMove(x, device, e, y) && I.TagInv(x.nodes[device].client.tags)
    requires C.Sends(x.nodes[device].client, e).Some?
    requires e.Invoke? ==> e.env.localId == "" || e.env.localId == device
    ensures PacketInv(y.nodes, y.net, C.Sends(x.nodes[device].client, e).value)
  {
    RequestIsGood(x.nodes[device].client, e.id, e.env, device, y.nodes);
  }

  lemma ClientMoveKeeps(x: System, device: string, e: C.Event, y: System)
    requires Inv(x) && ClientMove(x, device, e, y)
    requires e.Reply? ==> Packet(device, e.msg) in x.net && e.msg.code == MESSAGE_AS_REPLY
    requires e.Invoke? ==> e.env.localId == "" || e.env.localId == device
    ensures Inv(y)
  {
    hide C.Next, PacketInv;
    assert NodeInv(x.net, device, x.nodes[device]);
    ClientMoveKeepsNode(x, device, e, y);
    TagsGrow(x.nodes[device].client, e, y.nodes[device].client);
    if C.Sends(x.nodes[device].client, e).Some? {
      ClientSendsGood(x, device, e, y);
    }
    MoveKeeps(x, device, C.Sends(x.nodes[device].client, e), y);
  }

  // ----- steps of a server

  lemma AskedAgain(net: set<Packet>, device: string, a: Message, b: Message)
    requires Asked(net, device, a) && SameExchange(a, b)
    ensures Asked(net, device, b)
  {
  }

  /** What a server may send: an answer to the asker, recorded as granted if it is a success. */
  ghost predicate GoodAnswer(net: set<Packet>, device: string, granted: set<Message>, p: Packet) {
    && p.to == p.msg.fromDeviceId
    && Asked(net, device, p.msg)
    && (p.msg.code == MESSAGE_AS_REMOTE_ERROR || (p.msg.code == MESSAGE_AS_REPLY && p.msg in granted))
  }

  lemma ServerMoveKeeps(x: System, device: string, server: S.Server, sent: Option<Packet>, y: System)
    requires Inv(x) && ServerMove(x, device, server, sent, y)
    requires S.Conserved(server) && x.nodes[device].server.granted <= server.granted
    requires forall r :: r in server.pending ==> Asked(x.net, device, r.msg)
    requires sent.Some? ==> GoodAnswer(x.net, device, server.granted, sent.value)
    ensures Inv(y)
  {
    var n' := y.nodes[device];
    assert NodeInv(x.net, device, x.nodes[device]);
    assert NodeInv(x.net, device, n') by {
      assert n' == Node(x.nodes[device].client, server);
    }
    NodeKept(x.net, y.net, device, n');
    if sent.Some? {
      assert Asked(y.net, device, sent.value.msg);
    }
    hide NodeInv;
    MoveKeeps(x, device, sent, y);
  }

  lemma ReceivedGood(net: set<Packet>, device: string, sv: S.Server, m: Message, adm: S.Admission, env: S.ReplyEnv)
    requires Asked(net, device, m) && forall r :: r in sv.pending ==> Asked(net, device, r.msg)
    ensures forall r :: r in S.Receive(sv, m, adm, env).pending ==> Asked(net, device, r.msg)
    ensures S.ReceiveSends(m, adm, env).Some? ==>
      GoodAnswer(net, device, sv.granted, S.ReceiveSends(m, adm, env).value)
  {
    forall r | r in S.Receive(sv, m, adm, env).pending ensures Asked(net, device, r.msg) {
      if r !in sv.pending {
        AskedAgain(net, device, m, r.msg);
      }
    }
    var sent := S.ReceiveSends(m, adm, env);
    if sent.Some? {
      AskedAgain(net, device, m, sent.value.msg);
    }
  }

  lemma ReceiveKeeps(x: System, device: string, p: Packet, adm: S.Admission, env: S.ReplyEnv, y: System)
    requires Inv(x) && device in x.nodes && p in x.net && p.to == device && p.msg.code == MESSAGE_AS_INVOKER
    requires ServerMove(x, device, S.Receive(x.nodes[device].server, p.msg, adm, env),
                        S.ReceiveSends(p.msg, adm, env), y)
    ensures Inv(y)
  {
    var sv := x.nodes[device].server;
    assert NodeInv(x.net, device, x.nodes[device]);
    assert Asked(x.net, device, p.msg);
    S.ReceiveConserves(sv, p.msg, adm, env);
    ReceivedGood(x.net, device, sv, p.msg, adm, env);
    assert S.Receive(sv, p.msg, adm, env).granted == sv.granted;
    hide S.Receive, S.ReceiveSends, S.Conserved, Inv, NodeInv, Asked, ServerMove, GoodAnswer;
    ServerMoveKeeps(x, device, S.Receive(sv, p.msg, adm, env), S.ReceiveSends(p.msg, adm, env), y);
  }

  lemma LoadedGood(net: set<Packet>, device: string, sv: S.Server, key: S.SaKey, found: bool, a: S.Answer,
                   env: S.ReplyEnv)
    requires forall r :: r in sv.pending ==> Asked(net, device, r.msg)
    ensures forall r :: r in S.Load(sv, key, found, a, env).pending ==> Asked(net, device, r.msg)
    ensures S.LoadSends(sv, key, found, a, env).Some? ==>
      GoodAnswer(net, device, S.Load(sv, key, found, a, env).granted, S.LoadSends(sv, key, found, a, env).value)
    ensures sv.granted <= S.Load(sv, key, found, a, env).granted
  {
    var sent := S.LoadSends(sv, key, found, a, env);
    if sent.Some? {
      AskedAgain(net, device, sv.pending[S.FirstOf(sv.pending, key)].msg, sent.value.msg);
    }
  }

  lemma LoadKeeps(x: System, device: string, key: S.SaKey, found: bool, a: S.Answer, env: S.ReplyEnv, y: System)
    requires Inv(x) && device in x.nodes
    requires ServerMove(x, device, S.Load(x.nodes[device].server, key, found, a, env),
                        S.LoadSends(x.nodes[device].server, key, found, a, env), y)
    ensures Inv(y)
  {
    var sv := x.nodes[device].server;
    assert NodeInv(x.net, device, x.nodes[device]);
    S.LoadConserves(sv, key, found, a, env);
    LoadedGood(x.net, device, sv, key, found, a, env);
    hide S.Load, S.LoadSends, S.Conserved, Inv, NodeInv, Asked, ServerMove, GoodAnswer;
    ServerMoveKeeps(x, device, S.Load(sv, key, found, a, env), S.LoadSends(sv, key, found, a, env), y);
  }

  lemma StepKeepsInv(x: System, device: string, act: Action, y: System)
    requires Inv(x) && Next(x, device, act, y)
    ensures Inv(y)
  {
    hide ClientMove, ServerMove;
    match act
    case Local(e) => ClientMoveKeeps(x, device, e, y);
    case Load(key, found, a, env) => LoadKeeps(x, device, key, found, a, env, y);
    case Receive(p, adm, env) =>
      assert PacketInv(x.nodes, x.net, p);
      assert p == Packet(device, p.msg);
      if p.msg.code == MESSAGE_AS_INVOKER {
        ReceiveKeeps(x, device, p, adm, env, y);
      } else if p.msg.code == MESSAGE_AS_REPLY {
        ClientMoveKeeps(x, device, C.Reply(p.msg), y);
      } else {
        ClientMoveKeeps(x, device, C.Error(p.msg), y);
      }
  }

  // ----- runs

  lemma {:induction false} RunInv(states: seq<System>, actions: seq<(string, Action)>, k: nat)
    requires IsRun(states, actions) && k < |states|
    ensures Inv(states[k])
  {
    hide Next;
    if k == 0 {
      R.StartInv();
    } else {
      RunInv(states, actions, k - 1);
      assert Next(states[k - 1], actions[k - 1].0, actions[k - 1].1, states[k]);
      StepKeepsInv(states[k - 1], actions[k - 1].0, actions[k - 1].1, states[k]);
    }
  }

  /** Every reply or error in flight carries the number, the tag, the device ids and the
      caller of a request that was sent before, by the device it goes back to, to a device
      of the system. */
  lemma AnswersComeFromRequests(states: seq<System>, actions: seq<(string, Action)>, k: nat, p: Packet)
    requires IsRun(states, actions) && k < |states|
    requires p in states[k].net && p.msg.code != MESSAGE_AS_INVOKER
    ensures exists q :: q in states[k].net && q.msg.code == MESSAGE_AS_INVOKER &&
              q.to in states[k].nodes && SameExchange(q.msg, p.msg) && p.to == q.msg.fromDeviceId
  {
    RunInv(states, actions, k);
    assert PacketInv(states[k].nodes, states[k].net, p);
    var d :| d in states[k].nodes && Asked(states[k].net, d, p.msg);
  }

  /** As long as the tag counter of a device has not wrapped, every session there was made
      from a reply to a request of that very stub: it carries the request's number and ids,
      and the stub index and session name granted by the device the stub names. No late,
      repeated or reordered reply ever gives a session to another stub. */
  lemma SessionsComeFromOwnRequests(
      states: seq<System>, actions: seq<(string, Action)>, k: nat, device: string, s: Stub)
    returns (request: Message, reply: Message)
    requires IsRun(states, actions) && k < |states| && device in states[k].nodes
    requires s in states[k].nodes[device].client.sessions
    requires I.NoWrap(states[k].nodes[device].client.tags.issued)
    ensures var c := states[k].nodes[device].client; var server := CStr(s.key.device);
      && c.sessions[s] == C.SessionOf(reply)
      && SameExchange(request, reply)
      && request.stub in c.tags.owner && c.tags.owner[request.stub] == s
      && request.code == MESSAGE_AS_INVOKER && request.fromDeviceId == device
      && Packet(server, request) in states[k].net && Packet(device, reply) in states[k].net
      && server in states[k].nodes && reply in states[k].nodes[server].server.granted
  {
    RunInv(states, actions, k);
    var x := states[k];
    var c := x.nodes[device].client;
    assert NodeInv(x.net, device, x.nodes[device]);
    assert SessionInv(c, x.net, device, s);
    var p :| p in x.net && p.to == device && p.msg.code == MESSAGE_AS_REPLY &&
      c.sessions[s] == C.SessionOf(p.msg) && Owns(c, p.msg.stub, s);
    assert PacketInv(x.nodes, x.net, p);
    var d :| d in x.nodes && Asked(x.net, d, p.msg) && p.msg in x.nodes[d].server.granted;
    var q :| q in x.net && q.msg.code == MESSAGE_AS_INVOKER && q.to == d && SameExchange(q.msg, p.msg);
    assert PacketInv(x.nodes, x.net, q);
    request, reply := q.msg, p.msg;
    assert q == Packet(d, request) && p == Packet(device, reply);
  }

  /** On every device of every run, requests queued are answers attempted plus requests pending. */
  lemma ServersConserve(states: seq<System>, actions: seq<(string, Action)>, k: nat, device: string, key: S.SaKey)
    requires IsRun(states, actions) && k < |states| && device in states[k].nodes
    ensures var sv := states[k].nodes[device].server;
      sv.queued[key] == sv.answered[key] + S.Tally(sv.pending)[key]
  {
    RunInv(states, actions, k);
    assert NodeInv(states[k].net, device, states[k].nodes[device]);
  }

  /** A granted request, sent back and handled while its stub is registered and without a
      session, stores exactly the server's stub index and session name when the name holds no
      NUL, and nothing otherwise; either way every caller waiting on the number's entry wakes.
      The token does not arrive: the success code overwrites the code that would announce it. */
  lemma GrantedRoundTrip(c: C.Client, s: Stub, m: Message, known: bool, found: bool, a: S.Answer)
    requires C.Addressee(c, m.stub) == Some(s) && s !in c.sessions
    requires S.Verdict(m, known, found, a) == 0
    ensures var env := S.ReplyEnv(true, true);
      var reply := S.ReplyPacket(S.Outcome(m, known, found, a), S.OutcomeCode(0), 0, env).value;
      var d := C.OnReply(c, reply.msg);
      && reply.to == m.fromDeviceId && SameExchange(reply.msg, m)
      && (NulFree(a.sessionName) ==>
            d.sessions == c.sessions[s := Session(m.seqNumber, DATABUS_TYPE, m.toPort, m.fromPort, a.stubIndex,
                                                  a.sessionName, 0, m.fromDeviceId, m.toDeviceId)])
      && (!NulFree(a.sessionName) ==> d.sessions == c.sessions)
      && (m.seqNumber in c.threadLocks ==>
            forall id :: C.At(c, id, Waiting(c.threadLocks[m.seqNumber])) ==> C.MayWake(d, id))
  {
    CStrTerminated(a.sessionName, m.serviceName[|a.sessionName| + 1..]);
  }

  /** The tag a request carries is live for the stub that sent it. */
  lemma SentTagIsLive(tt: C.TagTable, s: Stub)
    requires I.TagInv(tt) && I.NoWrap(C.AddTag(tt, s).issued)
    ensures C.TagFor(tt, s) in C.AddTag(tt, s).live && C.AddTag(tt, s).live[C.TagFor(tt, s)] == s
  {
  }

  /** A whole negotiation: the request a caller sends is queued by a server that had no other
      request for the ability, granted, answered, and the answer gives the caller's stub a
      session with the server's stub index and session name under the caller's number; the
      caller wakes and succeeds. */
  lemma NegotiationCompletes(c: C.Client, id: nat, env: C.SendEnv, sv: S.Server, adm: S.Admission,
                             key: S.SaKey, a: S.Answer)
    requires I.Inv(c) && C.At(c, id, Invoking) && C.InvokeSends(c, id, env).Some?
    requires I.NoWrap(C.InvokeCall(c, id, env).tags.issued)
    requires c.calls[id].stub in c.registered && c.calls[id].stub !in c.sessions
    requires var request := C.InvokeSends(c, id, env).value.msg;
      && S.Accepts(request, adm) && adm.available
      && key == S.KeyOf(S.Amend(request).value) && S.FirstOf(sv.pending, key) == |sv.pending|
      && S.Verdict(S.Amend(request).value, key.ability in sv.proxies, true, a) == 0
    requires NulFree(a.sessionName)
    ensures var call := c.calls[id];
      var request := C.InvokeSends(c, id, env).value;
      var sv1 := S.Receive(sv, request.msg, adm, S.ReplyEnv(true, true));
      var answer := S.LoadSends(sv1, key, true, a, S.ReplyEnv(true, true));
      && request.to == CStr(call.stub.key.device) && request.msg.code == MESSAGE_AS_INVOKER
      && answer.Some? && answer.value.to == CStr(env.localId) && answer.value.msg.code == MESSAGE_AS_REPLY
      && var d := C.OnReply(C.InvokeCall(c, id, env), answer.value.msg);
         && d.sessions == c.sessions[call.stub :=
              Session(call.seqNum, DATABUS_TYPE, 0, 0, a.stubIndex, a.sessionName, 0,
                      CStr(env.localId), CStr(call.stub.key.device))]
         && C.MayWake(d, id)
         && C.Succeeded(C.WokenCall(d, id), id)
  {
    var c1 := C.InvokeCall(c, id, env);
    var request := C.InvokeSends(c, id, env).value.msg;
    RequestGoesOut(c, id, env);
    ServerAnswers(sv, request, adm, key, a);
    hide C.InvokeCall, C.InvokeSends, S.Receive, S.LoadSends, S.Verdict, S.FirstOf, S.Accepts, S.Amend,
      C.OnReply, S.ReplyPacket, S.Outcome, S.OutcomeCode, I.Inv, I.NoWrap, C.Addressee;
    GrantedRoundTrip(c1, c.calls[id].stub, S.Amend(request).value, key.ability in sv.proxies, true, a);
    var outcome := S.Outcome(S.Amend(request).value, key.ability in sv.proxies, true, a);
    ReplyKeepsCall(c1, S.ReplyPacket(outcome, S.OutcomeCode(0), 0, S.ReplyEnv(true, true)).value.msg, id);
  }

  lemma ReplyKeepsCall(c: C.Client, m: Message, id: nat)
    requires C.MayWake(C.OnReply(c, m), id) && c.calls[id].stub in C.OnReply(c, m).sessions
    ensures C.OnReply(c, m).calls == c.calls
    ensures C.Succeeded(C.WokenCall(C.OnReply(c, m), id), id)
  {
  }

  /** A request names its sender and receiver, the caller, the ability and the number, its tag
      addresses the caller's stub, and the caller waits on the entry of that number. */
  lemma RequestGoesOut(c: C.Client, id: nat, env: C.SendEnv)
    requires I.Inv(c) && C.At(c, id, Invoking) && C.InvokeSends(c, id, env).Some?
    requires I.NoWrap(C.InvokeCall(c, id, env).tags.issued)
    requires c.calls[id].stub in c.registered
    ensures var call, d, request := c.calls[id], C.InvokeCall(c, id, env), C.InvokeSends(c, id, env).value;
      && request.to == CStr(call.stub.key.device) && request.msg.code == MESSAGE_AS_INVOKER
      && request.msg.fromDeviceId == CStr(env.localId) && request.msg.toDeviceId == CStr(call.stub.key.device)
      && request.msg.seqNumber == call.seqNum && request.msg.fromPort == 0 && request.msg.toPort == 0
      && request.msg.pid == call.stub.key.pid && request.msg.uid == call.stub.key.uid
      && ParseU64(call.stub.key.service) == Some(request.msg.stubIndex)
      && request.msg.binderObject == call.stub.binderObject && request.msg.tokenId == env.tokenId
      && request.msg.version == 2 && request.msg.transType == 0 && request.msg.serviceNameLength == 0
      && C.Addressee(d, request.msg.stub) == Some(call.stub)
      && d.sessions == c.sessions && id in d.calls && d.calls[id].stub == call.stub
      && call.seqNum in d.threadLocks && d.calls[id].pc == Waiting(d.threadLocks[call.seqNum])
  {
    SentTagIsLive(c.tags, c.calls[id].stub);
    hide I.Inv, I.NoWrap, C.AddTag, C.TagFor;
  }

  /** A server with no other request for the ability queues one and answers that one. */
  lemma ServerAnswers(sv: S.Server, request: Message, adm: S.Admission, key: S.SaKey, a: S.Answer)
    requires S.Accepts(request, adm) && adm.available
    requires key == S.KeyOf(S.Amend(request).value) && S.FirstOf(sv.pending, key) == |sv.pending|
    requires S.Verdict(S.Amend(request).value, key.ability in sv.proxies, true, a) == 0
    ensures var m, env := S.Amend(request).value, S.ReplyEnv(true, true);
      && SameExchange(m, request) && m.fromPort == request.fromPort && m.toPort == request.toPort
      && S.LoadSends(S.Receive(sv, request, adm, env), key, true, a, env) ==
           S.ReplyPacket(S.Outcome(m, key.ability in sv.proxies, true, a), S.OutcomeCode(0), 0, env)
      && S.LoadSends(S.Receive(sv, request, adm, env), key, true, a, env).Some?
      && S.LoadSends(S.Receive(sv, request, adm, env), key, true, a, env).value.msg.code == MESSAGE_AS_REPLY
  {
    NewestFound(sv.pending, S.Record(sv.nextRecord, S.Amend(request).value));
    hide S.FirstOf, S.Verdict;
  }

  lemma {:induction false} NewestFound(q: seq<S.Record>, r: S.Record)
    requires S.FirstOf(q, S.KeyOf(r.msg)) == |q|
    ensures S.FirstOf(q + [r], S.KeyOf(r.msg)) == |q|
  {
    if q != [] {
      assert (q + [r])[1..] == q[1..] + [r];
      NewestFound(q[1..], r);
    }
  }

  /** A refused record that stayed queued can be granted by a later answer exactly when no
      listener was there to mark it, and it was a well-formed request to begin with. */
  lemma RefusedRecordCanBeGranted(m: Message, listening: bool, known: bool)
    ensures var stuck := S.Marked(m, MESSAGE_AS_REMOTE_ERROR, DBINDER_SA_NOT_AVAILABLE, listening);
      (exists found, a :: S.Verdict(stuck, known, found, a) == 0) <==>
      !listening && m.transType == DATABUS_TYPE && !IllegalDevice(m.fromDeviceId)
  {
    var stuck := S.Marked(m, MESSAGE_AS_REMOTE_ERROR, DBINDER_SA_NOT_AVAILABLE, listening);
    if !listening && m.transType == DATABUS_TYPE && !IllegalDevice(m.fromDeviceId) {
      assert S.Verdict(stuck, known, true, S.Answer(true, true, true, true, 1, "n", 0)) == 0;
    }
  }

  /** In no run does a session carry the token of the server. */
  lemma TokensNeverArrive(states: seq<System>, actions: seq<(string, Action)>, k: nat, device: string, s: Stub)
    requires IsRun(states, actions) && k < |states| && device in states[k].nodes
    requires s in states[k].nodes[device].client.sessions
    ensures states[k].nodes[device].client.sessions[s].tokenId == 0
  {
    RunInv(states, actions, k);
    assert NodeInv(states[k].net, device, states[k].nodes[device]);
    assert SessionInv(states[k].nodes[device].client, states[k].net, device, s);
  }
}
