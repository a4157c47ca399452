/** The DBinder client of small systems: callers and reply handlers are threads that meet in
    three lists and in the mutex and condition of each waiter node. A step is what a thread
    does between two points where another thread can see the difference. */
module SmallDBinder {
  import opened Sequences
  import T = DBinderTypes
  import C = DBinderClient

  /** A DBinderServiceStub object; its identity stands for the address in svc.cookie. */
  datatype Stub = Stub(cookie: nat, service: string, device: string, binderObject: nat)

  datatype SessionInfo = SessionInfo(
    stub: nat, stubIndex: nat, serviceName: string, transType: nat, toPort: nat, fromPort: nat,
    fromDeviceId: string, toDeviceId: string)

  /** A ThreadLockInfo object. */
  datatype Node = Node(id: nat, seqNumber: nat, owner: nat)

  datatype Pc =
    | Creating                        // no stub found, a new one is about to be listed
    | Start                           // about to ask for a sequence number
    | Counting                        // the counter is advanced, not yet read
    | Numbered                        // has its number
    | Attached(node: Node)            // its node is listed
    | Locked(node: Node)              // holds the node's mutex, nothing sent
    | Sent(node: Node)                // the request is out, still holds the mutex
    | Blocked(node: Node)             // in the timed wait
    | Signalled(node: Node)           // taken out of the wait, needs the mutex back
    | Expired(node: Node)             // timed out, needs the mutex back
    | Awake(node: Node, ret: bool)    // holds the mutex, about to look for a session
    | Failed                          // every try failed, about to drop the session
    | Dropped                         // the session is dropped, the stub still listed
    | Done(ok: bool)

  datatype Call = Call(stub: Stub, seqNumber: nat, tries: nat, pc: Pc)

  datatype HandlerPc =
    | Arrived                         // the reply is read
    | StubKnown                       // some listed stub has its binder object
    | Checked                         // it is valid and its stub had no session
    | Made                            // MakeSessionByReplyMessage is over
    | Found(node: Node)               // the waiter node was looked up
    | Holding(node: Node)             // holds its mutex, about to signal

  /** backed is history: a session for the reply's stub was listed when it had been handled. */
  datatype Handler = Handler(msg: T.Message, pc: HandlerPc, backed: bool)

  datatype Holder = ByCaller | ByHandler(h: nat)

  datatype State = State(
    nextStub: nat,
    stubs: seq<Stub>,                 // g_stubRegistedList
    sessions: seq<SessionInfo>,       // g_sessionInfoList
    counter: nat,                     // seqNumber, a 32-bit counter
    nextNode: nat,
    locks: seq<Node>,                 // g_threadLockInfoList
    mutexes: map<Node, Holder>,       // the node mutexes that are held
    calls: map<nat, Call>,            // threads in MakeRemoteBinder
    handlers: map<nat, Handler>,      // threads in OnRemoteReplyMessage
    // history, read by no step:
    dropped: set<nat>,                // cookies whose session a failing call dropped
    cleaned: set<nat>)                // cookies whose stub a failing call unlisted

  function Initial(): State { State(0, [], [], 0, 0, [], map[], map[], map[], {}, {}) }

  datatype Event =
    | Begin(id: nat, service: string, device: string, binderObject: nat)
    | Register(id: nat, alloc: bool)
    | Advance(id: nat)
    | Read(id: nat)
    | Attach(id: nat, alloc: bool)
    | LockNode(id: nat)
    | Send(id: nat, sent: bool)
    | Wait(id: nat, clock: bool)
    | Spurious(id: nat)
    | Expire(id: nat)
    | Wake(id: nat, ret: bool)
    | Exit(id: nat)
    | GiveUp(id: nat)
    | Drop(id: nat)
    | Unlist(id: nat)
    | Arrive(h: nat, msg: T.Message)
    | CheckStub(h: nat)
    | CheckSession(h: nat)
    | AttachSession(h: nat, alloc: bool)
    | FindLock(h: nat)
    | LockFound(h: nat)
    | Signal(h: nat)

  // ----- the lists

  /** IsSameStub. */
  predicate SameStub(s: Stub, service: string, device: string, binderObject: nat) {
    s.service == service && s.device == device && s.binderObject == binderObject
  }

  function FindStub(stubs: seq<Stub>, service: string, device: string, binderObject: nat): T.Option<Stub> {
    if stubs == [] then T.None
    else if SameStub(stubs[0], service, device, binderObject) then T.Some(stubs[0])
    else FindStub(stubs[1..], service, device, binderObject)
  }

  /** QueryThreadLockInfo. */
  function FindNode(locks: seq<Node>, seqNumber: nat): T.Option<Node> {
    if locks == [] then T.None
    else if locks[0].seqNumber == seqNumber then T.Some(locks[0])
    else FindNode(locks[1..], seqNumber)
  }

  predicate HasSession(sessions: seq<SessionInfo>, cookie: nat) {
    exists i :: 0 <= i < |sessions| && sessions[i].stub == cookie
  }

  /** How many sessions of a stub are listed. */
  function CountOf(sessions: seq<SessionInfo>, cookie: nat): nat {
    if sessions == [] then 0 else CountOf(sessions[1..], cookie) + if sessions[0].stub == cookie then 1 else 0
  }

  predicate HasBinderObject(stubs: seq<Stub>, binderObject: nat) {
    exists i :: 0 <= i < |stubs| && stubs[i].binderObject == binderObject
  }

  /** The sessions without the first one of a cookie. */
  function DropSession(sessions: seq<SessionInfo>, cookie: nat): seq<SessionInfo> {
    if sessions == [] then []
    else if sessions[0].stub == cookie then sessions[1..]
    else [sessions[0]] + DropSession(sessions[1..], cookie)
  }

  // ----- callers

  /** The node a caller has listed. */
  function NodeOf(pc: Pc): T.Option<Node> {
    match pc
    case Attached(node) => T.Some(node)
    case Locked(node) => T.Some(node)
    case Sent(node) => T.Some(node)
    case Blocked(node) => T.Some(node)
    case Signalled(node) => T.Some(node)
    case Expired(node) => T.Some(node)
    case Awake(node, _) => T.Some(node)
    case _ => T.None
  }

  predicate HoldsMutex(pc: Pc) {
    pc.Locked? || pc.Sent? || pc.Awake?
  }

  /** One round of the retry loop is over. */
  function AfterTry(call: Call, ok: bool): Call {
    call.(tries := call.tries + 1,
          pc := if ok then Done(true) else if call.tries + 1 < T.RETRY_TIMES then Start else Failed)
  }

  function SetCall(s: State, id: nat, call: Call): State {
    s.(calls := s.calls[id := call])
  }

  /** A caller leaves InvokerRemoteDBinder: its node is unlisted and its mutex released. */
  function Leave(s: State, id: nat, node: Node, ok: bool): State
    requires id in s.calls
  {
    s.(locks := Without(s.locks, {node}),
       mutexes := s.mutexes - {node},
       calls := s.calls[id := AfterTry(s.calls[id], ok)])
  }

  predicate At(s: State, id: nat, pc: Pc) {
    id in s.calls && s.calls[id].pc == pc
  }

  // ----- handlers

  function SessionOf(m: T.Message): SessionInfo {
    SessionInfo(m.stub, m.stubIndex, T.CStr(m.serviceName), m.transType, m.toPort, m.fromPort,
                m.fromDeviceId, m.toDeviceId)
  }

  /** The name and the stub index are good. */
  predicate WellFormed(m: T.Message) {
    C.ValidSessionName(m) && m.stubIndex != 0
  }

  /** What MakeSessionByReplyMessage asks for when nobody gets in between. */
  predicate Attaches(stubs: seq<Stub>, sessions: seq<SessionInfo>, m: T.Message) {
    HasBinderObject(stubs, m.binderObject) && !HasSession(sessions, m.stub) && WellFormed(m)
  }

  predicate HandlerAt(s: State, h: nat, pc: HandlerPc) {
    h in s.handlers && s.handlers[h].pc == pc
  }

  /** The condition of a node is signalled: its owner, if it waits there, leaves the wait. */
  function Signalling(calls: map<nat, Call>, node: Node): map<nat, Call> {
    if node.owner in calls && calls[node.owner].pc == Blocked(node)
    then calls[node.owner := calls[node.owner].(pc := Signalled(node))]
    else calls
  }

  // ----- the steps

  predicate Enabled(s: State, e: Event) {
    match e
    case Begin(id, _, _, _) => id !in s.calls
    case Register(id, _) => At(s, id, Creating)
    case Advance(id) => At(s, id, Start)
    case Read(id) => At(s, id, Counting)
    case Attach(id, _) => At(s, id, Numbered)
    case LockNode(id) => id in s.calls && s.calls[id].pc.Attached? && s.calls[id].pc.node !in s.mutexes
    case Send(id, _) => id in s.calls && s.calls[id].pc.Locked?
    case Wait(id, _) => id in s.calls && s.calls[id].pc.Sent?
    case Spurious(id) => id in s.calls && s.calls[id].pc.Blocked?
    case Expire(id) => id in s.calls && s.calls[id].pc.Blocked?
    case Wake(id, _) => id in s.calls && s.calls[id].pc.Signalled? && s.calls[id].pc.node !in s.mutexes
    case Exit(id) => id in s.calls && s.calls[id].pc.Awake?
    case GiveUp(id) => id in s.calls && s.calls[id].pc.Expired? && s.calls[id].pc.node !in s.mutexes
    case Drop(id) => At(s, id, Failed)
    case Unlist(id) => At(s, id, Dropped)
    case Arrive(h, _) => h !in s.handlers
    case CheckStub(h) => HandlerAt(s, h, Arrived)
    case CheckSession(h) => HandlerAt(s, h, StubKnown)
    case AttachSession(h, _) => HandlerAt(s, h, Checked)
    case FindLock(h) => HandlerAt(s, h, Made)
    case LockFound(h) => h in s.handlers && s.handlers[h].pc.Found? && s.handlers[h].pc.node !in s.mutexes
    case Signal(h) => h in s.handlers && s.handlers[h].pc.Holding?
  }

  function BeginCall(s: State, id: nat, service: string, device: string, binderObject: nat): State {
    match FindStub(s.stubs, service, device, binderObject)
    case Some(stub) => SetCall(s, id, Call(stub, 0, 0, Start))
    case None =>
      SetCall(s.(nextStub := s.nextStub + 1), id,
              Call(Stub(s.nextStub, service, device, binderObject), 0, 0, Creating))
  }

  function RegisterStub(s: State, id: nat, alloc: bool): State
    requires id in s.calls
  {
    var call := s.calls[id];
    s.(stubs := if alloc then [call.stub] + s.stubs else s.stubs,
       calls := s.calls[id := call.(pc := if alloc then Start else Done(false))])
  }

  function AttachNode(s: State, id: nat, alloc: bool): State
    requires id in s.calls
  {
    var call := s.calls[id];
    var node := Node(s.nextNode, call.seqNumber, id);
    s.(nextNode := s.nextNode + 1,
       locks := if alloc then [node] + s.locks else s.locks,
       calls := s.calls[id := if alloc then call.(pc := Attached(node)) else AfterTry(call, false)])
  }

  /** The caller enters the mutex of its node, or leaves it for the wait. */
  function Hold(s: State, id: nat, node: Node, pc: Pc): State
    requires id in s.calls
  {
    s.(mutexes := s.mutexes[node := ByCaller], calls := s.calls[id := s.calls[id].(pc := pc)])
  }

  function Block(s: State, id: nat, node: Node): State
    requires id in s.calls
  {
    s.(mutexes := s.mutexes - {node}, calls := s.calls[id := s.calls[id].(pc := Blocked(node))])
  }

  /** A failed call drops the first session of its stub. */
  function DropStep(s: State, id: nat): State
    requires id in s.calls
  {
    var cookie := s.calls[id].stub.cookie;
    s.(sessions := DropSession(s.sessions, cookie),
       dropped := s.dropped + {cookie},
       calls := s.calls[id := s.calls[id].(pc := Dropped)])
  }

  /** Then it takes its stub off the list. */
  function UnlistStep(s: State, id: nat): State
    requires id in s.calls
  {
    var stub := s.calls[id].stub;
    s.(stubs := Without(s.stubs, {stub}),
       cleaned := s.cleaned + {stub.cookie},
       calls := s.calls[id := s.calls[id].(pc := Done(false))])
  }

  /** The handler goes on to pc, or is done with the session. */
  function Proceed(s: State, h: nat, pass: bool, pc: HandlerPc): State
    requires h in s.handlers
  {
    var m := s.handlers[h].msg;
    s.(handlers := s.handlers[h := if pass then Handler(m, pc, false)
                                   else Handler(m, Made, HasSession(s.sessions, m.stub))])
  }

  /** The session is put in front without another look. */
  function AttachStep(s: State, h: nat, alloc: bool): State
    requires h in s.handlers
  {
    var m := s.handlers[h].msg;
    s.(sessions := if alloc then [SessionOf(m)] + s.sessions else s.sessions,
       handlers := s.handlers[h := Handler(m, Made, alloc || HasSession(s.sessions, m.stub))])
  }

  function FindLockStep(s: State, h: nat): State
    requires h in s.handlers
  {
    var m := s.handlers[h].msg;
    s.(handlers := match FindNode(s.locks, m.seqNumber)
                   case None => s.handlers - {h}
                   case Some(node) => s.handlers[h := s.handlers[h].(pc := Found(node))])
  }

  function LockFoundStep(s: State, h: nat, node: Node): State
    requires h in s.handlers
  {
    s.(mutexes := s.mutexes[node := ByHandler(h)], handlers := s.handlers[h := s.handlers[h].(pc := Holding(node))])
  }

  function SignalStep(s: State, h: nat, node: Node): State {
    s.(mutexes := s.mutexes - {node}, calls := Signalling(s.calls, node), handlers := s.handlers - {h})
  }

  function Next(s: State, e: Event): State
    requires Enabled(s, e)
  {
    match e
    case Begin(id, service, device, binderObject) => BeginCall(s, id, service, device, binderObject)
    case Register(id, alloc) => RegisterStub(s, id, alloc)
    case Advance(id) =>
      SetCall(s.(counter := (s.counter + 1) % T.TWO_32), id, s.calls[id].(pc := Counting))
    case Read(id) => SetCall(s, id, s.calls[id].(seqNumber := s.counter, pc := Numbered))
    case Attach(id, alloc) => AttachNode(s, id, alloc)
    case LockNode(id) => Hold(s, id, s.calls[id].pc.node, Locked(s.calls[id].pc.node))
    case Send(id, sent) =>
      SetCall(s, id, s.calls[id].(pc := if sent then Sent(s.calls[id].pc.node) else Awake(s.calls[id].pc.node, false)))
    case Wait(id, clock) =>
      if clock then Block(s, id, s.calls[id].pc.node) else Leave(s, id, s.calls[id].pc.node, false)
    case Spurious(id) => SetCall(s, id, s.calls[id].(pc := Signalled(s.calls[id].pc.node)))
    case Expire(id) => SetCall(s, id, s.calls[id].(pc := Expired(s.calls[id].pc.node)))
    case Wake(id, ret) => Hold(s, id, s.calls[id].pc.node, Awake(s.calls[id].pc.node, ret))
    case Exit(id) =>
      Leave(s, id, s.calls[id].pc.node, s.calls[id].pc.ret && HasSession(s.sessions, s.calls[id].stub.cookie))
    case GiveUp(id) => Leave(s, id, s.calls[id].pc.node, false)
    case Drop(id) => DropStep(s, id)
    case Unlist(id) => UnlistStep(s, id)
    case Arrive(h, msg) => s.(handlers := s.handlers[h := Handler(msg, Arrived, false)])
    case CheckStub(h) =>
      Proceed(s, h, HasBinderObject(s.stubs, s.handlers[h].msg.binderObject), StubKnown)
    case CheckSession(h) =>
      Proceed(s, h, !HasSession(s.sessions, s.handlers[h].msg.stub) && WellFormed(s.handlers[h].msg), Checked)
    case AttachSession(h, alloc) => AttachStep(s, h, alloc)
    case FindLock(h) => FindLockStep(s, h)
    case LockFound(h) => LockFoundStep(s, h, s.handlers[h].pc.node)
    case Signal(h) => SignalStep(s, h, s.handlers[h].pc.node)
  }
}
