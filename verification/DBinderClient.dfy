/** The client half of a DBinder service as a state machine. A step is one uninterrupted
    stretch of a caller inside MakeRemoteBinder, one message handler or one notice; every
    answer of the outside world (clock, transport, reference counts) is part of the event. */
module DBinderClient {
  import opened Sequences
  import opened DBinderTypes

  /** The tag map with its counter; issued and owner are history, read by no step. */
  datatype TagTable = TagTable(
    live: map<nat, Stub>,               // mapDBinderStubRegisters_
    counter: nat,                       // stubTagNum_, a 64-bit counter
    issued: nat,                        // how often the counter was advanced
    owner: map<nat, Stub>)              // every tag ever entered in live

  datatype Client = Client(
    nextStub: nat,                      // identity of the next stub object
    registered: seq<Stub>,              // DBinderStubRegisted_
    tags: TagTable,
    seqNumber: nat,                     // seqNumber_, a 32-bit counter
    status: map<Stub, NegoStatus>,      // negoStatus_ of each stub, NEGO_INIT when absent
    seqNums: map<Stub, nat>,            // seqNum_ of each stub, 0 when absent
    sessions: map<Stub, Session>,       // sessionObject_
    nextLock: nat,                      // identity of the next ThreadLockInfo
    threadLocks: map<nat, Lock>,        // threadLockInfo_
    ready: set<Lock>,                   // the locks whose ready flag is set
    calls: map<nat, Call>,              // threads inside MakeRemoteBinder
    noticeProxy: map<nat, Stub>,        // noticeProxy_
    deathRecipients: map<nat, nat>,     // deathRecipients_
    // history, read by no step:
    noticed: set<Stub>,                 // stubs removed by a death notice
    cleaned: set<Stub>)                 // stubs whose session a failing call dropped

  function Start(): Client {
    Client(0, [], TagTable(map[], 1, 0, map[]), 0, map[], map[], map[], 0, map[], {},
           map[], map[], map[], {}, {})
  }

  /** What the transport answers to SendEntryToRemote. */
  datatype SendEnv = SendEnv(localId: string, tokenId: nat, delivered: bool)

  datatype Event =
    | Begin(id: nat, key: StubKey, binderObject: int)
    | Invoke(id: nat, env: SendEnv)
    | Poll(id: nat)
    | Timeout(id: nat)
    | Woken(id: nat)
    | Test(id: nat, refsLow: bool)
    | Delete(id: nat)
    | Detach(id: nat)
    | Reply(msg: Message)
    | Error(msg: Message)
    | SessionClosed(networkId: string)
    | ServiceDied(service: string, device: string)
    | DeviceDied(device: string, listening: bool)
    | ClearState(stub: Stub)
    | AddRecipient(stub: Stub, proxy: nat, death: nat, accepted: bool)
    | RemoveRecipient(proxy: nat)
    | ProxyDied(proxy: nat)

  // ----- reading the state

  function StatusOf(c: Client, s: Stub): NegoStatus {
    if s in c.status then c.status[s] else NegoInit
  }

  function SeqNumOf(c: Client, s: Stub): nat {
    if s in c.seqNums then c.seqNums[s] else 0
  }

  /** The first registered stub with this key. */
  function FindKey(registered: seq<Stub>, key: StubKey): Option<Stub> {
    if registered == [] then None
    else if registered[0].key == key then Some(registered[0])
    else FindKey(registered[1..], key)
  }

  predicate SameService(s: Stub, service: string, device: string) {
    s.key.service == service && s.key.device == device
  }

  function OfService(registered: seq<Stub>, service: string, device: string): set<Stub> {
    set s | s in registered && SameService(s, service, device)
  }

  function OfDevice(registered: seq<Stub>, device: string): set<Stub> {
    set s | s in registered && s.key.device == device
  }

  /** A step that leaves the registry and the sessions alone. */
  predicate SameStubs(c: Client, d: Client) {
    d.registered == c.registered && d.sessions == c.sessions && d.nextStub == c.nextStub
  }

  /** No stub enters the registry but possibly the next new one. */
  ghost predicate RegistersOnlyNext(c: Client, d: Client) {
    c.nextStub <= d.nextStub &&
    forall s :: s in d.registered ==> s in c.registered || s.id == c.nextStub
  }

  /** The history of tags stays as it was. */
  predicate SameOwners(c: Client, d: Client) {
    d.tags.owner == c.tags.owner && d.tags.issued == c.tags.issued
  }

  /** Only the frame of caller id may differ. */
  predicate MovesOnly(c: Client, d: Client, id: nat) {
    d.calls == c.calls || (id in d.calls && d.calls == c.calls[id := d.calls[id]])
  }

  predicate Succeeded(c: Client, id: nat) {
    id in c.calls && c.calls[id].pc == Done(DBINDER_OK)
  }

  // ----- elementary updates

  function SetStatus(c: Client, s: Stub, st: NegoStatus): (d: Client)
    ensures SameStubs(c, d)
    ensures d.calls == c.calls
    ensures d.tags == c.tags
  {
    c.(status := c.status[s := st])
  }

  function SetCall(c: Client, id: nat, call: Call): Client {
    c.(calls := c.calls[id := call])
  }

  /** The tag under which a stub is listed. */
  ghost function TagOf(live: map<nat, Stub>, s: Stub): (t: nat)
    requires s in live.Values
    ensures t in live && live[t] == s
  {
    var t :| t in live && live[t] == s;
    t
  }

  /** AddStubByTag: a stub without a tag is entered under the next one, unless a wrapped
      counter hits a live tag. */
  function AddTag(tt: TagTable, s: Stub): TagTable {
    if s in tt.live.Values then tt
    else
      var add := tt.counter !in tt.live;
      TagTable(if add then tt.live[tt.counter := s] else tt.live,
               NextTag(tt.counter),
               tt.issued + 1,
               if add then tt.owner[tt.counter := s] else tt.owner)
  }

  /** What AddStubByTag returns: the tag already held, the new one, or 0. */
  ghost function TagFor(tt: TagTable, s: Stub): nat {
    if s in tt.live.Values then TagOf(tt.live, s)
    else if tt.counter in tt.live then 0
    else tt.counter
  }

  function DropTags(tt: TagTable, gone: set<Stub>): TagTable {
    tt.(live := map t | t in tt.live && tt.live[t] !in gone :: tt.live[t])
  }

  /** Everything listed for the stubs in gone leaves all the containers. */
  function Purge(c: Client, gone: set<Stub>): (d: Client)
    ensures d.calls == c.calls
    ensures RegistersOnlyNext(c, d) && forall s :: s in d.sessions ==> s in c.sessions && d.sessions[s] == c.sessions[s]
    ensures SameOwners(c, d)
  {
    WithoutMembers(c.registered, gone);
    c.(registered := Without(c.registered, gone),
       tags := DropTags(c.tags, gone),
       sessions := c.sessions - gone,
       noticeProxy := map p | p in c.noticeProxy && c.noticeProxy[p] !in gone :: c.noticeProxy[p],
       deathRecipients := map p | p in c.deathRecipients &&
                                  !(p in c.noticeProxy && c.noticeProxy[p] in gone)
                              :: c.deathRecipients[p],
       noticed := c.noticed + gone)
  }

  // ----- the steps of a caller

  predicate AcceptsKey(key: StubKey) {
    !IllegalDevice(key.device) && |key.service| > 0
  }

  /** The key is already registered: share its stub and its sequence number. */
  function JoinCall(c: Client, id: nat, s: Stub): Client {
    SetCall(c, id, Call(s, SeqNumOf(c, s), false, 0, Invoking))
  }

  function NewCall(c: Client, id: nat, s: Stub, n: nat): Client {
    SetCall(c.(nextStub := c.nextStub + 1,
               registered := c.registered + [s],
               seqNumber := n,
               seqNums := c.seqNums[s := n]),
            id, Call(s, n, true, 0, Invoking))
  }

  function BeginCall(c: Client, id: nat, key: StubKey, binderObject: int): (d: Client)
    ensures RegistersOnlyNext(c, d) && d.sessions == c.sessions
    ensures MovesOnly(c, d, id)
    ensures id !in c.calls ==> !Succeeded(d, id)
    ensures d.tags == c.tags
  {
    if !AcceptsKey(key) then c
    else match FindKey(c.registered, key)
      case Some(s) => JoinCall(c, id, s)
      case None =>
        NewCall(c, id, Stub(c.nextStub, key, FromInt32(binderObject)), NextSeq(c.seqNumber))
  }

  function RequestMessage(s: Stub, stubIndex: nat, seqNum: nat, tag: nat, env: SendEnv): Message {
    Message(RPC_TOKENID_SUPPORT_VERSION, DATABUS_TYPE, MESSAGE_AS_INVOKER, 0, 0, stubIndex, seqNum,
            s.binderObject, env.tokenId, CStr(env.localId), CStr(s.key.device), tag,
            0, ZeroBuffer(), s.key.pid, s.key.uid)
  }

  /** CreateMessage gets as far as taking a tag. */
  predicate Addressable(s: Stub, env: SendEnv) {
    !IllegalDevice(s.key.device) && !IllegalDevice(env.localId) && ParseU64(s.key.service).Some?
  }

  /** SendEntryToRemote: the tag is taken even when the transport then refuses. */
  function TagsAfterSend(tt: TagTable, s: Stub, env: SendEnv): (r: TagTable)
    ensures r == tt || r == AddTag(tt, s)
  {
    if Addressable(s, env) then AddTag(tt, s) else tt
  }

  ghost function EntrySent(tt: TagTable, s: Stub, seqNum: nat, env: SendEnv): Option<Packet> {
    if Addressable(s, env) && env.delivered then
      Some(Packet(CStr(s.key.device),
                  RequestMessage(s, ParseU64(s.key.service).value, seqNum, TagFor(tt, s), env)))
    else None
  }

  predicate Requests(c: Client, call: Call) {
    call.isNew || StatusOf(c, call.stub) == NegoInit
  }

  /** InvokerRemoteDBinderWhenRequest: with the number's entry free and the request sent the
      caller waits on its own new lock; otherwise the stub is back at NEGO_INIT. */
  function Request(c: Client, id: nat, env: SendEnv): (d: Client)
    requires id in c.calls
    ensures SameStubs(c, d)
    ensures MovesOnly(c, d, id) && !Succeeded(d, id)
    ensures d.tags == c.tags || d.tags == AddTag(c.tags, c.calls[id].stub)
  {
    var call := c.calls[id];
    var s := call.stub;
    var lock := Lock(c.nextLock, s.key.device, id);
    var busy := call.seqNum in c.threadLocks;
    var sent := !busy && Addressable(s, env) && env.delivered;
    c.(tags := if busy then c.tags else TagsAfterSend(c.tags, s, env),
       status := c.status[s := if sent then NegoDoing else NegoInit],
       nextLock := c.nextLock + 1,
       threadLocks := if sent then c.threadLocks[call.seqNum := lock] else c.threadLocks,
       calls := c.calls[id :=
         if sent then call.(pc := Waiting(lock))
         else AfterInvoke(call, if busy then DBINDER_MAKE_THREADLOCK_FAILED
                                else DBINDER_SEND_MESSAGE_FAILED)])
  }

  ghost function RequestSends(c: Client, id: nat, env: SendEnv): Option<Packet>
    requires id in c.calls
  {
    var call := c.calls[id];
    if call.seqNum !in c.threadLocks then EntrySent(c.tags, call.stub, call.seqNum, env) else None
  }

  function InvokeCall(c: Client, id: nat, env: SendEnv): (d: Client)
    requires id in c.calls
    ensures SameStubs(c, d)
    ensures MovesOnly(c, d, id) && !Succeeded(d, id)
    ensures d.tags == c.tags || d.tags == AddTag(c.tags, c.calls[id].stub)
  {
    if Requests(c, c.calls[id]) then Request(c, id, env)
    else SetCall(c, id, c.calls[id].(pc := Polling(0)))
  }

  /** The request an invocation puts on the network, if any. */
  ghost function InvokeSends(c: Client, id: nat, env: SendEnv): Option<Packet>
    requires id in c.calls
  {
    if Requests(c, c.calls[id]) then RequestSends(c, id, env) else None
  }

  /** One turn of the loop in InvokerRemoteDBinderWhenWaitRsp. */
  function PollNext(c: Client, call: Call): (r: Call)
    requires call.pc.Polling?
    ensures r.stub == call.stub
    ensures r.pc == Done(DBINDER_OK) ==> StatusOf(c, call.stub) == NegoFinished
    ensures r.pc != Failed(DBINDER_OK)
  {
    if StatusOf(c, call.stub) == NegoFinished then AfterInvoke(call, DBINDER_OK)
    else if call.seqNum in c.threadLocks then call.(pc := Waiting(c.threadLocks[call.seqNum]))
    else if call.pc.count + 1 < THREAD_LOCK_RETRY_TIMES then call.(pc := Polling(call.pc.count + 1))
    else AfterInvoke(call, DBINDER_MAKE_THREADLOCK_FAILED)
  }

  function PollCall(c: Client, id: nat): (d: Client)
    requires id in c.calls && c.calls[id].pc.Polling?
    ensures SameStubs(c, d) && d.tags == c.tags
    ensures MovesOnly(c, d, id) && d.calls[id].stub == c.calls[id].stub
    ensures Succeeded(d, id) ==> StatusOf(d, c.calls[id].stub) == NegoFinished
  {
    SetCall(c, id, PollNext(c, c.calls[id]))
  }

  function TimeoutCall(c: Client, id: nat): (d: Client)
    requires id in c.calls && c.calls[id].pc.Waiting?
    ensures SameStubs(c, d)
    ensures MovesOnly(c, d, id) && !Succeeded(d, id)
    ensures d.tags == c.tags
  {
    var call := c.calls[id];
    c.(status := c.status[call.stub := NegoInit],
       threadLocks := c.threadLocks - {call.seqNum},
       ready := c.ready - {call.pc.lock},
       calls := c.calls[id := AfterInvoke(call, DBINDER_WAIT_REPLY_TIMEOUT)])
  }

  function WokenCall(c: Client, id: nat): (d: Client)
    requires id in c.calls
    ensures SameStubs(c, d)
    ensures MovesOnly(c, d, id) && d.calls[id].stub == c.calls[id].stub
    ensures Succeeded(d, id) ==> StatusOf(d, c.calls[id].stub) == NegoFinished && c.calls[id].stub in c.sessions
    ensures d.tags == c.tags
  {
    var call := c.calls[id];
    var ok := call.stub in c.sessions;
    c.(status := c.status[call.stub := if ok then NegoFinished else NegoInit],
       calls := c.calls[id := AfterInvoke(call, if ok then DBINDER_OK
                                                else DBINDER_QUERY_REPLY_SESSION_FAILED)])
  }

  /** The stub registered under a key, as a set. */
  function Holder(registered: seq<Stub>, key: StubKey): set<Stub> {
    match FindKey(registered, key)
    case None => {}
    case Some(s) => {s}
  }

  /** A failing call counts the references to its stub. */
  function TestCall(c: Client, id: nat, refsLow: bool): (d: Client)
    requires id in c.calls && c.calls[id].pc.Failed?
    ensures SameStubs(c, d)
    ensures MovesOnly(c, d, id) && d.calls[id].stub == c.calls[id].stub
    ensures c.calls[id].pc.code != DBINDER_OK ==> !Succeeded(d, id)
    ensures d.tags == c.tags
  {
    var call := c.calls[id];
    c.(calls := c.calls[id := call.(pc := if refsLow then Deleting(call.pc.code) else Done(call.pc.code))])
  }

  /** Whichever stub is registered under the key goes, with its tags. */
  function DeleteCall(c: Client, id: nat): (d: Client)
    requires id in c.calls && c.calls[id].pc.Deleting?
    ensures RegistersOnlyNext(c, d) && d.sessions == c.sessions
    ensures MovesOnly(c, d, id) && d.calls[id].stub == c.calls[id].stub && !Succeeded(d, id)
    ensures SameOwners(c, d)
  {
    var call := c.calls[id];
    var deleted := Holder(c.registered, call.stub.key);
    WithoutMembers(c.registered, deleted);
    c.(registered := Without(c.registered, deleted),
       tags := DropTags(c.tags, deleted),
       calls := c.calls[id := call.(pc := Detaching(call.pc.code))])
  }

  /** The session of the call's own stub goes. */
  function DetachCall(c: Client, id: nat): (d: Client)
    requires id in c.calls && c.calls[id].pc.Detaching?
    ensures d.registered == c.registered && d.nextStub == c.nextStub
    ensures forall s :: s in d.sessions ==> s in c.sessions && d.sessions[s] == c.sessions[s]
    ensures MovesOnly(c, d, id) && d.calls[id].stub == c.calls[id].stub
    ensures c.calls[id].pc.code != DBINDER_OK ==> !Succeeded(d, id)
    ensures d.tags == c.tags
  {
    var call := c.calls[id];
    c.(sessions := c.sessions - {call.stub},
       cleaned := c.cleaned + {call.stub},
       calls := c.calls[id := call.(pc := Done(call.pc.code))])
  }

  // ----- message handlers

  predicate ValidSessionName(m: Message) {
    var realLen := |CStr(m.serviceName)|;
    m.serviceNameLength <= SERVICENAME_LENGTH && realLen <= SERVICENAME_LENGTH &&
    realLen == m.serviceNameLength
  }

  function SessionOf(m: Message): Session {
    Session(m.seqNumber, m.transType, m.toPort, m.fromPort, m.stubIndex, CStr(m.serviceName),
            if m.code == MESSAGE_AS_REPLY then 0 else m.tokenId, m.fromDeviceId, m.toDeviceId)
  }

  /** IsSameSession compares everything but the sequence number and the token. */
  predicate SameSession(a: Session, b: Session) {
    a == b.(seqNumber := a.seqNumber, tokenId := a.tokenId)
  }

  /** The stub a reply speaks about: its tag is listed and the stub still registered. */
  function Addressee(c: Client, tag: nat): Option<Stub> {
    if tag in c.tags.live && c.tags.live[tag] in c.registered then Some(c.tags.live[tag]) else None
  }

  /** Whether a new session takes the place of what is stored. */
  predicate Supersedes(c: Client, s: Stub, offered: Session) {
    s !in c.sessions ||
    (!SameSession(c.sessions[s], offered) && c.sessions[s].seqNumber <= offered.seqNumber)
  }

  function MakeSession(c: Client, m: Message): Client {
    var addressee := Addressee(c, m.stub);
    c.(sessions :=
       if addressee.Some? && ValidSessionName(m) && m.stubIndex != 0 &&
          Supersedes(c, addressee.value, SessionOf(m))
       then c.sessions[addressee.value := SessionOf(m)]
       else c.sessions)
  }

  /** WakeupThreadByStub followed by DetachThreadLockInfo. */
  function WakeAndDetach(c: Client, seqNum: nat): (d: Client)
    ensures SameStubs(c, d)
    ensures d.calls == c.calls
    ensures d.tags == c.tags
  {
    c.(ready := if seqNum in c.threadLocks then c.ready + {c.threadLocks[seqNum]} else c.ready,
       threadLocks := c.threadLocks - {seqNum})
  }

  function OnReply(c: Client, m: Message): (d: Client)
    ensures d.calls == c.calls
    ensures d.registered == c.registered
    ensures d.nextStub == c.nextStub
    ensures d.tags == c.tags
  {
    WakeAndDetach(MakeSession(c, m), m.seqNumber)
  }

  function OnError(c: Client, m: Message): (d: Client)
    ensures SameStubs(c, d)
    ensures d.calls == c.calls
    ensures d.tags == c.tags
  {
    WakeAndDetach(c, m.seqNumber)
  }

  function CloseSession(c: Client, networkId: string): (d: Client)
    ensures SameStubs(c, d)
    ensures d.calls == c.calls
    ensures d.tags == c.tags
  {
    c.(threadLocks := map n | n in c.threadLocks && c.threadLocks[n].networkId != networkId
                          :: c.threadLocks[n],
       ready := set l | l in c.ready && (l !in c.threadLocks.Values || l.networkId != networkId))
  }

  // ----- death notices and client callbacks

  function ServiceDies(c: Client, service: string, device: string): (d: Client)
    ensures d.calls == c.calls
    ensures RegistersOnlyNext(c, d) && forall s :: s in d.sessions ==> s in c.sessions && d.sessions[s] == c.sessions[s]
    ensures SameOwners(c, d)
  {
    if |service| == 0 || IllegalDevice(device) then c
    else Purge(c, OfService(c.registered, service, device))
  }

  function DeviceDies(c: Client, device: string, listening: bool): (d: Client)
    ensures d.calls == c.calls
    ensures RegistersOnlyNext(c, d) && forall s :: s in d.sessions ==> s in c.sessions && d.sessions[s] == c.sessions[s]
    ensures SameOwners(c, d)
  {
    if IllegalDevice(device) || !listening then c
    else Purge(c, OfDevice(c.registered, device))
  }

  function AttachRecipient(c: Client, s: Stub, proxy: nat, death: nat, accepted: bool): (d: Client)
    ensures SameStubs(c, d)
    ensures d.calls == c.calls
    ensures d.tags == c.tags
  {
    var attached := accepted && proxy !in c.deathRecipients;
    c.(deathRecipients := if attached then c.deathRecipients[proxy := death] else c.deathRecipients,
       noticeProxy := if attached && proxy !in c.noticeProxy then c.noticeProxy[proxy := s]
                      else c.noticeProxy)
  }

  /** Both RemoveDbinderDeathRecipient and OnRemoteDied stop when the first detach fails. */
  function DetachRecipient(c: Client, proxy: nat): (d: Client)
    ensures SameStubs(c, d)
    ensures d.calls == c.calls
    ensures d.tags == c.tags
  {
    c.(deathRecipients := c.deathRecipients - {proxy},
       noticeProxy := if proxy in c.deathRecipients then c.noticeProxy - {proxy} else c.noticeProxy)
  }

  // ----- the transition relation

  predicate At(c: Client, id: nat, pc: Pc) {
    id in c.calls && c.calls[id].pc == pc
  }

  /** The condition wait ends without the ready flag. */
  predicate MayTimeOut(c: Client, id: nat) {
    id in c.calls && c.calls[id].pc.Waiting? && c.calls[id].pc.lock !in c.ready
  }

  /** The condition wait ends with the ready flag. */
  predicate MayWake(c: Client, id: nat) {
    id in c.calls && c.calls[id].pc.Waiting? && c.calls[id].pc.lock in c.ready
  }

  /** The registry and every caller inside MakeRemoteBinder hold a reference to a stub, so
      the reference count of a registered stub is low only for its last caller. */
  predicate LastHolder(c: Client, id: nat)
    requires id in c.calls
  {
    c.calls[id].stub in c.registered ==>
      forall k :: k in c.calls && k != id && c.calls[k].stub == c.calls[id].stub ==> c.calls[k].pc.Done?
  }

  predicate Next(c: Client, e: Event, d: Client) {
    match e
    case Begin(id, key, binderObject) => id !in c.calls && d == BeginCall(c, id, key, binderObject)
    case Invoke(id, env) => At(c, id, Invoking) && d == InvokeCall(c, id, env)
    case Poll(id) => id in c.calls && c.calls[id].pc.Polling? && d == PollCall(c, id)
    case Timeout(id) => MayTimeOut(c, id) && d == TimeoutCall(c, id)
    case Woken(id) => MayWake(c, id) && d == WokenCall(c, id)
    case Test(id, refsLow) =>
      id in c.calls && c.calls[id].pc.Failed? && (refsLow ==> LastHolder(c, id)) && d == TestCall(c, id, refsLow)
    case Delete(id) => id in c.calls && c.calls[id].pc.Deleting? && d == DeleteCall(c, id)
    case Detach(id) => id in c.calls && c.calls[id].pc.Detaching? && d == DetachCall(c, id)
    case Reply(m) => d == OnReply(c, m)
    case Error(m) => d == OnError(c, m)
    case SessionClosed(networkId) => d == CloseSession(c, networkId)
    case ServiceDied(service, device) => d == ServiceDies(c, service, device)
    case DeviceDied(device, listening) => d == DeviceDies(c, device, listening)
    case ClearState(s) => s.id < c.nextStub && d == SetStatus(c, s, NegoInit)
    case AddRecipient(s, proxy, death, accepted) =>
      s.id < c.nextStub && d == AttachRecipient(c, s, proxy, death, accepted)
    case RemoveRecipient(proxy) => d == DetachRecipient(c, proxy)
    case ProxyDied(proxy) => d == DetachRecipient(c, proxy)
  }

  /** The request a step puts on the network, if any. */
  ghost function Sends(c: Client, e: Event): Option<Packet> {
    if e.Invoke? && e.id in c.calls then InvokeSends(c, e.id, e.env) else None
  }
}
