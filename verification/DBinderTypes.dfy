/** Values shared by the client and the server half of the DBinder service:
    wire messages, sessions, stub identities and the frames of waiting callers. */
module DBinderTypes {

  datatype Option<+T> = None | Some(value: T)

  const DEVICEID_LENGTH: nat := 64
  const SERVICENAME_LENGTH: nat := 200
  const RPC_TOKENID_SUPPORT_VERSION: nat := 2
  const RETRY_TIMES: nat := 2
  const THREAD_LOCK_RETRY_TIMES: nat := 10
  const FIRST_SYS_ABILITY_ID: int := 0x00000001
  const LAST_SYS_ABILITY_ID: int := 0x00ffffff
  const DATABUS_TYPE: nat := 0
  const UINT32_MAX: nat := 0xffff_ffff
  const TWO_32: nat := 0x1_0000_0000
  const TWO_64: nat := 0x1_0000_0000_0000_0000

  const MESSAGE_AS_INVOKER: nat := 1
  const MESSAGE_AS_REPLY: nat := 2
  const MESSAGE_AS_REMOTE_ERROR: nat := 4
  const MESSAGE_AS_REPLY_TOKENID: nat := 5

  const DBINDER_OK: nat := 100
  const DBINDER_SEND_MESSAGE_FAILED: nat := 102
  const DBINDER_MAKE_THREADLOCK_FAILED: nat := 103
  const DBINDER_WAIT_REPLY_TIMEOUT: nat := 104
  const DBINDER_QUERY_REPLY_SESSION_FAILED: nat := 105
  const DBINDER_SA_NOT_FOUND: nat := 106
  const DBINDER_SA_INVOKE_FAILED: nat := 107
  const DBINDER_DEVICEID_INVALID: nat := 108
  const DBINDER_SESSION_NAME_NOT_FOUND: nat := 109
  const DBINDER_WRITE_PARCEL_FAILED: nat := 110
  const DBINDER_INVOKE_STUB_THREAD_FAILED: nat := 111
  const DBINDER_SESSION_NAME_INVALID: nat := 112
  const DBINDER_SA_NOT_AVAILABLE: nat := 113
  const DBINDER_SAID_INVALID: nat := 114
  const DBINDER_SA_NOT_DISTRUBUTED: nat := 115

  const ERR_NONE: int := 0
  const DBINDER_SERVICE_INVALID_DATA_ERR: int := 701
  const DBINDER_SERVICE_NOTICE_DIE_ERR: int := 702
  const DBINDER_SERVICE_ADD_DEATH_ERR: int := 705
  const DBINDER_SERVICE_REMOVE_DEATH_ERR: int := 706

  // ----- C strings in fixed buffers

  predicate NulFree(s: string) {
    forall i :: 0 <= i < |s| ==> s[i] != '\0'
  }

  /** What a C reader sees of a char array: everything before the first NUL. */
  function CStr(s: string): string {
    if s == [] || s[0] == '\0' then [] else [s[0]] + CStr(s[1..])
  }

  /** A C reader of a terminated copy sees the whole name exactly when the name holds
      no NUL of its own; otherwise the length it counts is too short. */
  lemma {:induction false} CStrTerminated(name: string, rest: string)
    ensures NulFree(name) ==> CStr(name + "\0" + rest) == name
    ensures |CStr(name + "\0" + rest)| == |name| <==> NulFree(name)
    ensures |CStr(name + "\0" + rest)| <= |name|
  {
    var buf := name + "\0" + rest;
    if name != [] && name[0] != '\0' {
      assert buf[1..] == name[1..] + "\0" + rest;
      CStrTerminated(name[1..], rest);
      assert NulFree(name) <==> NulFree(name[1..]) by {
        assert forall i :: 1 <= i < |name| ==> name[i] == name[1..][i - 1];
      }
    }
  }

  lemma {:induction false} CStrPrefix(s: string)
    ensures |CStr(s)| <= |s| && CStr(s) == s[..|CStr(s)|]
  {
    if s != [] && s[0] != '\0' {
      CStrPrefix(s[1..]);
    }
  }

  lemma {:induction false} CStrNulFree(s: string)
    requires NulFree(s)
    ensures CStr(s) == s
  {
    if s != [] {
      assert s[0] != '\0';
      CStrNulFree(s[1..]);
    }
  }

  type NameBuffer = b: string | |b| == SERVICENAME_LENGTH + 1
    witness seq(SERVICENAME_LENGTH + 1, _ => '\0')

  function ZeroBuffer(): NameBuffer { seq(SERVICENAME_LENGTH + 1, _ => '\0') }

  // ----- machine integers

  /** static_cast<int32_t> of a 64-bit value. */
  function ToInt32(x: nat): int {
    var low := x % TWO_32;
    if low >= TWO_32 / 2 then low - TWO_32 else low
  }

  /** static_cast<binder_uintptr_t> of a 32-bit signed value. */
  function FromInt32(x: int): nat {
    if x < 0 then (x + TWO_64) % TWO_64 else x
  }

  /** GetSeqNumber: the counter skips 0 when it wraps. */
  function NextSeq(n: nat): nat {
    (if n == UINT32_MAX then 0 else n) + 1
  }

  /** stubTagNum_++ on a 64-bit counter. */
  function NextTag(n: nat): nat {
    if n == TWO_64 - 1 then 0 else n + 1
  }

  predicate IsDigit(c: char) { '0' <= c <= '9' }

  function LeadingNumber(s: string, acc: nat): nat {
    if s == [] || !IsDigit(s[0]) then acc
    else LeadingNumber(s[1..], 10 * acc + (s[0] as int - '0' as int))
  }

  /** std::from_chars into a uint64_t: at least one digit, and the digits fit. */
  function ParseU64(s: string): Option<nat> {
    if s == [] || !IsDigit(s[0]) then None
    else
      var v := LeadingNumber(s, 0);
      if v < TWO_64 then Some(v) else None
  }

  predicate IllegalDevice(d: string) {
    |d| == 0 || |d| > DEVICEID_LENGTH
  }

  // ----- entities

  datatype Message = Message(
    version: nat,
    transType: nat,
    code: nat,
    fromPort: nat,
    toPort: nat,
    stubIndex: nat,
    seqNumber: nat,
    binderObject: nat,
    tokenId: nat,
    fromDeviceId: string,
    toDeviceId: string,
    stub: nat,
    serviceNameLength: nat,
    serviceName: NameBuffer,
    pid: nat,
    uid: nat)

  datatype Packet = Packet(to: string, msg: Message)

  datatype Session = Session(
    seqNumber: nat,
    transType: nat,
    toPort: nat,
    fromPort: nat,
    stubIndex: nat,
    serviceName: string,
    tokenId: nat,
    fromDeviceId: string,
    toDeviceId: string)

  datatype StubKey = StubKey(service: string, device: string, pid: nat, uid: nat)

  /** A DBinderServiceStub object: its identity and the fields fixed at construction. */
  datatype Stub = Stub(id: nat, key: StubKey, binderObject: nat)

  datatype NegoStatus = NegoInit | NegoDoing | NegoFinished

  /** A ThreadLockInfo object: identity, the network it waits on and the call that made it. */
  datatype Lock = Lock(id: nat, networkId: string, owner: nat)

  /** Where a thread stands inside MakeRemoteBinder. */
  datatype Pc =
    | Invoking               // about to run InvokerRemoteDBinder
    | Polling(count: nat)    // in the loop of InvokerRemoteDBinderWhenWaitRsp
    | Waiting(lock: Lock)    // in the condition wait
    | Failed(code: nat)      // the retry loop ended with an error, references not yet counted
    | Deleting(code: nat)    // found few references, about to delete by key
    | Detaching(code: nat)   // deleted by key, about to drop its session
    | Done(code: nat)        // returned

  datatype Call = Call(stub: Stub, seqNum: nat, isNew: bool, tries: nat, pc: Pc)

  /** One round of the do-while loop of MakeRemoteBinder ended with code ret. */
  function AfterInvoke(call: Call, ret: nat): (r: Call)
    ensures r.stub == call.stub && r.seqNum == call.seqNum
    ensures r.pc == Done(DBINDER_OK) <==> ret == DBINDER_OK
  {
    var tries := call.tries + 1;
    call.(tries := tries,
          pc := if ret == DBINDER_WAIT_REPLY_TIMEOUT && tries < RETRY_TIMES then Invoking
                else if ret == DBINDER_OK then Done(DBINDER_OK)
                else Failed(ret))
  }
}
