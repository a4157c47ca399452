/** The remote objects a C process refers to, each with its table of death recipients, as a
    state machine over references, releases, recipients and deaths. */
module DeathTable {

  const MAX_DEATH_CALLBACK_NUM: nat := 4
  const ERR_NONE: int := 0
  const ERR_INVALID_PARAM: int := -2
  const ERR_DEAD_OBJECT: int := -32

  /** A function, where 0 is NULL, and its argument. */
  datatype Recipient = Recipient(func: nat, args: nat)

  datatype Node = Node(
    handle: int,
    slots: map<nat, Recipient>,     // the used entries of the handler array
    isRemoteDead: bool,
    isNewHandler: bool,
    registrations: nat)             // history: attempts to register with the driver

  datatype Skeleton = Skeleton(
    objects: seq<Node>,
    // history, read by no step:
    acquired: multiset<int>,        // handles acquired from the driver
    released: multiset<int>)        // handles given back to it

  function Start(): Skeleton { Skeleton([], multiset{}, multiset{}) }

  datatype Event =
    | FirstRef(handle: int, alloc: bool, invoker: bool)
    | Release(handle: int, invoker: bool)
    | Add(handle: int, r: Recipient, wantsId: bool)
    | Remove(handle: int, cbId: nat)
    | Obituary(handle: int)

  // ----- one node

  /** The first unused slot from k on; the size of the array when there is none. */
  function FreeFrom(slots: map<nat, Recipient>, k: nat): nat
    decreases MAX_DEATH_CALLBACK_NUM - k
  {
    if k >= MAX_DEATH_CALLBACK_NUM || k !in slots then k else FreeFrom(slots, k + 1)
  }

  /** The first death recipient a node ever gets is announced to the driver. */
  predicate Announces(n: Node) {
    n.isNewHandler && |n.slots| == 0
  }

  predicate Full(n: Node) {
    |n.slots| == MAX_DEATH_CALLBACK_NUM
  }

  function AddTo(n: Node, r: Recipient): Node {
    n.(slots := n.slots[FreeFrom(n.slots, 0) := r],
       isNewHandler := n.isNewHandler && !Announces(n),
       registrations := n.registrations + if Announces(n) then 1 else 0)
  }

  function RemoveFrom(n: Node, cbId: nat): Node {
    n.(slots := n.slots - {cbId})
  }

  /** The recipients an obituary calls, in slot order. */
  function CallsFrom(slots: map<nat, Recipient>, k: nat): seq<Recipient>
    decreases MAX_DEATH_CALLBACK_NUM - k
  {
    if k >= MAX_DEATH_CALLBACK_NUM then []
    else (if k in slots then [slots[k]] else []) + CallsFrom(slots, k + 1)
  }

  // ----- the list of nodes

  /** Where the first node of a handle stands; the length when there is none. */
  function Find(objects: seq<Node>, handle: int): (i: nat)
    ensures i <= |objects|
    ensures i < |objects| ==> objects[i].handle == handle
    ensures forall j :: 0 <= j < i ==> objects[j].handle != handle
  {
    if objects == [] || objects[0].handle == handle then 0 else 1 + Find(objects[1..], handle)
  }

  predicate Listed(objects: seq<Node>, handle: int) {
    Find(objects, handle) < |objects|
  }

  function NewNode(handle: int): Node { Node(handle, map[], false, true, 0) }

  function FirstReference(sk: Skeleton, handle: int, alloc: bool, invoker: bool): Skeleton {
    if handle <= 0 || Listed(sk.objects, handle) || !alloc then sk
    else sk.(objects := [NewNode(handle)] + sk.objects,
             acquired := if invoker then sk.acquired + multiset{handle} else sk.acquired)
  }

  function DeleteHandle(sk: Skeleton, handle: int, invoker: bool): Skeleton {
    var i := Find(sk.objects, handle);
    if i == |sk.objects| then sk
    else sk.(objects := sk.objects[..i] + sk.objects[i + 1..],
             released := if invoker then sk.released + multiset{handle} else sk.released)
  }

  /** Whether an add enters its recipient. */
  predicate Enters(sk: Skeleton, handle: int, r: Recipient, wantsId: bool) {
    && r.func != 0 && wantsId
    && Listed(sk.objects, handle)
    && var n := sk.objects[Find(sk.objects, handle)];
       !n.isRemoteDead && !Full(n)
  }

  function AddRecipient(sk: Skeleton, handle: int, r: Recipient, wantsId: bool): Skeleton {
    var i := Find(sk.objects, handle);
    if Enters(sk, handle, r, wantsId) then sk.(objects := sk.objects[i := AddTo(sk.objects[i], r)]) else sk
  }

  /** What an add returns; driver is the answer to a registration, ERR_INVALID_PARAM without an invoker. */
  function AddCode(sk: Skeleton, handle: int, r: Recipient, wantsId: bool, driver: int): int {
    var i := Find(sk.objects, handle);
    if r.func == 0 || !wantsId then ERR_INVALID_PARAM
    else if i == |sk.objects| then ERR_NONE
    else if sk.objects[i].isRemoteDead then ERR_DEAD_OBJECT
    else if Full(sk.objects[i]) then ERR_INVALID_PARAM
    else if Announces(sk.objects[i]) then driver
    else ERR_NONE
  }

  function RemoveRecipient(sk: Skeleton, handle: int, cbId: nat): Skeleton {
    var i := Find(sk.objects, handle);
    if cbId >= MAX_DEATH_CALLBACK_NUM || i == |sk.objects| || sk.objects[i].isRemoteDead then sk
    else sk.(objects := sk.objects[i := RemoveFrom(sk.objects[i], cbId)])
  }

  function RemoveCode(sk: Skeleton, handle: int, cbId: nat): int {
    var i := Find(sk.objects, handle);
    if cbId >= MAX_DEATH_CALLBACK_NUM || i == |sk.objects| then ERR_INVALID_PARAM
    else if sk.objects[i].isRemoteDead then ERR_DEAD_OBJECT
    else if cbId in sk.objects[i].slots then ERR_NONE
    else ERR_INVALID_PARAM
  }

  function Bury(sk: Skeleton, handle: int): Skeleton {
    var i := Find(sk.objects, handle);
    if i == |sk.objects| then sk
    else sk.(objects := sk.objects[i := sk.objects[i].(isRemoteDead := true)])
  }

  function Next(sk: Skeleton, e: Event): Skeleton {
    match e
    case FirstRef(handle, alloc, invoker) => FirstReference(sk, handle, alloc, invoker)
    case Release(handle, invoker) => DeleteHandle(sk, handle, invoker)
    case Add(handle, r, wantsId) => AddRecipient(sk, handle, r, wantsId)
    case Remove(handle, cbId) => RemoveRecipient(sk, handle, cbId)
    case Obituary(handle) => Bury(sk, handle)
  }

  function Run(events: seq<Event>): Skeleton {
    if events == [] then Start() else Next(Run(events[..|events| - 1]), events[|events| - 1])
  }

  // ----- what every step keeps

  ghost predicate SlotsInv(slots: map<nat, Recipient>) {
    forall k :: k in slots ==> k < MAX_DEATH_CALLBACK_NUM && slots[k].func != 0
  }

  ghost predicate NodeInv(n: Node) {
    && n.handle > 0
    && SlotsInv(n.slots)
    && (if n.isNewHandler then n.slots == map[] && n.registrations == 0 else n.registrations == 1)
  }

  ghost predicate ObjectsInv(objects: seq<Node>) {
    && (forall i, j :: 0 <= i < j < |objects| ==> objects[i].handle != objects[j].handle)
    && (forall i :: 0 <= i < |objects| ==> NodeInv(objects[i]))
  }

  function Held(objects: seq<Node>, handle: int): nat {
    if Listed(objects, handle) then 1 else 0
  }

  ghost predicate Balanced(sk: Skeleton) {
    forall h :: sk.acquired[h] == sk.released[h] + Held(sk.objects, h)
  }

  predicate HasInvoker(e: Event) {
    (e.FirstRef? ==> e.invoker) && (e.Release? ==> e.invoker)
  }

  lemma {:induction false} FreeFromFirst(slots: map<nat, Recipient>, k: nat)
    ensures k <= FreeFrom(slots, k) && forall j :: k <= j < FreeFrom(slots, k) ==> j in slots
    ensures FreeFrom(slots, k) < MAX_DEATH_CALLBACK_NUM ==> FreeFrom(slots, k) !in slots
    ensures k <= MAX_DEATH_CALLBACK_NUM ==> FreeFrom(slots, k) <= MAX_DEATH_CALLBACK_NUM
    decreases MAX_DEATH_CALLBACK_NUM - k
  {
    if k < MAX_DEATH_CALLBACK_NUM && k in slots {
      FreeFromFirst(slots, k + 1);
    }
  }

  lemma {:induction false} BoundedSize(used: set<nat>, k: nat)
    requires forall j :: j in used ==> j < k
    ensures |used| <= k
    ensures |used| == k <==> forall j :: 0 <= j < k ==> j in used
  {
    if k == 0 {
      assert used == {};
    } else {
      var last := k - 1;
      BoundedSize(used - {last}, last);
      if last !in used {
        assert used - {last} == used;
      } else {
        assert forall j :: 0 <= j < last ==> (j in used <==> j in used - {last});
      }
    }
  }

  /** A full array has no unused slot, and any other one has: an add never overwrites. */
  lemma FreeSlotExists(slots: map<nat, Recipient>)
    requires SlotsInv(slots)
    ensures |slots| <= MAX_DEATH_CALLBACK_NUM
    ensures FreeFrom(slots, 0) < MAX_DEATH_CALLBACK_NUM <==> |slots| < MAX_DEATH_CALLBACK_NUM
    ensures FreeFrom(slots, 0) !in slots
  {
    FreeFromFirst(slots, 0);
    BoundedSize(slots.Keys, MAX_DEATH_CALLBACK_NUM);
  }

  lemma AddKeepsNode(n: Node, r: Recipient)
    requires NodeInv(n) && !Full(n) && r.func != 0
    ensures NodeInv(AddTo(n, r))
    ensures |AddTo(n, r).slots| == |n.slots| + 1
    ensures AddTo(n, r).handle == n.handle
    ensures forall k :: k in n.slots ==> k in AddTo(n, r).slots && AddTo(n, r).slots[k] == n.slots[k]
  {
    FreeSlotExists(n.slots);
  }

  lemma RemoveKeepsNode(n: Node, cbId: nat)
    requires NodeInv(n)
    ensures NodeInv(RemoveFrom(n, cbId))
  {
  }

  lemma UpdateKeeps(objects: seq<Node>, i: nat, n: Node)
    requires ObjectsInv(objects) && i < |objects| && n.handle == objects[i].handle && NodeInv(n)
    ensures ObjectsInv(objects[i := n])
    ensures forall h :: Find(objects[i := n], h) == Find(objects, h)
  {
    forall h ensures Find(objects[i := n], h) == Find(objects, h) {
      assert forall j :: 0 <= j < |objects| ==> objects[i := n][j].handle == objects[j].handle;
      FindUnique(objects, h, Find(objects[i := n], h));
    }
  }

  /** Position i is where h is found, or the end when it is nowhere. */
  lemma FindUnique(objects: seq<Node>, h: int, i: nat)
    requires i <= |objects| && (i < |objects| ==> objects[i].handle == h)
    requires forall j :: 0 <= j < i ==> objects[j].handle != h
    ensures Find(objects, h) == i
  {
  }

  lemma StepKeepsObjects(sk: Skeleton, e: Event)
    requires ObjectsInv(sk.objects)
    ensures ObjectsInv(Next(sk, e).objects)
  {
    hide NodeInv, Full;
    match e
    case FirstRef(handle, alloc, invoker) => if handle > 0 && !Listed(sk.objects, handle) { FirstRefKeeps(sk, handle); }
    case Release(handle, invoker) =>
    case Add(handle, r, wantsId) =>
      if Enters(sk, handle, r, wantsId) {
        var i := Find(sk.objects, handle);
        AddKeepsNode(sk.objects[i], r);
        UpdateKeeps(sk.objects, i, AddTo(sk.objects[i], r));
      }
    case Remove(handle, cbId) =>
      var i := Find(sk.objects, handle);
      if i < |sk.objects| {
        RemoveKeepsNode(sk.objects[i], cbId);
        UpdateKeeps(sk.objects, i, RemoveFrom(sk.objects[i], cbId));
      }
    case Obituary(handle) =>
      var i := Find(sk.objects, handle);
      if i < |sk.objects| {
        BuryKeepsNode(sk.objects[i]);
        UpdateKeeps(sk.objects, i, sk.objects[i].(isRemoteDead := true));
      }
  }

  lemma FirstRefKeeps(sk: Skeleton, handle: int)
    requires ObjectsInv(sk.objects) && handle > 0 && !Listed(sk.objects, handle)
    ensures ObjectsInv([NewNode(handle)] + sk.objects)
  {
  }

  lemma BuryKeepsNode(n: Node)
    requires NodeInv(n)
    ensures NodeInv(n.(isRemoteDead := true))
  {
  }

  // ----- which handles are listed

  lemma ListedIff(objects: seq<Node>, h: int)
    ensures Listed(objects, h) <==> exists i :: 0 <= i < |objects| && objects[i].handle == h
  {
  }

  lemma SameFinds(a: seq<Node>, b: seq<Node>, h: int)
    requires |a| == |b| && forall i :: 0 <= i < |a| ==> a[i].handle == b[i].handle
    ensures Find(a, h) == Find(b, h)
  {
    FindUnique(a, h, Find(b, h));
  }

  lemma FindBehindNew(objects: seq<Node>, handle: int, h: int)
    ensures Find([NewNode(handle)] + objects, h) == if handle == h then 0 else 1 + Find(objects, h)
  {
    assert ([NewNode(handle)] + objects)[1..] == objects;
  }

  /** Where h is found once another handle was taken off the list. */
  lemma FindAfterErase(objects: seq<Node>, i: nat, h: int)
    requires ObjectsInv(objects) && i < |objects|
    ensures var rest, j := objects[..i] + objects[i + 1..], Find(objects, h);
      Find(rest, h) == (if objects[i].handle == h then |rest| else if j < i then j else j - 1)
  {
    var rest, j := objects[..i] + objects[i + 1..], Find(objects, h);
    assert forall m :: 0 <= m < |rest| ==> rest[m] == objects[if m < i then m else m + 1];
    FindUnique(rest, h, if objects[i].handle == h then |rest| else if j < i then j else j - 1);
  }

  lemma SameHandles(sk: Skeleton, e: Event)
    requires !e.FirstRef? && !e.Release?
    ensures var after := Next(sk, e).objects;
      |after| == |sk.objects| && forall i :: 0 <= i < |after| ==> after[i].handle == sk.objects[i].handle
  {
  }

  /** A first reference lists its handle and no other; a release takes it off the list. */
  lemma HeldAfter(sk: Skeleton, e: Event, h: int)
    requires ObjectsInv(sk.objects)
    ensures Held(Next(sk, e).objects, h) ==
      if e.FirstRef? && e.handle == h && h > 0 && e.alloc then 1
      else if e.Release? && e.handle == h then 0
      else Held(sk.objects, h)
  {
    hide ObjectsInv;
    if e.FirstRef? {
      FindBehindNew(sk.objects, e.handle, h);
    } else if e.Release? {
      var i := Find(sk.objects, e.handle);
      if i < |sk.objects| {
        FindAfterErase(sk.objects, i, h);
      }
    } else {
      SameHandles(sk, e);
      SameFinds(Next(sk, e).objects, sk.objects, h);
    }
  }

  lemma StepBalances(sk: Skeleton, e: Event)
    requires ObjectsInv(sk.objects) && Balanced(sk) && HasInvoker(e)
    ensures Balanced(Next(sk, e))
  {
    forall h ensures Next(sk, e).acquired[h] == Next(sk, e).released[h] + Held(Next(sk, e).objects, h) {
      HeldAfter(sk, e, h);
    }
  }

  // ----- runs

  lemma {:induction false} RunInv(events: seq<Event>)
    ensures ObjectsInv(Run(events).objects)
    ensures (forall e :: e in events ==> HasInvoker(e)) ==> Balanced(Run(events))
  {
    if events != [] {
      var front, e := events[..|events| - 1], events[|events| - 1];
      RunInv(front);
      StepKeepsObjects(Run(front), e);
      if forall e :: e in events ==> HasInvoker(e) {
        StepBalances(Run(front), e);
      }
    }
  }

  /** Over every run with an invoker, a handle is acquired once more than it is released
      exactly while it is listed, and it is never listed twice. */
  lemma HandleBalance(events: seq<Event>, h: int)
    requires forall e :: e in events ==> HasInvoker(e)
    ensures var sk := Run(events);
      && sk.acquired[h] == sk.released[h] +
           (if exists i :: 0 <= i < |sk.objects| && sk.objects[i].handle == h then 1 else 0)
      && (forall i, j :: 0 <= i < j < |sk.objects| ==> sk.objects[i].handle != sk.objects[j].handle)
  {
    RunInv(events);
    ListedIff(Run(events).objects, h);
  }

  /** Slot k of handle h holds recipient r. */
  predicate Holds(objects: seq<Node>, h: int, k: nat, r: Recipient) {
    var i := Find(objects, h);
    i < |objects| && k in objects[i].slots && objects[i].slots[k] == r
  }

  lemma HoldsInUpdate(objects: seq<Node>, i: nat, n: Node, h: int, k: nat, r: Recipient)
    requires i < |objects| && n.handle == objects[i].handle && Holds(objects, h, k, r)
    requires n.handle == h && k in objects[i].slots ==> k in n.slots && n.slots[k] == objects[i].slots[k]
    ensures Holds(objects[i := n], h, k, r)
  {
    SameFinds(objects[i := n], objects, h);
  }

  lemma HoldsInErase(objects: seq<Node>, i: nat, h: int, k: nat, r: Recipient)
    requires ObjectsInv(objects) && i < |objects| && objects[i].handle != h && Holds(objects, h, k, r)
    ensures Holds(objects[..i] + objects[i + 1..], h, k, r)
  {
    FindAfterErase(objects, i, h);
  }

  lemma HoldsBehindNew(objects: seq<Node>, handle: int, h: int, k: nat, r: Recipient)
    requires Holds(objects, h, k, r) && !Listed(objects, handle)
    ensures Holds([NewNode(handle)] + objects, h, k, r)
  {
    FindBehindNew(objects, handle, h);
  }

  lemma StepKeepsRecipient(sk: Skeleton, e: Event, h: int, k: nat, r: Recipient)
    requires ObjectsInv(sk.objects) && Holds(sk.objects, h, k, r)
    requires e != Remove(h, k) && !(e.Release? && e.handle == h)
    ensures Holds(Next(sk, e).objects, h, k, r)
  {
    var objects := sk.objects;
    var i := Find(objects, e.handle);
    if e.Add? && Enters(sk, e.handle, e.r, e.wantsId) {
      AddKeepsNode(objects[i], e.r);
    }
    hide ObjectsInv, AddTo, Holds;
    if i == |objects| {
      if e.FirstRef? {
        HoldsBehindNew(objects, e.handle, h, k, r);
      }
    } else {
      match e
      case FirstRef(_, _, _) =>
      case Release(handle, invoker) => HoldsInErase(objects, i, h, k, r);
      case Add(handle, added, wantsId) =>
        if Enters(sk, handle, added, wantsId) {
          HoldsInUpdate(objects, i, AddTo(objects[i], added), h, k, r);
        }
      case Remove(handle, cbId) => HoldsInUpdate(objects, i, RemoveFrom(objects[i], cbId), h, k, r);
      case Obituary(handle) => HoldsInUpdate(objects, i, objects[i].(isRemoteDead := true), h, k, r);
    }
  }

  /** A recipient stays in its slot, whatever else is added, removed, released or dies, until
      it is removed itself or its handle is released. */
  lemma {:induction false} RecipientStays(events: seq<Event>, i: nat, j: nat, h: int, k: nat, r: Recipient)
    requires i <= j <= |events| && Holds(Run(events[..i]).objects, h, k, r)
    requires forall m :: i <= m < j ==> events[m] != Remove(h, k) && !(events[m].Release? && events[m].handle == h)
    ensures Holds(Run(events[..j]).objects, h, k, r)
    decreases j
  {
    hide Holds, Next, ObjectsInv;
    if i < j {
      RecipientStays(events, i, j - 1, h, k, r);
      RunInv(events[..j - 1]);
      assert events[..j][..j - 1] == events[..j - 1];
      StepKeepsRecipient(Run(events[..j - 1]), events[j - 1], h, k, r);
    }
  }

  // ----- announcements

  /** The listed node of h has been announced to the driver. */
  predicate Announced(objects: seq<Node>, h: int) {
    var i := Find(objects, h);
    i < |objects| && objects[i].registrations == 1 && !objects[i].isNewHandler
  }

  lemma AnnouncedInUpdate(objects: seq<Node>, i: nat, n: Node, h: int)
    requires i < |objects| && n.handle == objects[i].handle && Announced(objects, h)
    requires n.handle == h && !objects[i].isNewHandler ==>
      !n.isNewHandler && n.registrations == objects[i].registrations
    ensures Announced(objects[i := n], h)
  {
    SameFinds(objects[i := n], objects, h);
  }

  lemma AnnouncedBehindNew(objects: seq<Node>, handle: int, h: int)
    requires Announced(objects, h) && !Listed(objects, handle)
    ensures Announced([NewNode(handle)] + objects, h)
  {
    FindBehindNew(objects, handle, h);
  }

  lemma AnnouncedInErase(objects: seq<Node>, i: nat, h: int)
    requires ObjectsInv(objects) && i < |objects| && objects[i].handle != h && Announced(objects, h)
    ensures Announced(objects[..i] + objects[i + 1..], h)
  {
    FindAfterErase(objects, i, h);
  }

  lemma StepKeepsAnnounced(sk: Skeleton, e: Event, h: int)
    requires ObjectsInv(sk.objects) && Announced(sk.objects, h) && !(e.Release? && e.handle == h)
    ensures Announced(Next(sk, e).objects, h)
  {
    var objects := sk.objects;
    var i := Find(objects, e.handle);
    hide ObjectsInv, Announced;
    if i == |objects| {
      if e.FirstRef? {
        AnnouncedBehindNew(objects, e.handle, h);
      }
    } else {
      match e
      case FirstRef(_, _, _) =>
      case Release(handle, invoker) => AnnouncedInErase(objects, i, h);
      case Add(handle, added, wantsId) =>
        if Enters(sk, handle, added, wantsId) {
          AnnouncedInUpdate(objects, i, AddTo(objects[i], added), h);
        }
      case Remove(handle, cbId) => AnnouncedInUpdate(objects, i, RemoveFrom(objects[i], cbId), h);
      case Obituary(handle) => AnnouncedInUpdate(objects, i, objects[i].(isRemoteDead := true), h);
    }
  }

  lemma HolderIsAnnounced(objects: seq<Node>, h: int, k: nat, r: Recipient)
    requires ObjectsInv(objects) && Holds(objects, h, k, r)
    ensures Announced(objects, h)
  {
    assert NodeInv(objects[Find(objects, h)]);
  }

  /** Over every run, a node is announced to the driver at most once, and not before it has
      had a recipient. */
  lemma AnnouncedAtMostOnce(events: seq<Event>, i: nat)
    requires i < |Run(events).objects|
    ensures var n := Run(events).objects[i];
      && n.registrations <= 1
      && (n.isNewHandler <==> n.registrations == 0)
      && (n.slots != map[] ==> n.registrations == 1)
  {
    RunInv(events);
  }

  /** From the first recipient a node ever holds until its handle is released, it has been
      announced exactly once, also when all its recipients are gone again. */
  lemma {:induction false} AnnouncedEverAfter(events: seq<Event>, i: nat, j: nat, h: int, k: nat, r: Recipient)
    requires i <= j <= |events| && Holds(Run(events[..i]).objects, h, k, r)
    requires forall m :: i <= m < j ==> !(events[m].Release? && events[m].handle == h)
    ensures Announced(Run(events[..j]).objects, h)
    decreases j
  {
    hide Holds, Next, Announced, ObjectsInv;
    if i == j {
      RunInv(events[..i]);
      HolderIsAnnounced(Run(events[..i]).objects, h, k, r);
    } else {
      AnnouncedEverAfter(events, i, j - 1, h, k, r);
      RunInv(events[..j - 1]);
      assert events[..j][..j - 1] == events[..j - 1];
      StepKeepsAnnounced(Run(events[..j - 1]), events[j - 1], h);
    }
  }

  // ----- births and deaths

  /** A first reference to a new positive handle puts a node in front that is alive, empty and
      not announced; any other first reference changes nothing. */
  lemma FirstReferenceLists(sk: Skeleton, h: int, alloc: bool, invoker: bool)
    ensures var d := FirstReference(sk, h, alloc, invoker);
      && (h > 0 && alloc && (forall i :: 0 <= i < |sk.objects| ==> sk.objects[i].handle != h) ==>
            && |d.objects| == |sk.objects| + 1 && d.objects[1..] == sk.objects
            && d.objects[0].handle == h && d.objects[0].slots == map[] && !d.objects[0].isRemoteDead
            && d.objects[0].isNewHandler && d.objects[0].registrations == 0)
      && (h <= 0 || !alloc || (exists i :: 0 <= i < |sk.objects| && sk.objects[i].handle == h) ==> d == sk)
  {
    ListedIff(sk.objects, h);
  }

  /** An add without a function or without room for the id, and one to a full node, change
      nothing and say so. */
  lemma BadAddRefused(sk: Skeleton, h: int, r: Recipient, wantsId: bool, driver: int, i: nat)
    requires ObjectsInv(sk.objects)
    requires
      (r.func == 0 || !wantsId) ||
      (i < |sk.objects| && sk.objects[i].handle == h && |sk.objects[i].slots| == 4 && !sk.objects[i].isRemoteDead)
    ensures AddRecipient(sk, h, r, wantsId) == sk && AddCode(sk, h, r, wantsId, driver) == -2
  {
    if r.func != 0 && wantsId {
      FindUnique(sk.objects, h, i);
    }
  }

  /** Some listed node has this handle. */
  predicate Names(objects: seq<Node>, h: int) {
    exists i :: 0 <= i < |objects| && objects[i].handle == h
  }

  /** The listed node of h is dead. */
  predicate Dead(objects: seq<Node>, h: int) {
    exists i :: 0 <= i < |objects| && objects[i].handle == h && objects[i].isRemoteDead
  }

  lemma DeadAt(objects: seq<Node>, h: int)
    requires ObjectsInv(objects)
    ensures Dead(objects, h) <==> Find(objects, h) < |objects| && objects[Find(objects, h)].isRemoteDead
  {
  }

  lemma DeadInUpdate(objects: seq<Node>, i: nat, n: Node, h: int)
    requires i < |objects| && n.handle == objects[i].handle && n.isRemoteDead == objects[i].isRemoteDead
    ensures Dead(objects[i := n], h) <==> Dead(objects, h)
  {
    forall j | 0 <= j < |objects|
      ensures objects[i := n][j].handle == objects[j].handle
      ensures objects[i := n][j].isRemoteDead == objects[j].isRemoteDead
    {
    }
  }

  lemma DeadInErase(objects: seq<Node>, i: nat, h: int)
    requires ObjectsInv(objects) && i < |objects| && objects[i].handle != h
    ensures Dead(objects[..i] + objects[i + 1..], h) <==> Dead(objects, h)
  {
    var rest := objects[..i] + objects[i + 1..];
    if k :| 0 <= k < |objects| && objects[k].handle == h && objects[k].isRemoteDead {
      assert rest[if k < i then k else k - 1] == objects[k];
    }
    if k :| 0 <= k < |rest| && rest[k].handle == h && rest[k].isRemoteDead {
      assert rest[k] == objects[if k < i then k else k + 1];
    }
  }

  lemma DeadBehindNew(objects: seq<Node>, n: Node, h: int)
    requires !n.isRemoteDead
    ensures Dead([n] + objects, h) <==> Dead(objects, h)
  {
    if k :| 0 <= k < |objects| && objects[k].handle == h && objects[k].isRemoteDead {
      assert ([n] + objects)[k + 1] == objects[k];
    }
    if k :| 0 <= k < |objects| + 1 && ([n] + objects)[k].handle == h && ([n] + objects)[k].isRemoteDead {
      assert objects[k - 1] == ([n] + objects)[k];
    }
  }

  /** Only an obituary kills a listed node, and it always does. */
  lemma DeadStep(sk: Skeleton, e: Event, h: int)
    requires ObjectsInv(sk.objects) && !(e.Release? && e.handle == h)
    ensures Dead(Next(sk, e).objects, h) <==>
      Dead(sk.objects, h) || (e == Obituary(h) && Names(sk.objects, h))
  {
    var objects := sk.objects;
    var i := Find(objects, e.handle);
    ListedIff(objects, e.handle);
    match e
    case FirstRef(handle, alloc, invoker) =>
      DeadBehindNew(objects, NewNode(handle), h);
    case Release(handle, invoker) =>
      if i < |objects| {
        DeadInErase(objects, i, h);
      }
    case Add(handle, r, wantsId) =>
      hide ObjectsInv, Dead;
      if i < |objects| {
        DeadInUpdate(objects, i, AddTo(objects[i], r), h);
      }
    case Remove(handle, cbId) =>
      hide ObjectsInv, Dead;
      if i < |objects| {
        DeadInUpdate(objects, i, RemoveFrom(objects[i], cbId), h);
      }
    case Obituary(handle) => BuryStep(sk, handle, h);
  }

  lemma BuryStep(sk: Skeleton, handle: int, h: int)
    requires ObjectsInv(sk.objects)
    ensures Dead(Bury(sk, handle).objects, h) <==>
      Dead(sk.objects, h) || (h == handle && Names(sk.objects, h))
  {
    var objects, i := sk.objects, Find(sk.objects, handle);
    if i < |objects| {
      var after := objects[i := objects[i].(isRemoteDead := true)];
      assert after[i].handle == handle && after[i].isRemoteDead;
      assert forall k :: 0 <= k < |objects| && k != i ==> after[k] == objects[k];
    }
  }

  lemma RunStep(events: seq<Event>, j: nat)
    requires 0 < j <= |events|
    ensures Run(events[..j]) == Next(Run(events[..j - 1]), events[j - 1])
  {
    assert events[..j][..j - 1] == events[..j - 1];
  }

  /** From its obituary until its release a node is dead in every run, and then neither adds
      nor removes anything: both say ERR_DEAD_OBJECT and change nothing. */
  lemma {:induction false} DeadStaysDead(events: seq<Event>, i: nat, j: nat, h: int)
    requires i < j <= |events| && events[i] == Obituary(h) && Names(Run(events[..i]).objects, h)
    requires forall m :: i <= m < j ==> !(events[m].Release? && events[m].handle == h)
    ensures Dead(Run(events[..j]).objects, h)
    decreases j
  {
    hide Next, Dead, Run, ObjectsInv, Names;
    RunInv(events[..j - 1]);
    RunStep(events, j);
    DeadStep(Run(events[..j - 1]), events[j - 1], h);
    if i + 1 < j {
      DeadStaysDead(events, i, j - 1, h);
    }
  }

  lemma DeadRefuses(sk: Skeleton, h: int, r: Recipient, cbId: nat, driver: int)
    requires ObjectsInv(sk.objects) && Dead(sk.objects, h)
    ensures r.func != 0 ==> AddCode(sk, h, r, true, driver) == ERR_DEAD_OBJECT
    ensures AddRecipient(sk, h, r, true) == sk
    ensures cbId < 4 ==> RemoveCode(sk, h, cbId) == ERR_DEAD_OBJECT
    ensures RemoveRecipient(sk, h, cbId) == sk
  {
    DeadAt(sk.objects, h);
  }

  lemma ReleasedIsNotDead(sk: Skeleton, e: Event, h: int)
    requires ObjectsInv(sk.objects) && e.Release? && e.handle == h
    ensures !Dead(Next(sk, e).objects, h)
  {
    HeldAfter(sk, e, h);
    ListedIff(Next(sk, e).objects, h);
  }

  lemma NobodyDeadAtStart(events: seq<Event>, h: int)
    ensures !Dead(Run(events[..0]).objects, h)
  {
  }

  /** No node is dead without an obituary since it was listed. */
  lemma {:induction false} DeadHadObituary(events: seq<Event>, j: nat, h: int) returns (i: nat)
    requires j <= |events| && Dead(Run(events[..j]).objects, h)
    ensures i < j && events[i] == Obituary(h)
    ensures forall m :: i < m < j ==> !(events[m].Release? && events[m].handle == h)
    decreases j
  {
    hide Next, Dead, Run, ObjectsInv, Names;
    NobodyDeadAtStart(events, h);
    RunStep(events, j);
    RunInv(events[..j - 1]);
    var sk, e := Run(events[..j - 1]), events[j - 1];
    if e.Release? && e.handle == h {
      ReleasedIsNotDead(sk, e, h);
      assert false;
    } else {
      DeadStep(sk, e, h);
      if Dead(sk.objects, h) {
        i := DeadHadObituary(events, j - 1, h);
      } else {
        i := j - 1;
      }
    }
  }

  // ----- what the results mean

  /** An add enters its recipient in a slot that was free exactly when its parameters are
      good and its handle is listed, alive and not full. ERR_NONE alone does not say so: a
      handle that is not listed returns it too, and a recipient stays entered when the
      driver refuses its first registration. */
  lemma AddMeaning(sk: Skeleton, handle: int, r: Recipient, wantsId: bool, driver: int)
    requires ObjectsInv(sk.objects)
    ensures var after := AddRecipient(sk, handle, r, wantsId);
      var code := AddCode(sk, handle, r, wantsId, driver);
      && (Enters(sk, handle, r, wantsId) ==>
            var k := FreeFrom(sk.objects[Find(sk.objects, handle)].slots, 0);
            k < MAX_DEATH_CALLBACK_NUM && k !in sk.objects[Find(sk.objects, handle)].slots &&
            Holds(after.objects, handle, k, r))
      && (!Enters(sk, handle, r, wantsId) ==> after == sk)
      && (code == ERR_NONE <==>
            r.func != 0 && wantsId &&
            (Listed(sk.objects, handle) ==>
               Enters(sk, handle, r, wantsId) &&
               (Announces(sk.objects[Find(sk.objects, handle)]) ==> driver == ERR_NONE)))
  {
    if Enters(sk, handle, r, wantsId) {
      var i := Find(sk.objects, handle);
      FreeSlotExists(sk.objects[i].slots);
      AddKeepsNode(sk.objects[i], r);
      UpdateKeeps(sk.objects, i, AddTo(sk.objects[i], r));
    }
  }

  /** A remove returns ERR_NONE exactly when it empties a used slot of a listed node that is
      alive, and it changes nothing else. */
  lemma RemoveMeaning(sk: Skeleton, handle: int, cbId: nat)
    requires ObjectsInv(sk.objects)
    ensures var after, i := RemoveRecipient(sk, handle, cbId), Find(sk.objects, handle);
      && (RemoveCode(sk, handle, cbId) == ERR_NONE <==> after != sk)
      && (after != sk <==> i < |sk.objects| && !sk.objects[i].isRemoteDead && cbId in sk.objects[i].slots)
      && (after != sk ==>
            && Find(after.objects, handle) == i
            && after.objects[i].slots == sk.objects[i].slots - {cbId}
            && forall h, k, r :: (h != handle || k != cbId) && Holds(sk.objects, h, k, r) ==>
                 Holds(after.objects, h, k, r))
  {
    var after, i := RemoveRecipient(sk, handle, cbId), Find(sk.objects, handle);
    if i < |sk.objects| && !sk.objects[i].isRemoteDead {
      var n := RemoveFrom(sk.objects[i], cbId);
      if cbId !in sk.objects[i].slots {
        assert n == sk.objects[i];
        assert sk.objects[i := n] == sk.objects;
      } else {
        assert cbId in sk.objects[i].slots && cbId !in n.slots;
        SameFinds(sk.objects[i := n], sk.objects, handle);
        forall h, k, r | (h != handle || k != cbId) && Holds(sk.objects, h, k, r)
          ensures Holds(after.objects, h, k, r)
        {
          HoldsInUpdate(sk.objects, i, n, h, k, r);
        }
      }
    }
  }

  /** The slots from k on that hold r. */
  function Holding(slots: map<nat, Recipient>, k: nat, r: Recipient): set<nat> {
    set j | j in slots && k <= j && slots[j] == r
  }

  lemma HoldingStep(slots: map<nat, Recipient>, k: nat, r: Recipient)
    ensures |Holding(slots, k, r)| == |Holding(slots, k + 1, r)| + if k in slots && slots[k] == r then 1 else 0
  {
    var here := if k in slots && slots[k] == r then {k} else {};
    assert Holding(slots, k, r) == Holding(slots, k + 1, r) + here;
  }

  /** An obituary calls every live recipient exactly once: as often as slots hold it. */
  lemma {:induction false} CallsExactly(slots: map<nat, Recipient>, k: nat, r: Recipient)
    requires SlotsInv(slots)
    ensures multiset(CallsFrom(slots, k))[r] == |Holding(slots, k, r)|
    decreases MAX_DEATH_CALLBACK_NUM - k
  {
    if k >= MAX_DEATH_CALLBACK_NUM {
      assert Holding(slots, k, r) == {};
    } else {
      hide Holding;
      HoldingStep(slots, k, r);
      CallsExactly(slots, k + 1, r);
    }
  }

  function Live(slots: map<nat, Recipient>, k: nat): set<nat> {
    set j | j in slots && k <= j
  }

  lemma LiveStep(slots: map<nat, Recipient>, k: nat)
    ensures |Live(slots, k)| == |Live(slots, k + 1)| + if k in slots then 1 else 0
  {
    assert Live(slots, k) == Live(slots, k + 1) + if k in slots then {k} else {};
  }

  lemma {:induction false} CallsCountFrom(slots: map<nat, Recipient>, k: nat)
    requires SlotsInv(slots)
    ensures |CallsFrom(slots, k)| == |Live(slots, k)|
    decreases MAX_DEATH_CALLBACK_NUM - k
  {
    if k >= MAX_DEATH_CALLBACK_NUM {
      assert Live(slots, k) == {};
    } else {
      hide Live;
      LiveStep(slots, k);
      CallsCountFrom(slots, k + 1);
    }
  }

  /** The number of calls is the number of live recipients. */
  lemma CallsCount(slots: map<nat, Recipient>)
    requires SlotsInv(slots)
    ensures |CallsFrom(slots, 0)| == |slots|
  {
    CallsCountFrom(slots, 0);
    assert Live(slots, 0) == slots.Keys;
  }
}
