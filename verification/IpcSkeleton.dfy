/** The process skeleton and its remote objects as they are changed in place: the objects
    hang in a circular list on the heap by the list node inside each of them. */
module IpcSkeleton {
  import opened DeathTable
  import L = IntrusiveList

  datatype DeathHandler = DeathHandler(usedFlag: bool, func: nat, args: nat)

  class DeathCallback {
    const list: L.DLNode
    const handle: int
    const handler: array<DeathHandler>
    var deathNum: int
    var isRemoteDead: bool
    var isNewHandler: bool
    ghost var registrations: nat

    /** The partial map that the handler array stands for. */
    ghost function Slots(): map<nat, Recipient>
      requires handler.Length == MAX_DEATH_CALLBACK_NUM
      reads handler
    {
      map i: nat | i < MAX_DEATH_CALLBACK_NUM && handler[i].usedFlag :: Recipient(handler[i].func, handler[i].args)
    }

    ghost function State(): Node
      requires handler.Length == MAX_DEATH_CALLBACK_NUM
      reads this, handler
    {
      Node(handle, Slots(), isRemoteDead, isNewHandler, registrations)
    }

    /** The counter is the number of used slots. */
    ghost predicate Valid()
      reads this, handler
    {
      handler.Length == MAX_DEATH_CALLBACK_NUM && deathNum == |Slots()| && NodeInv(State())
    }

    constructor (handle: int)
      requires handle > 0
      ensures Valid() && State() == NewNode(handle) && fresh(handler) && fresh(list)
    {
      this.handle := handle;
      list := new L.DLNode();
      handler := new DeathHandler[MAX_DEATH_CALLBACK_NUM](_ => DeathHandler(false, 0, 0));
      deathNum, isRemoteDead, isNewHandler, registrations := 0, false, true, 0;
    }

    method SetDeathHandlerPair(index: nat, r: Recipient)
      requires handler.Length == MAX_DEATH_CALLBACK_NUM && index < MAX_DEATH_CALLBACK_NUM
      modifies this`deathNum, handler
      ensures Slots() == old(Slots())[index := r] && deathNum == old(deathNum) + 1
    {
      handler[index] := DeathHandler(true, r.func, r.args);
      deathNum := deathNum + 1;
    }

    /** Enters a recipient in the first unused slot; first tells whether the driver must be told. */
    method AddHandler(r: Recipient) returns (index: nat, first: bool)
      requires Valid() && !Full(State()) && r.func != 0
      modifies this, handler
      ensures Valid() && State() == AddTo(old(State()), r)
      ensures index == FreeFrom(old(Slots()), 0) && index < MAX_DEATH_CALLBACK_NUM
      ensures first <==> Announces(old(State()))
    {
      FreeSlotExists(Slots());
      AddKeepsNode(State(), r);
      index := 0;
      while handler[index].usedFlag
        invariant index < MAX_DEATH_CALLBACK_NUM && FreeFrom(Slots(), 0) == FreeFrom(Slots(), index)
        decreases MAX_DEATH_CALLBACK_NUM - index
      {
        index := index + 1;
      }
      SetDeathHandlerPair(index, r);
      first := deathNum == 1 && isNewHandler;
      if first {
        isNewHandler, registrations := false, registrations + 1;
      }
    }

    method RemoveHandler(cbId: nat) returns (ret: int)
      requires Valid() && cbId < MAX_DEATH_CALLBACK_NUM
      modifies this`deathNum, handler
      ensures Valid() && State() == RemoveFrom(old(State()), cbId)
      ensures ret == if cbId in old(Slots()) then ERR_NONE else ERR_INVALID_PARAM
    {
      RemoveKeepsNode(State(), cbId);
      if handler[cbId].usedFlag {
        ghost var slots := Slots();
        handler[cbId] := handler[cbId].(usedFlag := false, func := 0);
        deathNum := deathNum - 1;
        assert Slots() == slots - {cbId};
        return ERR_NONE;
      }
      assert Slots() - {cbId} == Slots();
      return ERR_INVALID_PARAM;
    }

    /** Fills a fixed array with the live recipients; no entry of it stays unset. */
    method CopyLive(ghost slots: map<nat, Recipient>) returns (copy: array<Recipient>)
      requires handler.Length == MAX_DEATH_CALLBACK_NUM && deathNum == |CallsFrom(slots, 0)|
      requires forall i :: 0 <= i < MAX_DEATH_CALLBACK_NUM ==> SlotIs(handler[i], slots, i)
      ensures fresh(copy) && copy[..] == CallsFrom(slots, 0)
    {
      hide CallsFrom;
      copy := new Recipient[deathNum](_ => Recipient(0, 0));
      var i, index := 0, 0;
      while i < MAX_DEATH_CALLBACK_NUM && index < deathNum
        invariant 0 <= i <= MAX_DEATH_CALLBACK_NUM && 0 <= index <= deathNum
        invariant copy[..index] + CallsFrom(slots, i) == CallsFrom(slots, 0)
      {
        CallsStep(slots, i);
        if handler[i].usedFlag && handler[i].func != 0 {
          ghost var done := copy[..index];
          copy[index] := Recipient(handler[i].func, handler[i].args);
          index := index + 1;
          assert copy[..index] == done + [slots[i]];
        }
        i := i + 1;
      }
      CallsStep(slots, i);
    }

    /** Marks the object dead, copies the live recipients and calls the copies; the calls
        are returned in order. */
    method SendObituary() returns (called: seq<Recipient>)
      requires Valid()
      modifies this`isRemoteDead
      ensures Valid() && State() == old(State()).(isRemoteDead := true)
      ensures called == CallsFrom(Slots(), 0)
    {
      BuryKeepsNode(State());
      CallsCount(Slots());
      isRemoteDead := true;
      hide NodeInv, CallsFrom;
      if deathNum == 0 {
        return [];
      }
      var copy := CopyLive(Slots());
      called := CallAll(copy);
    }
  }

  /** An array entry agrees with the partial map, and is callable when used. */
  ghost predicate SlotIs(h: DeathHandler, slots: map<nat, Recipient>, i: nat) {
    if h.usedFlag then h.func != 0 && i in slots && slots[i] == Recipient(h.func, h.args) else i !in slots
  }

  lemma CallsStep(slots: map<nat, Recipient>, i: nat)
    ensures i < MAX_DEATH_CALLBACK_NUM ==>
      CallsFrom(slots, i) == (if i in slots then [slots[i]] else []) + CallsFrom(slots, i + 1)
    ensures i >= MAX_DEATH_CALLBACK_NUM ==> CallsFrom(slots, i) == []
  {
  }

  method CallAll(copy: array<Recipient>) returns (called: seq<Recipient>)
    ensures called == copy[..]
  {
    called := [];
    for j := 0 to copy.Length
      invariant called == copy[..j]
    {
      called := called + [copy[j]];
    }
  }

  /** The list of remote objects as it stands on the heap. */
  class ObjectList {
    const head: L.DLNode
    var entry: map<L.DLNode, DeathCallback>      // DL_LIST_ENTRY: the object around a list node
    ghost var nodes: seq<L.DLNode>
    ghost var objects: seq<DeathCallback>

    /** The ring behind the head runs through the objects in order. */
    ghost predicate Chained()
      reads this, head, nodes
    {
      L.Ring([head] + nodes) && Entries(nodes, objects, entry)
    }

    constructor ()
      ensures Chained() && objects == [] && fresh(head) && nodes == []
    {
      head := new L.DLNode();
      entry, nodes, objects := map[], [], [];
      new;
      L.DLListInit(head);
      assert [head] + nodes == [head];
    }

    /** What the walk knows about position k of the list. */
    lemma At(k: nat)
      requires Chained() && k <= |nodes|
      ensures var node := L.After([head] + nodes, k);
        && (node == head <==> k == |nodes|)
        && (k < |nodes| ==> node == nodes[k] && node in entry && entry[node] == objects[k] &&
                            node.pstNext == L.After([head] + nodes, k + 1))
      ensures head.pstNext == L.After([head] + nodes, 0)
    {
      L.LinkedAfter([head] + nodes, 0);
      if k < |nodes| {
        L.LinkedAfter([head] + nodes, k + 1);
        assert ([head] + nodes)[k + 1] == nodes[k];
        assert ([head] + nodes)[0] == head;
      }
    }

    /** Walks to the first object of the handle, or back to the head. */
    method FindFirst(handle: int) returns (node: L.DLNode, ghost i: nat)
      requires Chained()
      ensures i <= |objects| == |nodes| && forall j :: 0 <= j < i ==> objects[j].handle != handle
      ensures i < |objects| ==>
        objects[i].handle == handle && node == nodes[i] && node in entry && entry[node] == objects[i]
      ensures node == head <==> i == |objects|
    {
      hide L.Ring;
      At(0);
      i := 0;
      node := head.pstNext;
      while node != head && entry[node].handle != handle
        invariant i <= |objects| && node == L.After([head] + nodes, i)
        invariant node != head ==> node in entry
        invariant node == head <==> i == |objects|
        invariant forall j :: 0 <= j < i ==> objects[j].handle != handle
        decreases |objects| - i
      {
        At(i);
        At(i + 1);
        i := i + 1;
        node := node.pstNext;
      }
      At(i);
    }

    /** Puts an object whose list node is not in the ring in front. */
    method AddFirst(callback: DeathCallback)
      requires Chained() && callback.list !in [head] + nodes
      modifies this, head, nodes, callback.list
      ensures Chained() && objects == [callback] + old(objects) && nodes == [callback.list] + old(nodes)
    {
      hide L.Ring;
      At(0);
      L.DLListInsert(head, callback.list, nodes);
      entry := entry[callback.list := callback];
      nodes, objects := [callback.list] + nodes, [callback] + objects;
    }

    /** The neighbours of a node are in the ring, and no node is in it twice. */
    lemma Neighbours(i: nat)
      requires Chained() && i < |nodes|
      ensures nodes[i].pstNext in [head] + nodes && nodes[i].pstPrev in [head] + nodes
      ensures ([head] + nodes)[i + 1] == nodes[i]
      ensures forall j, k :: 0 <= j < k < |nodes| ==> nodes[j] != nodes[k]
    {
      var r := [head] + nodes;
      L.LinkedAfter(r, i);
      L.LinkedAfter(r, i + 1);
      assert r[i] in r && L.After(r, i + 1) in r;
      forall j, k | 0 <= j < k < |nodes| ensures nodes[j] != nodes[k] {
        assert nodes[j] == r[j + 1] && nodes[k] == r[k + 1];
      }
    }

    /** Takes the list node of an object out of the ring. */
    method Erase(node: L.DLNode, ghost i: nat)
      requires Chained() && i < |nodes| && node == nodes[i]
      modifies this, head, nodes
      ensures Chained() && objects == old(objects)[..i] + old(objects)[i + 1..]
      ensures nodes == old(nodes)[..i] + old(nodes)[i + 1..]
      ensures node.pstNext == null && node.pstPrev == null
    {
      Neighbours(i);
      ghost var r := [head] + nodes;
      hide L.Ring;
      L.DLListDelete(node, r, i + 1);
      assert L.Remove(r, i + 1) == [head] + (nodes[..i] + nodes[i + 1..]);
      EntriesErase(nodes, objects, entry, i);
      entry := entry - {node};
      nodes, objects := nodes[..i] + nodes[i + 1..], objects[..i] + objects[i + 1..];
    }
  }

  /** Each node is the list node of its object. */
  ghost predicate Entries(nodes: seq<L.DLNode>, objects: seq<DeathCallback>, entry: map<L.DLNode, DeathCallback>) {
    && |nodes| == |objects|
    && forall i :: 0 <= i < |nodes| ==>
         objects[i].list == nodes[i] && nodes[i] in entry && entry[nodes[i]] == objects[i]
  }

  lemma EntriesErase(nodes: seq<L.DLNode>, objects: seq<DeathCallback>, entry: map<L.DLNode, DeathCallback>, i: nat)
    requires Entries(nodes, objects, entry) && i < |nodes|
    requires forall j, k :: 0 <= j < k < |nodes| ==> nodes[j] != nodes[k]
    ensures Entries(nodes[..i] + nodes[i + 1..], objects[..i] + objects[i + 1..], entry - {nodes[i]})
  {
  }

  class IpcSkeleton {
    const list: ObjectList
    ghost var acquired: multiset<int>
    ghost var released: multiset<int>

    ghost predicate Valid()
      reads this, list, list.head, list.nodes, list.objects, set o | o in list.objects :: o.handler
    {
      list.Chained() && Sound(list.objects)
    }

    ghost function State(): Skeleton
      requires Sound(list.objects)
      reads this, list, list.objects, set o | o in list.objects :: o.handler
    {
      Skeleton(States(list.objects), acquired, released)
    }

    constructor ()
      ensures Valid() && State() == Start()
    {
      list := new ObjectList();
      acquired, released := multiset{}, multiset{};
    }

    method FindNode(handle: int) returns (node: L.DLNode, ghost i: nat)
      requires Valid()
      ensures i == Find(State().objects, handle)
      ensures i < |list.objects| ==> |list.nodes| == |list.objects| && node == list.nodes[i] &&
                                     node in list.entry && list.entry[node] == list.objects[i]
      ensures node == list.head <==> i == |list.objects|
    {
      node, i := list.FindFirst(handle);
      hide ObjectList.Chained, DeathCallback.Valid;
      FindUnique(State().objects, handle, i);
    }

    /** What the object at a position tells about the node it stands for. */
    lemma Stands(i: nat)
      requires Valid() && i < |list.objects|
      ensures i < |State().objects| && State().objects[i] == list.objects[i].State()
      ensures list.objects[i].isRemoteDead == State().objects[i].isRemoteDead
      ensures list.objects[i].deathNum == |State().objects[i].slots|
      ensures list.objects[i].Slots() == State().objects[i].slots
    {
    }

    method PushNew(handle: int)
      requires Valid() && handle > 0
      modifies list, list.head, list.nodes
      ensures Valid() && State().objects == [NewNode(handle)] + old(State()).objects
    {
      hide DeathCallback.Valid, DeathCallback.State, NewNode, ObjectList.Chained, Sound, States;
      ghost var objects := list.objects;
      var callback := new DeathCallback(handle);
      assert forall o :: o in objects ==> o != callback && o.handler != callback.handler;
      SoundCons(callback, objects);
      list.AddFirst(callback);
    }

    method FirstAddObject(handle: int, alloc: bool) returns (added: bool)
      requires Valid() && handle > 0
      modifies list, list.head, list.nodes
      ensures Valid()
      ensures added <==> !Listed(old(State()).objects, handle) && alloc
      ensures State().objects ==
        if added then [NewNode(handle)] + old(State()).objects else old(State()).objects
    {
      hide DeathCallback.Valid, DeathCallback.State, NewNode, ObjectList.Chained, Sound, States;
      ghost var i;
      var node: L.DLNode;
      node, i := FindNode(handle);
      if node != list.head || !alloc {
        return false;
      }
      PushNew(handle);
      return true;
    }

    method OnFirstStrongRef(handle: int, alloc: bool, invoker: bool)
      requires Valid()
      modifies this, list, list.head, list.nodes
      ensures Valid() && State() == FirstReference(old(State()), handle, alloc, invoker)
    {
      hide DeathCallback.Valid, DeathCallback.State, ObjectList.Chained;
      if handle <= 0 {
        return;
      }
      var added := FirstAddObject(handle, alloc);
      if added && invoker {
        acquired := acquired + multiset{handle};
      }
    }

    method EraseNode(node: L.DLNode, ghost i: nat)
      requires Valid() && i < |list.objects| == |list.nodes| && node == list.nodes[i]
      modifies list, list.head, list.nodes
      ensures Valid()
      ensures State() == old(State()).(objects := old(State()).objects[..i] + old(State()).objects[i + 1..])
    {
      hide DeathCallback.Valid, DeathCallback.State, ObjectList.Chained, Sound, States;
      SoundErase(list.objects, i);
      list.Erase(node, i);
    }

    method ReleaseHandle(handle: int)
      requires Valid()
      modifies this`released
      ensures Valid() && State() == old(State()).(released := old(released) + multiset{handle})
    {
      hide DeathCallback.Valid, DeathCallback.State, ObjectList.Chained;
      released := released + multiset{handle};
    }

    method DeleteHandle(handle: int, invoker: bool) returns (ret: int)
      requires Valid()
      modifies this, list, list.head, list.nodes
      ensures Valid() && State() == DeathTable.DeleteHandle(old(State()), handle, invoker)
      ensures ret == if Listed(old(State()).objects, handle) then ERR_NONE else ERR_INVALID_PARAM
    {
      hide DeathCallback.Valid, DeathCallback.State, ObjectList.Chained, Sound, States, DeathTable.DeleteHandle;
      ghost var i;
      var node: L.DLNode;
      node, i := FindNode(handle);
      DeleteSplit(State(), handle, invoker, i);
      if node == list.head {
        return ERR_INVALID_PARAM;
      }
      EraseNode(node, i);
      if invoker {
        ReleaseHandle(handle);
      }
      return ERR_NONE;
    }

    method AddAt(node: DeathCallback, ghost i: nat, r: Recipient) returns (index: nat, first: bool)
      requires Valid() && i < |list.objects| && node == list.objects[i] && !Full(list.objects[i].State()) && r.func != 0
      modifies node, node.handler
      ensures Valid() && State().objects == old(State()).objects[i := AddTo(old(list.objects[i].State()), r)]
      ensures index == FreeFrom(old(list.objects[i].Slots()), 0) && index < MAX_DEATH_CALLBACK_NUM
      ensures first <==> Announces(old(list.objects[i].State()))
    {
      hide DeathCallback.Valid, DeathCallback.State, DeathCallback.Slots, ObjectList.Chained, AddTo, Announces;
      index, first := node.AddHandler(r);
    }

    method RemoveAt(node: DeathCallback, ghost i: nat, cbId: nat) returns (ret: int)
      requires Valid() && i < |list.objects| && node == list.objects[i] && cbId < MAX_DEATH_CALLBACK_NUM
      modifies node, node.handler
      ensures Valid() && State().objects == old(State()).objects[i := RemoveFrom(old(list.objects[i].State()), cbId)]
      ensures ret == if cbId in old(list.objects[i].Slots()) then ERR_NONE else ERR_INVALID_PARAM
    {
      hide DeathCallback.Valid, DeathCallback.State, DeathCallback.Slots, ObjectList.Chained, RemoveFrom;
      ret := node.RemoveHandler(cbId);
    }

    /** cbId is -1 when nothing is entered. */
    method ProcessAddDeathRecipient(handle: int, r: Recipient, wantsId: bool, driver: int)
      returns (ret: int, cbId: int)
      requires Valid()
      modifies list.objects, set o | o in list.objects :: o.handler
      ensures Valid() && State() == AddRecipient(old(State()), handle, r, wantsId)
      ensures ret == AddCode(old(State()), handle, r, wantsId, driver)
      ensures cbId == if Enters(old(State()), handle, r, wantsId)
                      then FreeFrom(old(State()).objects[Find(old(State()).objects, handle)].slots, 0) else -1
    {
      hide DeathCallback.Valid, DeathCallback.State, DeathCallback.Slots, ObjectList.Chained, Sound, States, AddTo;
      cbId := -1;
      if r.func == 0 || !wantsId {
        return ERR_INVALID_PARAM, cbId;
      }
      ghost var i;
      var item: L.DLNode;
      item, i := FindNode(handle);
      if item == list.head {
        return ERR_NONE, cbId;
      }
      Stands(i);
      var node := list.entry[item];
      if node.isRemoteDead {
        return ERR_DEAD_OBJECT, cbId;
      }
      if node.deathNum == MAX_DEATH_CALLBACK_NUM {
        return ERR_INVALID_PARAM, cbId;
      }
      var first: bool;
      cbId, first := AddAt(node, i, r);
      return if first then driver else ERR_NONE, cbId;
    }

    method ProcessRemoveDeathRecipient(handle: int, cbId: nat) returns (ret: int)
      requires Valid()
      modifies list.objects, set o | o in list.objects :: o.handler
      ensures Valid() && State() == RemoveRecipient(old(State()), handle, cbId)
      ensures ret == RemoveCode(old(State()), handle, cbId)
    {
      hide DeathCallback.Valid, DeathCallback.State, DeathCallback.Slots, ObjectList.Chained, Sound, States, RemoveFrom;
      if cbId >= MAX_DEATH_CALLBACK_NUM {
        return ERR_INVALID_PARAM;
      }
      ghost var i;
      var item: L.DLNode;
      item, i := FindNode(handle);
      if item == list.head {
        return ERR_INVALID_PARAM;
      }
      Stands(i);
      if list.entry[item].isRemoteDead {
        return ERR_DEAD_OBJECT;
      }
      ret := RemoveAt(list.entry[item], i, cbId);
    }
  }

  /** The objects are valid and share nothing. */
  ghost predicate Sound(objects: seq<DeathCallback>)
    reads objects, set o | o in objects :: o.handler
  {
    && (forall i :: 0 <= i < |objects| ==> objects[i].Valid())
    && (forall i, j :: 0 <= i < j < |objects| ==>
          objects[i] != objects[j] && objects[i].handler != objects[j].handler)
  }

  /** The nodes the objects stand for. */
  ghost function States(objects: seq<DeathCallback>): (r: seq<Node>)
    requires forall i :: 0 <= i < |objects| ==> objects[i].handler.Length == MAX_DEATH_CALLBACK_NUM
    reads objects, set o | o in objects :: o.handler
    ensures |r| == |objects| && forall i :: 0 <= i < |objects| ==> r[i] == objects[i].State()
  {
    if objects == [] then [] else [objects[0].State()] + States(objects[1..])
  }

  lemma SoundCons(callback: DeathCallback, objects: seq<DeathCallback>)
    requires Sound(objects) && callback.Valid()
    requires forall o :: o in objects ==> o != callback && o.handler != callback.handler
    ensures Sound([callback] + objects) && States([callback] + objects) == [callback.State()] + States(objects)
  {
    assert ([callback] + objects)[1..] == objects;
  }

  lemma RestAt<T>(q: seq<T>, i: nat, j: nat)
    requires i < |q| && j < |q| - 1
    ensures (q[..i] + q[i + 1..])[j] == q[if j < i then j else j + 1]
  {
  }

  lemma SoundRest(objects: seq<DeathCallback>, i: nat)
    requires Sound(objects) && i < |objects|
    ensures Sound(objects[..i] + objects[i + 1..])
  {
    hide DeathCallback.Valid;
    var rest := objects[..i] + objects[i + 1..];
    forall j | 0 <= j < |rest| ensures rest[j] == objects[if j < i then j else j + 1] {
      RestAt(objects, i, j);
    }
  }

  lemma SoundErase(objects: seq<DeathCallback>, i: nat)
    requires Sound(objects) && i < |objects|
    ensures var rest := objects[..i] + objects[i + 1..];
      Sound(rest) && States(rest) == States(objects)[..i] + States(objects)[i + 1..]
  {
    SoundRest(objects, i);
    var rest := objects[..i] + objects[i + 1..];
    hide DeathCallback.Valid, DeathCallback.State, Sound;
    forall j | 0 <= j < |rest| ensures States(rest)[j] == (States(objects)[..i] + States(objects)[i + 1..])[j] {
      RestAt(objects, i, j);
      RestAt(States(objects), i, j);
    }
  }

  lemma DeleteSplit(sk: Skeleton, handle: int, invoker: bool, i: nat)
    requires i == Find(sk.objects, handle)
    ensures DeathTable.DeleteHandle(sk, handle, invoker) ==
      if i == |sk.objects| then sk
      else sk.(objects := sk.objects[..i] + sk.objects[i + 1..],
               released := if invoker then sk.released + multiset{handle} else sk.released)
  {
  }
}
