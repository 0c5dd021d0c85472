/** The buffer manager of io/buffer_manager.cc as an object: slots in an array, the free list, the
    used list with a map from slots to list nodes, the hash index, and the disk below.  Every method
    leaves exactly the state that the functions of Pool.dfy compute.
 */
module BufferManager {
  import opened Basics
  import opened Pool
  import opened HashTable

  /** A node of the used list; the handle stands for the list iterator that names it. */
  datatype Node = Node(handle: nat, slot: nat)

  ghost function SlotsOf(order: seq<Node>): seq<nat> {
    seq(|order|, n requires 0 <= n < |order| => order[n].slot)
  }

  function Erase(order: seq<Node>, handle: nat): seq<Node> {
    if order == [] then []
    else if order[0].handle == handle then order[1..]
    else [order[0]] + Erase(order[1..], handle)
  }

  /** The map names, for each slot in the list and no other, the node that holds it. */
  ghost predicate Located(order: seq<Node>, usedMap: map<nat, nat>, fresh': nat) {
    && (forall n :: 0 <= n < |order| ==> order[n].slot in usedMap && usedMap[order[n].slot] == order[n].handle)
    && (forall n :: 0 <= n < |order| ==> order[n].handle < fresh')
    && (forall m, n :: 0 <= m < n < |order| ==> order[m].handle != order[n].handle)
    && (forall s :: s in usedMap ==> s in SlotsOf(order))
  }

  /** Erasing the node that a handle names takes its slot off the list. */
  lemma {:induction false} EraseSlots(order: seq<Node>, handle: nat, slot: nat)
    requires forall n :: 0 <= n < |order| ==> (order[n].handle == handle <==> order[n].slot == slot)
    ensures SlotsOf(Erase(order, handle)) == Without(SlotsOf(order), slot)
  {
    if order != [] {
      assert SlotsOf(order) == [order[0].slot] + SlotsOf(order[1..]);
      if order[0].handle != handle {
        EraseSlots(order[1..], handle, slot);
        var rest := Erase(order[1..], handle);
        assert SlotsOf([order[0]] + rest) == [order[0].slot] + SlotsOf(rest);
      } else {
        assert SlotsOf(order)[1..] == SlotsOf(order[1..]);
      }
    }
  }

  lemma {:induction false} EraseFacts(order: seq<Node>, handle: nat)
    requires forall m, n :: 0 <= m < n < |order| ==> order[m].handle != order[n].handle
    ensures forall x :: x in Erase(order, handle) <==> x in order && x.handle != handle
    ensures forall m, n :: 0 <= m < n < |Erase(order, handle)| ==> Erase(order, handle)[m].handle != Erase(order, handle)[n].handle
  {
    if order != [] {
      var rest := order[1..];
      assert order == [order[0]] + rest;
      assert forall x :: x in rest ==> x.handle != order[0].handle;
      if order[0].handle != handle {
        EraseFacts(rest, handle);
      }
    }
  }

  lemma HandleOfSlot(order: seq<Node>, usedMap: map<nat, nat>, fresh': nat, slot: nat)
    requires Located(order, usedMap, fresh') && slot in usedMap
    ensures forall n :: 0 <= n < |order| ==> (order[n].handle == usedMap[slot] <==> order[n].slot == slot)
  {
    var z := SlotsOf(order);
    var m :| 0 <= m < |z| && z[m] == slot;
    assert order[m].slot == slot;
  }

  lemma RemoveLocated(order: seq<Node>, usedMap: map<nat, nat>, fresh': nat, slot: nat)
    requires Located(order, usedMap, fresh') && slot in usedMap
    ensures SlotsOf(Erase(order, usedMap[slot])) == Without(SlotsOf(order), slot)
    ensures Located(Erase(order, usedMap[slot]), usedMap - {slot}, fresh')
  {
    var h := usedMap[slot];
    EraseFacts(order, h);
    HandleOfSlot(order, usedMap, fresh', slot);
    EraseSlots(order, h, slot);
    var less := Erase(order, h);
    forall n | 0 <= n < |less|
      ensures less[n].slot in usedMap - {slot} && (usedMap - {slot})[less[n].slot] == less[n].handle && less[n].handle < fresh'
    {
      assert less[n] in less;
      var j :| 0 <= j < |order| && order[j] == less[n];
    }
    forall s | s in usedMap - {slot}
      ensures s in SlotsOf(less)
    {
      StillListed(order, less, h, s, slot);
    }
  }

  lemma StillListed(order: seq<Node>, less: seq<Node>, h: nat, s: nat, slot: nat)
    requires s in SlotsOf(order) && s != slot
    requires forall n :: 0 <= n < |order| ==> (order[n].handle == h <==> order[n].slot == slot)
    requires forall x :: x in less <==> x in order && x.handle != h
    ensures s in SlotsOf(less)
  {
    var z := SlotsOf(order);
    var j :| 0 <= j < |z| && z[j] == s;
    assert order[j].slot == s && order[j] in less;
    var n :| 0 <= n < |less| && less[n] == order[j];
    assert SlotsOf(less)[n] == s;
  }

  lemma InsertLocated(order: seq<Node>, usedMap: map<nat, nat>, fresh': nat, slot: nat)
    requires Located(order, usedMap, fresh') && slot !in usedMap
    ensures SlotsOf([Node(fresh', slot)] + order) == [slot] + SlotsOf(order)
    ensures Located([Node(fresh', slot)] + order, usedMap[slot := fresh'], fresh' + 1)
  {
    var more := [Node(fresh', slot)] + order;
    assert SlotsOf(more) == [slot] + SlotsOf(order);
    forall s | s in usedMap[slot := fresh']
      ensures s in SlotsOf(more)
    {
      if s == slot {
        assert SlotsOf(more)[0] == slot;
      }
    }
  }

  lemma LocatedKeys(order: seq<Node>, usedMap: map<nat, nat>, fresh': nat, slot: nat)
    requires Located(order, usedMap, fresh')
    ensures slot in usedMap <==> slot in Elems(SlotsOf(order))
  {
    if slot in SlotsOf(order) {
      var n :| 0 <= n < |order| && SlotsOf(order)[n] == slot;
      assert order[n].slot == slot;
    }
  }

  /** With no free slot the victim is taken, if there is one. */
  lemma VictimTaken(p: Pool)
    requires Valid(p) && p.free == []
    ensures match Victim(p.slots, p.used)
            case None => Grab(p).None?
            case Some(i) => i in Elems(p.used) && i < |p.slots| && Grab(p) == Some((Evicted(p, i), i))
  {
    VictimInUse(p.slots, p.used);
    hide Index, Lists;
  }

  class Manager {
    const slots: array<Slot>
    var free: seq<nat>
    var order: seq<Node>
    var usedMap: map<nat, nat>
    var nextHandle: nat
    const table: Table
    var disk: map<Key, Page>
    ghost var Repr: set<object>

    ghost predicate Rep()
      reads this, Repr
    {
      && this in Repr && slots in Repr && table in Repr && table.Repr <= Repr
      && this !in table.Repr && slots !in table.Repr
      && table.Valid()
      && Located(order, usedMap, nextHandle)
    }

    ghost function View(): Pool
      reads this, slots, table
    {
      Pool(slots[..], free, SlotsOf(order), table.Contents, disk)
    }

    constructor (poolSize: nat, blank: Slot, disk: map<Key, Page>)
      ensures Rep() && fresh(Repr)
      ensures View() == Pool(seq(poolSize, _ => blank), seq(poolSize, i => i), [], map[], disk)
    {
      hide Filed;
      slots := new Slot[poolSize](_ => blank);
      var t := new Table(20);
      table := t;
      order, usedMap, nextHandle := [], map[], 0;
      this.disk := disk;
      new;
      var i := 0;
      free := [];
      while i < poolSize
        invariant i <= poolSize && free == seq(i, j => j)
        invariant order == [] && table == t && t.Contents == map[] && this.disk == disk && usedMap == map[]
        invariant slots[..] == seq(poolSize, _ => blank)
        modifies this`free
      {
        free := free + [i];
        i := i + 1;
      }
      Repr := {this, slots} + table.Repr;
    }

    // ----- the two lists

    method InsertUsed(slot: nat)
      requires Rep() && slot !in Elems(SlotsOf(order))
      modifies this`order, this`usedMap, this`nextHandle
      ensures Rep() && View() == old(View()).(used := [slot] + old(View()).used)
    {
      LocatedKeys(order, usedMap, nextHandle, slot);
      InsertLocated(order, usedMap, nextHandle, slot);
      order := [Node(nextHandle, slot)] + order;
      usedMap := usedMap[slot := nextHandle];
      nextHandle := nextHandle + 1;
    }

    method RemoveUsed(slot: nat)
      requires Rep() && slot in Elems(SlotsOf(order))
      modifies this`order, this`usedMap
      ensures Rep() && View() == old(View()).(used := Without(old(View()).used, slot))
    {
      LocatedKeys(order, usedMap, nextHandle, slot);
      RemoveLocated(order, usedMap, nextHandle, slot);
      order := Erase(order, usedMap[slot]);
      usedMap := usedMap - {slot};
    }

    method MoveToFrontOfUsed(slot: nat)
      requires Rep() && NoDup(View().used) && slot in Elems(View().used)
      modifies this`order, this`usedMap, this`nextHandle
      ensures Rep() && View() == Touch(old(View()), slot)
    {
      WithoutFacts(View().used, slot);
      RemoveUsed(slot);
      InsertUsed(slot);
    }

    // ----- single updates

    method SetSlot(i: nat, s: Slot)
      requires Rep() && i < slots.Length
      modifies slots
      ensures Rep() && View() == old(View()).(slots := old(View()).slots[i := s])
    {
      slots[i] := s;
    }

    method Unmap(k: Key)
      requires Rep() && Hashable(k)
      modifies table.Repr, this`Repr
      ensures Rep() && fresh(Repr - old(Repr)) && View() == old(View()).(table := old(View()).table - {k})
    {
      table.Remove(k);
      Repr := Repr + table.Repr;
    }

    method MapTo(k: Key, i: nat)
      requires Rep() && Hashable(k) && k !in table.Contents
      modifies table.Repr, this`Repr
      ensures Rep() && fresh(Repr - old(Repr)) && View() == old(View()).(table := old(View()).table[k := i])
    {
      table.Insert(k, i);
      Repr := Repr + table.Repr;
    }

    /** `write_page` of a dirty slot. */
    method Save(i: nat)
      requires Rep() && i < slots.Length
      modifies this`disk
      ensures Rep() && View() == old(View()).(disk := SaveSlot(old(View()), i))
    {
      if slots[i].dirty {
        disk := disk[slots[i].key := slots[i].data];
      }
    }

    lemma Resident(k: Key)
      requires Rep() && Valid(View()) && k in table.Contents
      ensures table.Contents[k] < slots.Length && slots[table.Contents[k]].key == k && Hashable(k)
      ensures table.Contents[k] in Elems(View().used) && NoDup(View().used)
    {
    }

    lemma UsedSlot(i: nat)
      requires Rep() && Valid(View()) && i in Elems(View().used)
      ensures i < slots.Length && slots[i].key in table.Contents && Hashable(slots[i].key)
      ensures NoDup(View().used)
    {
    }

    // ----- allocation

    /** From the back of the used list to the first unpinned slot. */
    method FindVictim() returns (slot: Option<nat>)
      requires Rep() && InRange(View())
      ensures slot == Victim(View().slots, View().used)
    {
      hide Located;
      ghost var used := View().used;
      var n := |order|;
      assert used[..n] == used;
      while n > 0
        invariant 0 <= n <= |order| == |used|
        invariant Victim(slots[..], used) == Victim(slots[..], used[..n])
      {
        assert used[..n][..n - 1] == used[..n - 1] && used[n - 1] == order[n - 1].slot;
        if slots[order[n - 1].slot].pin == 0 {
          return Some(order[n - 1].slot);
        }
        n := n - 1;
      }
      return None;
    }

    method InternalAlloc() returns (slot: Option<nat>)
      requires Rep() && Valid(View())
      modifies Repr
      ensures Rep() && fresh(Repr - old(Repr)) && slots[..] == old(slots[..])
      ensures slot.None? <==> Grab(old(View())).None?
      ensures slot.None? ==> View() == old(View())
      ensures slot.Some? ==> Grab(old(View())) == Some((View(), slot.value))
    {
      if free != [] {
        var i := TakeFree();
        slot := Some(i);
      } else {
        slot := EvictVictim();
      }
    }

    method EvictVictim() returns (slot: Option<nat>)
      requires Rep() && Valid(View()) && free == []
      modifies Repr
      ensures Rep() && fresh(Repr - old(Repr)) && slots[..] == old(slots[..])
      ensures slot.None? ==> Grab(old(View())).None? && View() == old(View())
      ensures slot.Some? ==> Grab(old(View())) == Some((View(), slot.value))
    {
      hide Lists, Index, Located, Elems, Filed, Grab, Without;
      VictimTaken(View());
      slot := FindVictim();
      if slot.Some? {
        EvictSlot(slot.value);
      }
    }

    method TakeFree() returns (i: nat)
      requires Rep() && Valid(View()) && free != []
      modifies this`free, this`order, this`usedMap, this`nextHandle
      ensures Rep() && Repr == old(Repr) && Grab(old(View())) == Some((View(), i)) && slots[..] == old(slots[..])
    {
      FreeNotUsed(View());
      hide Lists, Index, Located, NoDup, Elems, Filed;
      i := free[0];
      free := free[1..];
      InsertUsed(i);
    }

    /** Write the page back if it is dirty, unmap it, and move its slot to the front. */
    method EvictSlot(i: nat)
      requires Rep() && Valid(View()) && i in Elems(View().used) && i < slots.Length
      modifies Repr
      ensures Rep() && fresh(Repr - old(Repr)) && slots[..] == old(slots[..])
      ensures View() == Touch(old(View()), i).(disk := SaveSlot(old(View()), i), table := old(View()).table - {old(slots[i]).key})
    {
      hide Lists, Index, Located, NoDup, Elems, Filed;
      UsedSlot(i);
      Save(i);
      Unmap(slots[i].key);
      MoveToFrontOfUsed(i);
    }

    // ----- public operations

    method Get(k: Key, multiplePins: bool) returns (r: Result)
      requires Rep() && Valid(View()) && Hashable(k)
      modifies Repr
      ensures Rep() && fresh(Repr - old(Repr))
      ensures (View(), r) == GetPage(old(View()), k, multiplePins)
    {
      hide Lists, Index, Located, NoDup, Elems, Filed;
      var found := table.Find(k);
      if found == -1 {
        r := GetMissing(k);
      } else {
        Resident(k);
        if !multiplePins && slots[found].pin > 0 {
          return Err(StillPinned);
        }
        SetSlot(found, slots[found].(pin := slots[found].pin + 1));
        MoveToFrontOfUsed(found);
        return Ok(found);
      }
    }

    method GetMissing(k: Key) returns (r: Result)
      requires Rep() && Valid(View()) && Hashable(k) && k !in table.Contents
      modifies Repr
      ensures Rep() && fresh(Repr - old(Repr))
      ensures (View(), r) == GetPage(old(View()), k, true)
    {
      hide Lists, Index, Located, NoDup, Elems, Filed;
      GrabInRange(View());
      var slot := InternalAlloc();
      if slot.None? {
        return Err(NoBuffer);
      }
      if k !in disk {
        return Err(ShortRead);
      }
      var i := slot.value;
      MapTo(k, i);
      SetSlot(i, Slot(false, k, disk[k], 1));
      return Ok(i);
    }

    method Allocate(k: Key) returns (r: Result)
      requires Rep() && Valid(View()) && Hashable(k)
      modifies Repr
      ensures Rep() && fresh(Repr - old(Repr))
      ensures (View(), r) == AllocatePage(old(View()), k)
    {
      hide Lists, Index, Located, NoDup, Elems, Filed;
      var found := table.Find(k);
      if found != -1 {
        return Err(AlreadyResident);
      }
      GrabInRange(View());
      var slot := InternalAlloc();
      if slot.None? {
        return Err(NoBuffer);
      }
      var i := slot.value;
      MapTo(k, i);
      SetSlot(i, Slot(false, k, slots[i].data, 1));
      return Ok(i);
    }

    method Unpin(k: Key) returns (r: Result)
      requires Rep() && Valid(View()) && Hashable(k)
      modifies Repr
      ensures Rep() && fresh(Repr - old(Repr))
      ensures (View(), r) == UnpinPage(old(View()), k)
    {
      hide Lists, Index, Located, NoDup, Elems, Filed;
      var found := table.Find(k);
      if found == -1 {
        return Err(NotResident);
      }
      Resident(k);
      if slots[found].pin == 0 {
        return Err(NotPinned);
      }
      SetSlot(found, slots[found].(pin := slots[found].pin - 1));
      if slots[found].pin == 0 {
        MoveToFrontOfUsed(found);
      }
      return Ok(found);
    }

    method Dirty(k: Key) returns (r: Result)
      requires Rep() && Valid(View()) && Hashable(k)
      modifies Repr
      ensures Rep() && fresh(Repr - old(Repr))
      ensures (View(), r) == MarkDirty(old(View()), k)
    {
      hide Lists, Index, Located, NoDup, Elems, Filed;
      var found := table.Find(k);
      if found == -1 {
        return Err(NotResident);
      }
      Resident(k);
      SetSlot(found, slots[found].(dirty := true));
      MoveToFrontOfUsed(found);
      return Ok(found);
    }

    /** The client's store through the pointer of a pinned page. */
    method Write(k: Key, data: Page) returns (r: Result)
      requires Rep() && Valid(View()) && Hashable(k)
      modifies slots
      ensures Rep()
      ensures (View(), r) == WritePage(old(View()), k, data)
    {
      hide Lists, Index, Located, NoDup, Elems, Filed;
      var found := table.Find(k);
      if found == -1 {
        return Err(NotResident);
      }
      Resident(k);
      if slots[found].pin == 0 {
        return Err(NotPinned);
      }
      SetSlot(found, slots[found].(data := data));
      return Ok(found);
    }

    method Flush(fd: int) returns (ok: bool)
      requires Rep() && Valid(View())
      modifies Repr
      ensures Rep() && fresh(Repr - old(Repr))
      ensures (View(), ok) == FlushPages(old(View()), fd) && Valid(View())
    {
      hide Lists, Index, Located, NoDup, Elems, Filed;
      var i := 0;
      while i < slots.Length
        invariant i <= slots.Length && Rep() && Valid(View()) && fresh(Repr - old(Repr))
        invariant FlushFrom(View(), fd, i, true) == FlushPages(old(View()), fd)
      {
        UsedMapIsUsed(i);
        if slots[i].key.fd == fd && i in usedMap {
          if slots[i].pin > 0 {
            return false;
          }
          Release(i);
        }
        i := i + 1;
      }
      return true;
    }

    lemma UsedMapIsUsed(i: nat)
      requires Rep()
      ensures i in usedMap <==> i in View().used
      ensures i in usedMap <==> i in Elems(View().used)
    {
      LocatedKeys(order, usedMap, nextHandle, i);
    }

    method Release(i: nat)
      requires Rep() && Valid(View()) && i in Elems(View().used) && i < slots.Length
      modifies Repr
      ensures Rep() && fresh(Repr - old(Repr))
      ensures View() == ReleaseSlot(old(View()), i) && Valid(View())
    {
      hide Lists, Index, Located, NoDup, Elems, Filed;
      UsedSlot(i);
      ReleaseValid(View(), i);
      Save(i);
      SetSlot(i, slots[i].(dirty := false));
      Unmap(slots[i].key);
      RemoveUsed(i);
      free := [i] + free;
    }

    method Force(fd: int, page: int)
      requires Rep() && InRange(View())
      modifies this`disk, slots
      ensures Rep()
      ensures View() == ForcePage(old(View()), fd, page)
    {
      hide Located;
      var n := 0;
      while n < |order|
        invariant n <= |order| == |View().used| && Rep() && InRange(View())
        invariant ForceFrom(View(), fd, page, n) == ForcePage(old(View()), fd, page)
      {
        var i := order[n].slot;
        assert View().used[n] == i;
        if slots[i].key.fd == fd && (slots[i].key.page == page || page == ALL_PAGES) {
          if slots[i].dirty {
            Save(i);
            SetSlot(i, slots[i].(dirty := false));
          }
        }
        n := n + 1;
      }
    }
  }

}
