/** The page cache of io/buffer_manager.cc as a value: the slots, the free list, the used list in
    order of last touch, the index from pages to slots, and the disk below it.  Each public operation
    is a function to the new pool and its result; the class in BufferManager.dfy computes them.
 */
module Pool {
  import opened Basics

  /** A page of an open file. */
  datatype Key = Key(fd: int, page: int)

  /** Page contents: the `next_free` link of the page header, and everything after it. */
  datatype Page = Page(next: int, body: seq<int>)

  datatype Slot = Slot(dirty: bool, key: Key, data: Page, pin: int)

  datatype Error = NoBuffer | ShortRead | StillPinned | NotResident | NotPinned | AlreadyResident

  datatype Result = Ok(slot: nat) | Err(error: Error)

  datatype Pool = Pool(
    slots: seq<Slot>,
    free: seq<nat>,
    used: seq<nat>,
    table: map<Key, nat>,
    disk: map<Key, Page>)

  // ----- lists

  /** The list without the (first) node that holds `x`. */
  function Without(s: seq<nat>, x: nat): seq<nat> {
    if s == [] then []
    else if s[0] == x then s[1..]
    else [s[0]] + Without(s[1..], x)
  }

  ghost predicate NoDup(s: seq<nat>) {
    forall i, j :: 0 <= i < j < |s| ==> s[i] != s[j]
  }

  ghost function Elems(s: seq<nat>): set<nat> {
    set x | x in s
  }

  lemma {:induction false} WithoutFacts(s: seq<nat>, x: nat)
    requires NoDup(s)
    ensures NoDup(Without(s, x))
    ensures Elems(Without(s, x)) == Elems(s) - {x}
  {
    if s != [] {
      var t := s[1..];
      assert s == [s[0]] + t && s[0] !in t;
      ElemsCons(s[0], t);
      if s[0] != x {
        WithoutFacts(t, x);
        ElemsCons(s[0], Without(t, x));
        NoDupCons(s[0], Without(t, x));
      }
    }
  }

  lemma ElemsCons(x: nat, s: seq<nat>)
    ensures Elems([x] + s) == {x} + Elems(s)
  {
  }

  lemma NoDupCons(x: nat, s: seq<nat>)
    requires NoDup(s) && x !in Elems(s)
    ensures NoDup([x] + s)
  {
    forall j | 0 <= j < |s|
      ensures s[j] != x
    {
      assert s[j] in Elems(s);
    }
  }

  lemma MoveToFront(s: seq<nat>, x: nat)
    requires NoDup(s) && x in Elems(s)
    ensures NoDup([x] + Without(s, x)) && Elems([x] + Without(s, x)) == Elems(s)
  {
    WithoutFacts(s, x);
    ElemsCons(x, Without(s, x));
    NoDupCons(x, Without(s, x));
  }

  lemma BelowElems(s: seq<nat>, n: nat)
    requires forall x :: x in Elems(s) ==> x < n
    ensures Below(s, n)
  {
    forall j | 0 <= j < |s|
      ensures s[j] < n
    {
      assert s[j] in Elems(s);
    }
  }

  // ----- the pool

  ghost predicate Below(s: seq<nat>, n: nat) {
    forall j :: 0 <= j < |s| ==> s[j] < n
  }

  ghost predicate InRange(p: Pool) {
    && Below(p.used, |p.slots|)
    && Below(p.free, |p.slots|)
    && (forall k :: k in p.table ==> p.table[k] < |p.slots|)
  }

  /** The free and the used list partition the slots. */
  ghost predicate Lists(n: nat, free: seq<nat>, used: seq<nat>) {
    && NoDup(free) && NoDup(used)
    && Elems(free) !! Elems(used)
    && Elems(free) + Elems(used) == Upto(n)
  }

  /** The index maps a page to a slot exactly when that used slot holds the page. */
  ghost predicate Index(p: Pool, used: set<nat>) {
    && (forall i :: i in used ==> i < |p.slots| && p.slots[i].key in p.table && p.table[p.slots[i].key] == i)
    && (forall i :: i in used ==> p.slots[i].pin >= 0)
    && (forall k :: k in p.table ==> p.table[k] in used && p.slots[p.table[k]].key == k)
  }

  ghost predicate Valid(p: Pool) {
    InRange(p) && Lists(|p.slots|, p.free, p.used) && Index(p, Elems(p.used))
  }

  /** What a reader of page `k` sees: the cached copy if there is one, the disk otherwise. */
  function Seen(p: Pool, k: Key): Option<Page> {
    if k in p.table && p.table[k] < |p.slots| then Some(p.slots[p.table[k]].data)
    else if k in p.disk then Some(p.disk[k])
    else None
  }

  function Touch(p: Pool, i: nat): Pool {
    p.(used := [i] + Without(p.used, i))
  }

  /** The last unpinned slot of the used list. */
  function Victim(slots: seq<Slot>, used: seq<nat>): Option<nat>
    requires Below(used, |slots|)
  {
    if used == [] then None
    else
      var i := used[|used| - 1];
      if slots[i].pin == 0 then Some(i) else Victim(slots, used[..|used| - 1])
  }

  function SaveSlot(p: Pool, i: nat): map<Key, Page>
    requires i < |p.slots|
  {
    if p.slots[i].dirty then p.disk[p.slots[i].key := p.slots[i].data] else p.disk
  }

  /** `internal_alloc`: the head of the free list, or the victim, saved and unmapped. */
  function Grab(p: Pool): Option<(Pool, nat)>
    requires InRange(p)
  {
    if p.free != [] then
      Some((p.(free := p.free[1..], used := [p.free[0]] + p.used), p.free[0]))
    else
      match Victim(p.slots, p.used)
      case None => None
      case Some(i) =>
        if i >= |p.slots| then None
        else Some((Touch(p, i).(disk := SaveSlot(p, i), table := p.table - {p.slots[i].key}), i))
  }

  function Install(p: Pool, i: nat, k: Key, data: Page): Pool
    requires i < |p.slots|
  {
    p.(slots := p.slots[i := Slot(false, k, data, 1)], table := p.table[k := i])
  }

  lemma {:induction false} VictimInUse(slots: seq<Slot>, used: seq<nat>)
    requires Below(used, |slots|)
    ensures Victim(slots, used).None? ==> forall i :: i in Elems(used) ==> slots[i].pin != 0
    ensures Victim(slots, used).Some? ==> Victim(slots, used).value in Elems(used) && slots[Victim(slots, used).value].pin == 0
  {
    if used != [] {
      var rest, i := used[..|used| - 1], used[|used| - 1];
      VictimInUse(slots, rest);
      assert used == rest + [i];
      assert Elems(used) == Elems(rest) + {i};
    }
  }

  lemma GrabInRange(p: Pool)
    requires InRange(p)
    ensures Grab(p).Some? ==> Grab(p).value.1 < |p.slots| && Grab(p).value.0.slots == p.slots
  {
    if p.free != [] {
      assert p.free[0] < |p.slots|;
    }
  }

  function GetPage(p: Pool, k: Key, multiplePins: bool): (Pool, Result)
    requires InRange(p)
  {
    if k in p.table then
      var i := p.table[k];
      if !multiplePins && p.slots[i].pin > 0 then (p, Err(StillPinned))
      else (Touch(p.(slots := p.slots[i := p.slots[i].(pin := p.slots[i].pin + 1)]), i), Ok(i))
    else
      match Grab(p)
      case None => (p, Err(NoBuffer))
      case Some((q, i)) =>
        GrabInRange(p);
        if k !in q.disk then (q, Err(ShortRead))
        else (Install(q, i, k, q.disk[k]), Ok(i))
  }

  function AllocatePage(p: Pool, k: Key): (Pool, Result)
    requires InRange(p)
  {
    if k in p.table then (p, Err(AlreadyResident))
    else
      match Grab(p)
      case None => (p, Err(NoBuffer))
      case Some((q, i)) =>
        GrabInRange(p);
        (Install(q, i, k, q.slots[i].data), Ok(i))
  }

  function UnpinPage(p: Pool, k: Key): (Pool, Result)
    requires InRange(p)
  {
    if k !in p.table then (p, Err(NotResident))
    else
      var i := p.table[k];
      if p.slots[i].pin == 0 then (p, Err(NotPinned))
      else
        var q := p.(slots := p.slots[i := p.slots[i].(pin := p.slots[i].pin - 1)]);
        (if p.slots[i].pin == 1 then Touch(q, i) else q, Ok(i))
  }

  function MarkDirty(p: Pool, k: Key): (Pool, Result)
    requires InRange(p)
  {
    if k !in p.table then (p, Err(NotResident))
    else
      var i := p.table[k];
      (Touch(p.(slots := p.slots[i := p.slots[i].(dirty := true)]), i), Ok(i))
  }

  /** The holder of a pinned page stores through the pointer it got. */
  function WritePage(p: Pool, k: Key, data: Page): (Pool, Result)
    requires InRange(p)
  {
    if k !in p.table then (p, Err(NotResident))
    else if p.slots[p.table[k]].pin == 0 then (p, Err(NotPinned))
    else (p.(slots := p.slots[p.table[k] := p.slots[p.table[k]].(data := data)]), Ok(p.table[k]))
  }

  /** Save slot `i`, take it out of the index and off the used list, and free it. */
  function ReleaseSlot(p: Pool, i: nat): Pool
    requires i < |p.slots|
  {
    Pool(p.slots[i := p.slots[i].(dirty := false)], [i] + p.free, Without(p.used, i), p.table - {p.slots[i].key}, SaveSlot(p, i))
  }

  /** `flush_pages` from slot `i` on.  With `inUse` only slots on the used list are considered; as
      coded, every slot with the right descriptor is, also a freed one that still carries it. */
  function FlushFrom(p: Pool, fd: int, i: nat, inUse: bool): (Pool, bool)
    decreases |p.slots| - i
  {
    if i >= |p.slots| then (p, true)
    else if p.slots[i].key.fd == fd && (inUse ==> i in p.used) then
      if p.slots[i].pin > 0 then (p, false)
      else FlushFrom(ReleaseSlot(p, i), fd, i + 1, inUse)
    else FlushFrom(p, fd, i + 1, inUse)
  }

  function FlushPages(p: Pool, fd: int): (Pool, bool) {
    FlushFrom(p, fd, 0, true)
  }

  const ALL_PAGES := -1

  predicate Forced(s: Slot, fd: int, page: int) {
    s.key.fd == fd && (s.key.page == page || page == ALL_PAGES) && s.dirty
  }

  /** `force_page` over the used list from position `n` on: save what is dirty, keep it cached. */
  function ForceFrom(p: Pool, fd: int, page: int, n: nat): Pool
    requires InRange(p)
    decreases |p.used| - n
  {
    if n >= |p.used| then p
    else
      var i := p.used[n];
      if Forced(p.slots[i], fd, page) then
        var q := p.(slots := p.slots[i := p.slots[i].(dirty := false)], disk := SaveSlot(p, i));
        ForceFrom(q, fd, page, n + 1)
      else ForceFrom(p, fd, page, n + 1)
  }

  function ForcePage(p: Pool, fd: int, page: int): Pool
    requires InRange(p)
  {
    ForceFrom(p, fd, page, 0)
  }

  // ----- every operation keeps the structure

  lemma TouchValid(p: Pool, i: nat)
    requires Valid(p) && i in Elems(p.used)
    ensures Valid(Touch(p, i)) && Elems(Touch(p, i).used) == Elems(p.used)
  {
    MoveToFront(p.used, i);
    BelowElems([i] + Without(p.used, i), |p.slots|);
  }

  lemma SlotChangeValid(p: Pool, i: nat, s: Slot)
    requires Valid(p) && i < |p.slots| && s.key == p.slots[i].key && s.pin >= 0
    ensures Valid(p.(slots := p.slots[i := s]))
  {
  }

  /** The slot that `Grab` hands out is in use and belongs to no page yet. */
  ghost predicate Grabbed(p: Pool, i: nat) {
    InRange(p) && Lists(|p.slots|, p.free, p.used) && i in Elems(p.used) && i < |p.slots| && Index(p, Elems(p.used) - {i})
  }

  lemma GrabValid(p: Pool)
    requires Valid(p)
    ensures Grab(p).None? <==> p.free == [] && forall i :: i in Elems(p.used) ==> p.slots[i].pin > 0
    ensures Grab(p).Some? ==> Grabbed(Grab(p).value.0, Grab(p).value.1)
    ensures Grab(p).Some? && p.free == [] ==> Grab(p).value.1 in Elems(p.used) && p.slots[Grab(p).value.1].pin == 0
    ensures Grab(p).Some? && p.free != [] ==> Grab(p).value.1 == p.free[0] && Grab(p).value.0.disk == p.disk
  {
    VictimInUse(p.slots, p.used);
    if p.free != [] {
      GrabFreeValid(p);
    } else if Victim(p.slots, p.used).Some? {
      GrabVictimValid(p, Victim(p.slots, p.used).value);
    }
  }

  lemma GrabVictimValid(p: Pool, i: nat)
    requires Valid(p) && i in Elems(p.used)
    ensures i < |p.slots| && Grabbed(Touch(p, i).(disk := SaveSlot(p, i), table := p.table - {p.slots[i].key}), i)
  {
    TouchValid(p, i);
    GrabVictimIndex(p, i);
    hide Index, Lists, Elems, Without;
  }

  lemma GrabVictimIndex(p: Pool, i: nat)
    requires i in Elems(p.used) && Index(p, Elems(p.used))
    ensures i < |p.slots| && Index(p.(table := p.table - {p.slots[i].key}), Elems(p.used) - {i})
    ensures Index(Touch(p, i).(disk := SaveSlot(p, i), table := p.table - {p.slots[i].key}), Elems(p.used) - {i})
  {
    hide Elems, Without;
  }

  /** The pool after slot `i` has been taken away from its page. */
  ghost function Evicted(p: Pool, i: nat): Pool
    requires i < |p.slots|
  {
    Touch(p, i).(disk := SaveSlot(p, i), table := p.table - {p.slots[i].key})
  }

  lemma GrabEvicts(p: Pool)
    requires Valid(p) && p.free == [] && Grab(p).Some?
    ensures var i := Grab(p).value.1;
      && i < |p.slots| && i in Elems(p.used) && p.slots[i].pin == 0 && Grab(p) == Some((Evicted(p, i), i))
  {
    GrabValid(p);
    hide Index, Lists, Elems, Without;
  }

  lemma FreeNotUsed(p: Pool)
    requires Valid(p) && p.free != []
    ensures p.free[0] !in Elems(p.used)
  {
    assert p.free[0] in Elems(p.free);
  }

  lemma GrabFreeValid(p: Pool)
    requires Valid(p) && p.free != []
    ensures Grabbed(Grab(p).value.0, Grab(p).value.1)
  {
    var i, rest := p.free[0], p.free[1..];
    assert p.free == [i] + rest && i !in rest;
    ElemsCons(i, rest);
    ElemsCons(i, p.used);
    assert i in Elems(p.free);
    NoDupCons(i, p.used);
    BelowElems([i] + p.used, |p.slots|);
    assert Elems([i] + p.used) - {i} == Elems(p.used);
    assert Elems(rest) + Elems([i] + p.used) == Elems(p.free) + Elems(p.used);
  }

  lemma InstallValid(p: Pool, i: nat, k: Key, data: Page)
    requires Grabbed(p, i) && k !in p.table
    ensures Valid(Install(p, i, k, data))
  {
  }

  /** The slot of a cached page. */
  lemma Resident(p: Pool, k: Key)
    requires Valid(p) && k in p.table
    ensures var i := p.table[k];
      i < |p.slots| && i in Elems(p.used) && p.slots[i].key == k && p.slots[i].pin >= 0
  {
    hide Lists, Elems;
  }

  /** A cached page whose slot changes in all but its identity and moves to the front. */
  lemma TouchedValid(p: Pool, k: Key, s: Slot)
    requires Valid(p) && k in p.table && p.table[k] < |p.slots| && s.key == k && s.pin >= 0
    ensures Valid(Touch(p.(slots := p.slots[p.table[k] := s]), p.table[k]))
  {
    Resident(p, k);
    SlotChangeValid(p, p.table[k], s);
    hide Valid;
    TouchValid(p.(slots := p.slots[p.table[k] := s]), p.table[k]);
  }

  /** A slot that belongs to no page yet breaks the structure. */
  lemma GrabbedNotValid(p: Pool, i: nat)
    requires Grabbed(p, i)
    ensures !Valid(p)
  {
    hide Lists, Elems;
    assert forall k :: k in p.table ==> p.table[k] != i;
  }

  /** `get_page` keeps the structure unless it evicts for a page that is not there to be read. */
  lemma GetValid(p: Pool, k: Key, multiplePins: bool)
    requires Valid(p)
    ensures Valid(GetPage(p, k, multiplePins).0) <==> GetPage(p, k, multiplePins).1 != Err(ShortRead)
  {
    if k in p.table {
      GetHitValid(p, k, multiplePins);
    } else {
      GetMissValid(p, k, multiplePins);
    }
  }

  lemma GetHitValid(p: Pool, k: Key, multiplePins: bool)
    requires Valid(p) && k in p.table
    ensures Valid(GetPage(p, k, multiplePins).0) && GetPage(p, k, multiplePins).1 != Err(ShortRead)
  {
    hide Lists, Index, Below, Touch;
    Resident(p, k);
    TouchedValid(p, k, p.slots[p.table[k]].(pin := p.slots[p.table[k]].pin + 1));
  }

  lemma GetMissValid(p: Pool, k: Key, multiplePins: bool)
    requires Valid(p) && k !in p.table
    ensures Valid(GetPage(p, k, multiplePins).0) <==> GetPage(p, k, multiplePins).1 != Err(ShortRead)
  {
    hide Lists, Index, Below, Grab, Install, Grabbed;
    GrabValid(p);
    GrabTable(p);
    if Grab(p).Some? {
      var (q, i) := Grab(p).value;
      if k in q.disk {
        InstallValid(q, i, k, q.disk[k]);
      } else {
        GrabbedNotValid(q, i);
      }
    }
  }

  /** Taking a slot adds no page to the index. */
  lemma GrabTable(p: Pool)
    requires InRange(p)
    ensures Grab(p).Some? ==> Grab(p).value.0.table.Keys <= p.table.Keys && Grab(p).value.1 < |Grab(p).value.0.slots|
  {
    GrabInRange(p);
  }

  lemma AllocateValid(p: Pool, k: Key)
    requires Valid(p)
    ensures Valid(AllocatePage(p, k).0)
  {
    hide Lists, Index, Below, Grab, Install, Grabbed;
    GrabValid(p);
    GrabTable(p);
    if k !in p.table && Grab(p).Some? {
      var (q, i) := Grab(p).value;
      InstallValid(q, i, k, q.slots[i].data);
    }
  }

  lemma UnpinValid(p: Pool, k: Key)
    requires Valid(p)
    ensures Valid(UnpinPage(p, k).0)
  {
    hide Lists, Index, Below, Touch;
    if k in p.table {
      Resident(p, k);
      var i := p.table[k];
      if p.slots[i].pin > 0 {
        TouchedValid(p, k, p.slots[i].(pin := p.slots[i].pin - 1));
        SlotChangeValid(p, i, p.slots[i].(pin := p.slots[i].pin - 1));
      }
    }
  }

  lemma MarkDirtyValid(p: Pool, k: Key)
    requires Valid(p)
    ensures Valid(MarkDirty(p, k).0)
  {
    hide Lists, Index, Below, Touch;
    if k in p.table {
      Resident(p, k);
      TouchedValid(p, k, p.slots[p.table[k]].(dirty := true));
    }
  }

  lemma WriteValid(p: Pool, k: Key, data: Page)
    requires Valid(p)
    ensures Valid(WritePage(p, k, data).0)
  {
    hide Lists, Index, Below;
    if k in p.table {
      Resident(p, k);
      SlotChangeValid(p, p.table[k], p.slots[p.table[k]].(data := data));
    }
  }

  lemma ReleaseValid(p: Pool, i: nat)
    requires Valid(p) && i in Elems(p.used)
    ensures Valid(ReleaseSlot(p, i))
    ensures Elems(ReleaseSlot(p, i).used) == Elems(p.used) - {i} && Elems(ReleaseSlot(p, i).free) == Elems(p.free) + {i}
  {
    ReleaseLists(|p.slots|, p.free, p.used, i);
    ReleaseIndex(p, i);
    hide Lists, Index, Elems, Without, SaveSlot;
  }

  lemma ReleaseLists(n: nat, free: seq<nat>, used: seq<nat>, i: nat)
    requires Lists(n, free, used) && Below(used, n) && Below(free, n) && i in Elems(used)
    ensures Lists(n, [i] + free, Without(used, i)) && Below(Without(used, i), n) && Below([i] + free, n)
    ensures Elems(Without(used, i)) == Elems(used) - {i} && Elems([i] + free) == Elems(free) + {i}
  {
    WithoutFacts(used, i);
    ElemsCons(i, free);
    NoDupCons(i, free);
    BelowElems(Without(used, i), n);
    BelowElems([i] + free, n);
    assert Elems([i] + free) + Elems(Without(used, i)) == Elems(free) + Elems(used);
  }

  lemma ReleaseIndex(p: Pool, i: nat)
    requires i in Elems(p.used) && Index(p, Elems(p.used))
    ensures i < |p.slots| && Index(ReleaseSlot(p, i), Elems(p.used) - {i})
  {
  }

  lemma {:induction false} FlushValid(p: Pool, fd: int, i: nat)
    requires Valid(p)
    ensures Valid(FlushFrom(p, fd, i, true).0)
    decreases |p.slots| - i
  {
    hide Valid;
    if i < |p.slots| {
      if p.slots[i].key.fd == fd && i in p.used {
        if p.slots[i].pin <= 0 {
          assert i in Elems(p.used);
          ReleaseValid(p, i);
          FlushValid(ReleaseSlot(p, i), fd, i + 1);
        }
      } else {
        FlushValid(p, fd, i + 1);
      }
    }
  }

  lemma {:induction false} ForceValid(p: Pool, fd: int, page: int, n: nat)
    requires Valid(p)
    ensures Valid(ForceFrom(p, fd, page, n))
    decreases |p.used| - n
  {
    hide Lists;
    if n < |p.used| {
      var i := p.used[n];
      if Forced(p.slots[i], fd, page) {
        SlotChangeValid(p, i, p.slots[i].(dirty := false));
        ForceValid(p.(slots := p.slots[i := p.slots[i].(dirty := false)], disk := SaveSlot(p, i)), fd, page, n + 1);
      } else {
        ForceValid(p, fd, page, n + 1);
      }
    }
  }

  // ----- flush as coded

  /** A freed slot that still carries the descriptor is freed once more. */
  lemma {:induction false} CodedFlushSpoilt(p: Pool, fd: int, i: nat)
    requires !NoDup(p.free)
    ensures !NoDup(FlushFrom(p, fd, i, false).0.free)
    decreases |p.slots| - i
  {
    if i < |p.slots| {
      if p.slots[i].key.fd == fd {
        if p.slots[i].pin <= 0 {
          var a, b :| 0 <= a < b < |p.free| && p.free[a] == p.free[b];
          var q := ReleaseSlot(p, i);
          assert q.free[a + 1] == q.free[b + 1];
          CodedFlushSpoilt(q, fd, i + 1);
        }
      } else {
        CodedFlushSpoilt(p, fd, i + 1);
      }
    }
  }

  /** From slot `i` on, a free slot still carries the descriptor and no pinned slot of the file stops the
      loop before it. */
  ghost predicate FreedCarries(p: Pool, fd: int, i: nat) {
    exists j :: i <= j < |p.slots| && FreedAt(p, fd, i, j)
  }

  ghost predicate FreedAt(p: Pool, fd: int, i: nat, j: nat)
    requires j < |p.slots|
  {
    && j in Elems(p.free) && p.slots[j].key.fd == fd
    && forall m :: i <= m <= j && p.slots[m].key.fd == fd ==> p.slots[m].pin <= 0
  }

  /** Past a slot that does not stop the loop, and past one that is released. */
  lemma FreedNext(p: Pool, q: Pool, fd: int, i: nat)
    requires i < |p.slots| == |q.slots| && (i !in Elems(p.free) || p.slots[i].key.fd != fd)
    requires p.slots[i].key.fd == fd ==> p.slots[i].pin <= 0
    requires forall j :: 0 <= j < |p.slots| ==> q.slots[j].key == p.slots[j].key && q.slots[j].pin == p.slots[j].pin
    requires forall j :: i < j ==> (j in Elems(q.free) <==> j in Elems(p.free))
    ensures FreedCarries(q, fd, i + 1) <==> FreedCarries(p, fd, i)
  {
    if FreedCarries(p, fd, i) {
      var j :| i <= j < |p.slots| && FreedAt(p, fd, i, j);
      assert FreedAt(q, fd, i + 1, j);
    }
    if FreedCarries(q, fd, i + 1) {
      var j :| i + 1 <= j < |q.slots| && FreedAt(q, fd, i + 1, j);
      assert FreedAt(p, fd, i, j);
    }
  }

  lemma FreeOrUsed(p: Pool, i: nat)
    requires Valid(p) && i < |p.slots|
    ensures i in Elems(p.free) || i in Elems(p.used)
  {
    assert i in Upto(|p.slots|);
  }

  /** Past a slot in use that is released. */
  lemma ReleaseNext(p: Pool, fd: int, i: nat)
    requires Valid(p) && i < |p.slots| && i !in Elems(p.free) && p.slots[i].key.fd == fd && p.slots[i].pin <= 0
    ensures Valid(ReleaseSlot(p, i))
    ensures FreedCarries(ReleaseSlot(p, i), fd, i + 1) <==> FreedCarries(p, fd, i)
  {
    FreeOrUsed(p, i);
    ReleaseValid(p, i);
    hide Valid, Elems, Without, SaveSlot;
    FreedNext(p, ReleaseSlot(p, i), fd, i);
  }

  /** A free slot of the file that the loop reaches is freed once more. */
  lemma FreedTwice(p: Pool, fd: int, i: nat)
    requires i < |p.slots| && i in Elems(p.free) && p.slots[i].key.fd == fd && p.slots[i].pin <= 0
    ensures !Valid(FlushFrom(ReleaseSlot(p, i), fd, i + 1, false).0) && FreedCarries(p, fd, i)
  {
    assert FreedAt(p, fd, i, i);
    ReleaseTwice(p, i);
    CodedFlushSpoilt(ReleaseSlot(p, i), fd, i + 1);
    hide FlushFrom, Index, ReleaseSlot;
  }

  lemma StopsAt(p: Pool, fd: int, i: nat)
    requires i < |p.slots| && p.slots[i].key.fd == fd && p.slots[i].pin > 0
    ensures !FreedCarries(p, fd, i)
  {
  }

  lemma {:induction false} CodedFlushFrom(p: Pool, fd: int, i: nat)
    requires Valid(p)
    ensures Valid(FlushFrom(p, fd, i, false).0) <==> !FreedCarries(p, fd, i)
    decreases |p.slots| - i
  {
    hide Valid, Elems, FreedAt;
    if i < |p.slots| {
      if p.slots[i].key.fd != fd {
        FreedNext(p, p, fd, i);
        CodedFlushFrom(p, fd, i + 1);
      } else if p.slots[i].pin > 0 {
        StopsAt(p, fd, i);
      } else if i in Elems(p.free) {
        FreedTwice(p, fd, i);
      } else {
        ReleaseNext(p, fd, i);
        CodedFlushFrom(ReleaseSlot(p, i), fd, i + 1);
      }
    }
  }

  lemma ReleaseTwice(p: Pool, i: nat)
    requires i < |p.slots| && i in Elems(p.free)
    ensures !NoDup(ReleaseSlot(p, i).free)
  {
    var b :| 0 <= b < |p.free| && p.free[b] == i;
    assert ReleaseSlot(p, i).free[0] == ReleaseSlot(p, i).free[b + 1];
  }

  /** As coded, a flush keeps the structure if and only if no free slot that still carries the file's
      descriptor comes before the file's first pinned slot. */
  lemma CodedFlushValidIff(p: Pool, fd: int)
    requires Valid(p)
    ensures Valid(FlushFrom(p, fd, 0, false).0) <==> !FreedCarries(p, fd, 0)
  {
    CodedFlushFrom(p, fd, 0);
  }
}
