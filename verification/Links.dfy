/** The `next_free` links as seen through the cache.  The free list of a file is threaded through the
    headers of its pages, and those pages come and go in the cache; here is what each cache operation
    does to the links, to the pins and to what is resident.
 */
module Links {
  import opened Basics
  import opened Pool

  /** The link of page `k`, from the cache or the disk. */
  function Link(p: Pool, k: Key): Option<int> {
    match Seen(p, k)
    case None => None
    case Some(data) => Some(data.next)
  }

  /** Clean cached pages are on disk with the same link, so evicting them loses no link. */
  ghost predicate LinkSaved(p: Pool, i: nat)
    requires i < |p.slots|
  {
    !p.slots[i].dirty ==> p.slots[i].key in p.disk && p.disk[p.slots[i].key].next == p.slots[i].data.next
  }

  ghost predicate LinksSaved(p: Pool, used: set<nat>) {
    forall i :: i in used && i < |p.slots| ==> LinkSaved(p, i)
  }

  ghost predicate PoolOk(p: Pool) {
    Valid(p) && LinksSaved(p, Elems(p.used))
  }

  ghost predicate SameLinks(p: Pool, q: Pool) {
    forall k :: Link(q, k) == Link(p, k)
  }

  function Pins(p: Pool, k: Key): int {
    if k in p.table && p.table[k] < |p.slots| then p.slots[p.table[k]].pin else 0
  }

  /** All pins but those of page `k` are as before. */
  ghost predicate OtherPins(p: Pool, q: Pool, k: Key) {
    forall k' :: k' != k ==> Pins(q, k') == Pins(p, k')
  }

  /** Some slot is free or could be evicted. */
  ghost predicate Evictable(p: Pool) {
    p.free != [] || exists i :: i in Elems(p.used) && i < |p.slots| && p.slots[i].pin == 0
  }

  lemma GrabLinks(p: Pool)
    requires PoolOk(p) && Grab(p).Some?
    ensures var (q, i) := Grab(p).value;
      && Grabbed(q, i) && SameLinks(p, q) && LinksSaved(q, Elems(q.used) - {i})
      && q.table.Keys <= p.table.Keys
      && (forall k :: Pins(q, k) == Pins(p, k))
  {
    GrabValid(p);
    GrabTable(p);
    if p.free != [] {
      GrabFreeLinks(p);
    } else {
      EvictLinks(p);
    }
    hide Grab, Grabbed, LinksSaved, Link, Pins, Valid;
  }

  lemma GrabFreeLinks(p: Pool)
    requires PoolOk(p) && p.free != []
    ensures var (q, i) := Grab(p).value;
      SameLinks(p, q) && LinksSaved(q, Elems(q.used) - {i}) && (forall k :: Pins(q, k) == Pins(p, k))
  {
    FreeNotUsed(p);
    hide Lists, Index;
    var (q, i) := Grab(p).value;
    ElemsCons(i, p.used);
    assert Elems(q.used) - {i} == Elems(p.used);
    forall j | j in Elems(p.used) && j < |q.slots|
      ensures LinkSaved(q, j)
    {
      assert LinkSaved(p, j);
    }
  }

  lemma EvictLinks(p: Pool)
    requires PoolOk(p) && p.free == [] && Grab(p).Some?
    ensures var (q, i) := Grab(p).value;
      && SameLinks(p, q) && LinksSaved(q, Elems(q.used) - {i})
      && (forall k :: Pins(q, k) == Pins(p, k))
  {
    GrabEvicts(p);
    hide Grab, Lists, Elems, Link, Pins, Without;
    var i := Grab(p).value.1;
    TouchValid(p, i);
    Unmapped(p, Evicted(p, i), i);
  }

  /** Slot `i` is saved and taken out of the index. */
  lemma Unmapped(p: Pool, q: Pool, i: nat)
    requires Index(p, Elems(p.used)) && LinksSaved(p, Elems(p.used)) && i in Elems(p.used) && i < |p.slots| == |q.slots| && p.slots[i].pin <= 0
    requires q.disk == SaveSlot(p, i) && q.table == p.table - {p.slots[i].key}
    requires forall j :: 0 <= j < |p.slots| && j != i ==> q.slots[j] == p.slots[j]
    ensures SameLinks(p, q) && LinksSaved(q, Elems(p.used) - {i}) && forall k :: Pins(q, k) == Pins(p, k)
  {
    hide Elems;
    assert LinkSaved(p, i);
    forall j | j in Elems(p.used) - {i} && j < |q.slots|
      ensures LinkSaved(q, j)
    {
      assert LinkSaved(p, j) && p.slots[j].key != p.slots[i].key;
    }
    forall k
      ensures Link(q, k) == Link(p, k) && Pins(q, k) == Pins(p, k)
    {
      UnmappedAt(p, q, i, k);
    }
  }

  lemma UnmappedAt(p: Pool, q: Pool, i: nat, k: Key)
    requires Index(p, Elems(p.used)) && i < |p.slots| == |q.slots| && LinkSaved(p, i) && i in Elems(p.used) && p.slots[i].pin <= 0
    requires q.disk == SaveSlot(p, i) && q.table == p.table - {p.slots[i].key}
    requires forall j :: 0 <= j < |p.slots| && j != i ==> q.slots[j] == p.slots[j]
    ensures Link(q, k) == Link(p, k) && Pins(q, k) == Pins(p, k)
  {
    hide Elems;
    var s := p.slots[i];
    assert p.table[s.key] == i && s.pin == 0;
    if k in p.table && k != s.key {
      assert p.table[k] != i;
    }
  }

  lemma GrabSomeIff(p: Pool)
    requires Valid(p)
    ensures Grab(p).Some? <==> Evictable(p)
  {
    hide Lists;
    GrabValid(p);
  }

  lemma SlotChangeLinks(p: Pool, i: nat, s: Slot)
    requires PoolOk(p) && i in Elems(p.used) && i < |p.slots| && s.key == p.slots[i].key && s.pin >= 0
    requires s.dirty || (s.dirty == p.slots[i].dirty && s.data.next == p.slots[i].data.next)
    ensures var q := p.(slots := p.slots[i := s]);
      && PoolOk(q) && OtherPins(p, q, s.key) && Pins(q, s.key) == s.pin
      && Link(q, s.key) == Some(s.data.next) && (forall k :: k != s.key ==> Link(q, k) == Link(p, k))
  {
    hide Lists;
    SlotChangeValid(p, i, s);
    var q := p.(slots := p.slots[i := s]);
    forall j | j in Elems(q.used) && j < |q.slots|
      ensures LinkSaved(q, j)
    {
      assert LinkSaved(p, j);
    }
  }

  lemma TouchLinks(p: Pool, i: nat)
    requires PoolOk(p) && i in Elems(p.used)
    ensures var q := Touch(p, i);
      && PoolOk(q) && SameLinks(p, q) && (forall k :: Pins(q, k) == Pins(p, k))
      && Elems(q.used) == Elems(p.used)
  {
    hide Lists;
    TouchValid(p, i);
    var q := Touch(p, i);
    forall j | j in Elems(q.used) && j < |q.slots|
      ensures LinkSaved(q, j)
    {
      assert LinkSaved(p, j);
    }
  }

  /** Put a page into the slot just taken; it is dirty or on disk with the same link. */
  lemma InstallLinks(q: Pool, i: nat, s: Slot)
    requires Grabbed(q, i) && s.key !in q.table && LinksSaved(q, Elems(q.used) - {i}) && s.pin >= 0
    requires s.dirty || (s.key in q.disk && q.disk[s.key].next == s.data.next)
    ensures var z := q.(slots := q.slots[i := s], table := q.table[s.key := i]);
      && PoolOk(z) && OtherPins(q, z, s.key) && Pins(z, s.key) == s.pin
      && Link(z, s.key) == Some(s.data.next) && (forall k :: k != s.key ==> Link(z, k) == Link(q, k))
  {
    hide Lists;
    var z := q.(slots := q.slots[i := s], table := q.table[s.key := i]);
    assert Index(z, Elems(z.used));
    forall j | j in Elems(z.used) && j < |z.slots|
      ensures LinkSaved(z, j)
    {
      if j != i {
        assert LinkSaved(q, j);
      }
    }
    forall k | k != s.key
      ensures Link(z, k) == Link(q, k) && Pins(z, k) == Pins(q, k)
    {
    }
  }

  // ----- the operations

  /** What getting page `k` does when `k` is there to be read. */
  lemma GetLinks(p: Pool, k: Key, multiplePins: bool)
    requires PoolOk(p) && Link(p, k).Some?
    ensures var (q, r) := GetPage(p, k, multiplePins);
      && PoolOk(q) && SameLinks(p, q) && OtherPins(p, q, k) && q.table.Keys <= p.table.Keys + {k}
      && match r
         case Ok(i) =>
           && k in q.table && q.table[k] == i && i < |q.slots| && Pins(q, k) == Pins(p, k) + 1 && Pins(q, k) > 0
           && (multiplePins || Pins(p, k) == 0) && (Evictable(p) && Pins(p, k) > 0 ==> Evictable(q))
           && (k in p.table || Evictable(p))
         case Err(NoBuffer) => q == p && k !in p.table && !Evictable(p)
         case Err(StillPinned) => q == p && !multiplePins && Pins(p, k) > 0
         case Err(_) => false
  {
    if k !in p.table {
      GetMissLinks(p, k, multiplePins);
    } else if multiplePins || Pins(p, k) <= 0 {
      GetHitLinks(p, k, multiplePins);
    }
  }

  lemma ResidentSlot(p: Pool, k: Key)
    requires PoolOk(p) && k in p.table
    ensures var i := p.table[k];
      && i < |p.slots| && i in Elems(p.used) && p.slots[i].key == k && p.slots[i].pin >= 0
      && Pins(p, k) == p.slots[i].pin && Link(p, k) == Some(p.slots[i].data.next)
  {
  }

  /** Change the slot of a resident page and move it to the front. */
  lemma SlotTouchLinks(p: Pool, k: Key, s: Slot)
    requires PoolOk(p) && k in p.table && s.key == k && s.pin >= 0
    requires p.table[k] < |p.slots|
    requires s.dirty || (s.dirty == p.slots[p.table[k]].dirty && s.data.next == p.slots[p.table[k]].data.next)
    ensures var i := p.table[k];
      var q := Touch(p.(slots := p.slots[i := s]), i);
      && PoolOk(q) && OtherPins(p, q, k) && Pins(q, k) == s.pin
      && Link(q, k) == Some(s.data.next) && (forall k' :: k' != k ==> Link(q, k') == Link(p, k'))
      && (Evictable(p) && (s.pin == 0 || p.slots[i].pin != 0) ==> Evictable(q))
  {
    hide Lists, Index, LinksSaved;
    ResidentSlot(p, k);
    var i := p.table[k];
    SlotChangeLinks(p, i, s);
    TouchLinks(p.(slots := p.slots[i := s]), i);
    if Evictable(p) && (s.pin == 0 || p.slots[i].pin != 0) {
      StillEvictable(p, k, s);
    }
  }

  lemma StillEvictable(p: Pool, k: Key, s: Slot)
    requires PoolOk(p) && k in p.table && p.table[k] < |p.slots| && Evictable(p)
    requires s.pin == 0 || p.slots[p.table[k]].pin != 0
    ensures Evictable(Touch(p.(slots := p.slots[p.table[k] := s]), p.table[k]))
  {
    hide Lists, LinksSaved;
    var i := p.table[k];
    var q := Touch(p.(slots := p.slots[i := s]), i);
    TouchValid(p, i);
    if p.free == [] {
      var j :| j in Elems(p.used) && j < |p.slots| && p.slots[j].pin == 0;
      assert j in Elems(q.used);
      assert q.slots[if j == i then i else j].pin == 0;
    }
  }

  lemma GetHitLinks(p: Pool, k: Key, multiplePins: bool)
    requires PoolOk(p) && k in p.table && (multiplePins || Pins(p, k) <= 0)
    ensures var (q, r) := GetPage(p, k, multiplePins);
      && PoolOk(q) && SameLinks(p, q) && OtherPins(p, q, k) && q.table == p.table
      && r == Ok(p.table[k]) && p.table[k] < |q.slots| && Pins(q, k) == Pins(p, k) + 1 && Pins(p, k) >= 0
      && (Evictable(p) && Pins(p, k) > 0 ==> Evictable(q))
  {
    hide Lists, Index, LinksSaved;
    ResidentSlot(p, k);
    var i := p.table[k];
    SlotTouchLinks(p, k, p.slots[i].(pin := p.slots[i].pin + 1));
  }

  lemma GetMissLinks(p: Pool, k: Key, multiplePins: bool)
    requires PoolOk(p) && Link(p, k).Some? && k !in p.table
    ensures var (q, r) := GetPage(p, k, multiplePins);
      && PoolOk(q) && SameLinks(p, q) && OtherPins(p, q, k) && q.table.Keys <= p.table.Keys + {k}
      && match r
         case Ok(i) => k in q.table && q.table[k] == i && i < |q.slots| && Pins(q, k) == 1 && Evictable(p)
         case Err(NoBuffer) => q == p && !Evictable(p)
         case Err(_) => false
  {
    hide Lists;
    GrabSomeIff(p);
    if Grab(p).Some? {
      GrabLinks(p);
      var (q, i) := Grab(p).value;
      assert Link(q, k) == Link(p, k);
      assert k !in q.table && k in q.disk;
      InstallLinks(q, i, Slot(false, k, q.disk[k], 1));
    }
  }

  /** `allocate_page` of a page that is not resident, and the store and mark that follow it. */
  lemma AllocateLinks(p: Pool, k: Key, data: Page)
    requires PoolOk(p) && k !in p.table
    ensures var (q, r) := AllocatePage(p, k);
      match r
      case Ok(i) =>
        && Evictable(p) && InRange(q) && k in q.table && q.table[k] == i && i < |q.slots| && q.slots[i].pin == 1
        && InRange(WritePage(q, k, data).0)
        && var z := MarkDirty(WritePage(q, k, data).0, k).0;
        && PoolOk(z) && OtherPins(p, z, k) && Pins(z, k) == 1 && z.table.Keys <= p.table.Keys + {k}
        && k in z.table && z.table[k] == i && i < |z.slots| && z.slots[i].data == data
        && Link(z, k) == Some(data.next) && (forall k' :: k' != k ==> Link(z, k') == Link(p, k'))
      case Err(e) => e == NoBuffer && q == p && !Evictable(p)
  {
    GrabSomeIff(p);
    if Grab(p).Some? {
      AllocatedLinks(p, k, data);
    }
    hide PoolOk, Grab, Evictable, Link, Pins, Install, MarkDirty, WritePage;
  }

  lemma AllocatedLinks(p: Pool, k: Key, data: Page)
    requires PoolOk(p) && k !in p.table && Grab(p).Some?
    ensures var (g, i) := Grab(p).value;
      i < |g.slots| &&
      var q := Install(g, i, k, g.slots[i].data);
      && InRange(q) && k in q.table && q.table[k] == i && i < |q.slots| && q.slots[i].pin == 1
      && InRange(WritePage(q, k, data).0)
      && var z := MarkDirty(WritePage(q, k, data).0, k).0;
      && PoolOk(z) && OtherPins(p, z, k) && Pins(z, k) == 1 && z.table.Keys <= p.table.Keys + {k}
      && k in z.table && z.table[k] == i && i < |z.slots| && z.slots[i].data == data
      && Link(z, k) == Some(data.next) && (forall k' :: k' != k ==> Link(z, k') == Link(p, k'))
  {
    GrabLinks(p);
    GrabTable(p);
    hide PoolOk, Grab, Link, Pins, MarkDirty, WritePage;
    var (g, i) := Grab(p).value;
    InstallValid(g, i, k, g.slots[i].data);
    WriteValid(Install(g, i, k, g.slots[i].data), k, data);
    MarkedInstall(g, i, k, data);
    hide Grabbed, Valid;
    InstalledLinks(g, i, k, data);
  }

  /** Write to and mark a page just installed: its slot is the new one, at the front. */
  lemma MarkedInstall(g: Pool, i: nat, k: Key, data: Page)
    requires i < |g.slots| && InRange(Install(g, i, k, g.slots[i].data)) && InRange(WritePage(Install(g, i, k, g.slots[i].data), k, data).0)
    ensures var q := Install(g, i, k, g.slots[i].data);
      MarkDirty(WritePage(q, k, data).0, k).0 ==
      Touch(g.(slots := g.slots[i := Slot(true, k, data, 1)], table := g.table[k := i]), i)
  {
    hide Touch;
    var a, b, c := Slot(false, k, g.slots[i].data, 1), Slot(false, k, data, 1), Slot(true, k, data, 1);
    assert g.slots[i := a][i := b][i := c] == g.slots[i := c];
    assert WritePage(Install(g, i, k, g.slots[i].data), k, data).0.slots == g.slots[i := a][i := b];
  }

  lemma InstalledLinks(g: Pool, i: nat, k: Key, data: Page)
    requires Grabbed(g, i) && k !in g.table && LinksSaved(g, Elems(g.used) - {i})
    ensures var z := Touch(g.(slots := g.slots[i := Slot(true, k, data, 1)], table := g.table[k := i]), i);
      && PoolOk(z) && OtherPins(g, z, k) && Pins(z, k) == 1
      && Link(z, k) == Some(data.next) && (forall k' :: k' != k ==> Link(z, k') == Link(g, k'))
  {
    hide Lists, Index, LinksSaved, Link, Pins;
    InstallLinks(g, i, Slot(true, k, data, 1));
    TouchLinks(g.(slots := g.slots[i := Slot(true, k, data, 1)], table := g.table[k := i]), i);
  }

  /** Storing into a pinned page and marking it dirty. */
  lemma StoreLinks(p: Pool, k: Key, data: Page)
    requires PoolOk(p) && k in p.table && Pins(p, k) > 0
    ensures var (q, r) := WritePage(p, k, data);
      && r.Ok? && InRange(q)
      && var z := MarkDirty(q, k).0;
      && PoolOk(z) && (forall k' :: Pins(z, k') == Pins(p, k')) && z.table == p.table
      && z.table[k] < |z.slots| && z.slots[z.table[k]].data == data
      && Link(z, k) == Some(data.next) && (forall k' :: k' != k ==> Link(z, k') == Link(p, k'))
  {
    hide Lists, Index, LinksSaved;
    ResidentSlot(p, k);
    WriteValid(p, k, data);
    var i := p.table[k];
    var s := p.slots[i].(data := data, dirty := true);
    SlotTouchLinks(p, k, s);
    assert MarkDirty(WritePage(p, k, data).0, k).0 == Touch(p.(slots := p.slots[i := s]), i);
  }

  /** Storing a body, without mark, keeps the link. */
  lemma WriteLinks(p: Pool, k: Key, data: Page)
    requires PoolOk(p) && Link(p, k) == Some(data.next)
    ensures var q := WritePage(p, k, data).0;
      PoolOk(q) && SameLinks(p, q) && (forall k' :: Pins(q, k') == Pins(p, k')) && q.table == p.table
  {
    hide Lists, Index, LinksSaved;
    if k in p.table {
      ResidentSlot(p, k);
      SlotChangeLinks(p, p.table[k], p.slots[p.table[k]].(data := data));
    }
  }

  lemma DirtyLinks(p: Pool, k: Key)
    requires PoolOk(p)
    ensures var q := MarkDirty(p, k).0;
      PoolOk(q) && SameLinks(p, q) && (forall k' :: Pins(q, k') == Pins(p, k')) && q.table == p.table
  {
    hide Lists, Index, LinksSaved;
    if k in p.table {
      ResidentSlot(p, k);
      SlotTouchLinks(p, k, p.slots[p.table[k]].(dirty := true));
    }
  }

  lemma UnpinLinks(p: Pool, k: Key)
    requires PoolOk(p)
    ensures var (q, r) := UnpinPage(p, k);
      && PoolOk(q) && SameLinks(p, q) && OtherPins(p, q, k) && q.table == p.table
      && (if Pins(p, k) > 0 then r.Ok? && Pins(q, k) == Pins(p, k) - 1 else r.Err? && q == p)
      && (Evictable(p) ==> Evictable(q))
  {
    hide Lists, Index, LinksSaved;
    if k in p.table {
      ResidentSlot(p, k);
      var i := p.table[k];
      if p.slots[i].pin > 0 {
        var s := p.slots[i].(pin := p.slots[i].pin - 1);
        if s.pin == 0 {
          SlotTouchLinks(p, k, s);
        } else {
          SlotChangeLinks(p, i, s);
          UnpinStillEvictable(p, i, s);
        }
      }
    }
  }

  lemma UnpinStillEvictable(p: Pool, i: nat, s: Slot)
    requires i < |p.slots| && p.slots[i].pin != 0
    ensures Evictable(p) ==> Evictable(p.(slots := p.slots[i := s]))
  {
    if Evictable(p) && p.free == [] {
      var j :| j in Elems(p.used) && j < |p.slots| && p.slots[j].pin == 0;
      assert p.slots[i := s][j].pin == 0;
    }
  }

  lemma ReleaseLinks(p: Pool, i: nat)
    requires PoolOk(p) && i in Elems(p.used) && i < |p.slots| && p.slots[i].pin <= 0
    ensures var q := ReleaseSlot(p, i);
      PoolOk(q) && SameLinks(p, q) && (forall k :: Pins(q, k) == Pins(p, k)) && q.table.Keys <= p.table.Keys
  {
    ReleaseValid(p, i);
    Unmapped(p, ReleaseSlot(p, i), i);
    hide Lists, Index, Elems, Link, Pins, SaveSlot, Without;
  }

  lemma {:induction false} FlushLinks(p: Pool, fd: int, i: nat)
    requires PoolOk(p)
    ensures var q := FlushFrom(p, fd, i, true).0;
      PoolOk(q) && SameLinks(p, q) && (forall k :: Pins(q, k) == Pins(p, k)) && q.table.Keys <= p.table.Keys
    decreases |p.slots| - i
  {
    hide Lists, Index, LinksSaved;
    if i < |p.slots| {
      if p.slots[i].key.fd == fd && i in p.used {
        if p.slots[i].pin <= 0 {
          assert i in Elems(p.used);
          ReleaseLinks(p, i);
          FlushLinks(ReleaseSlot(p, i), fd, i + 1);
        }
      } else {
        FlushLinks(p, fd, i + 1);
      }
    }
  }

  lemma SaveLinks(p: Pool, i: nat)
    requires PoolOk(p) && i in Elems(p.used) && i < |p.slots| && p.slots[i].dirty
    ensures var q := p.(slots := p.slots[i := p.slots[i].(dirty := false)], disk := SaveSlot(p, i));
      PoolOk(q) && SameLinks(p, q) && (forall k :: Pins(q, k) == Pins(p, k)) && q.table == p.table && q.used == p.used
  {
    hide Lists;
    SlotChangeValid(p, i, p.slots[i].(dirty := false));
    var q := p.(slots := p.slots[i := p.slots[i].(dirty := false)], disk := SaveSlot(p, i));
    assert Valid(q);
    forall j | j in Elems(q.used) && j < |q.slots|
      ensures LinkSaved(q, j)
    {
      assert LinkSaved(p, j) && (j != i ==> p.slots[j].key != p.slots[i].key);
    }
  }

  lemma {:induction false} ForceLinks(p: Pool, fd: int, page: int, n: nat)
    requires PoolOk(p)
    ensures var q := ForceFrom(p, fd, page, n);
      PoolOk(q) && SameLinks(p, q) && (forall k :: Pins(q, k) == Pins(p, k)) && q.table == p.table
    decreases |p.used| - n
  {
    hide Lists, Index, LinksSaved;
    if n < |p.used| {
      var i := p.used[n];
      assert i in Elems(p.used);
      if Forced(p.slots[i], fd, page) {
        SaveLinks(p, i);
        ForceLinks(p.(slots := p.slots[i := p.slots[i].(dirty := false)], disk := SaveSlot(p, i)), fd, page, n + 1);
      } else {
        ForceLinks(p, fd, page, n + 1);
      }
    }
  }
}
