/** What each operation of the page cache answers and what it does to every page, told by pages alone:
    whether a page is cached, its contents, whether it is dirty, its pins, and its copy on disk.  Slots and
    lists do not appear (io/buffer_manager.cc).
 */
module PoolOutcomes {
  import opened Basics
  import opened Pool
  import opened Links
  import opened PoolRuns
  import PoolTheorems

  datatype Copy = Copy(dirty: bool, data: Page, pin: int)

  function CopyOf(s: Slot): Copy {
    Copy(s.dirty, s.data, s.pin)
  }

  function Cached(p: Pool, k: Key): Option<Copy> {
    if k in p.table && p.table[k] < |p.slots| then Some(CopyOf(p.slots[p.table[k]])) else None
  }

  /** Page `k` is cached and on disk as before. */
  ghost predicate Same(p: Pool, q: Pool, k: Key) {
    Cached(q, k) == Cached(p, k) && Find(q.disk, k) == Find(p.disk, k)
  }

  /** Page `k` has left the cache, and what was dirty is on disk. */
  ghost predicate WrittenOut(p: Pool, q: Pool, k: Key) {
    && Cached(p, k).Some? && Cached(q, k) == None
    && Find(q.disk, k) == if Cached(p, k).value.dirty then Some(Cached(p, k).value.data) else Find(p.disk, k)
  }

  /** Nothing but page `k` changes, save that the page `gone` makes room for it; that one was not pinned. */
  ghost predicate OthersSame(p: Pool, q: Pool, k: Key, gone: Option<Key>) {
    && (gone.Some? ==> gone.value != k && WrittenOut(p, q, gone.value) && Cached(p, gone.value).value.pin == 0)
    && forall k' :: k' != k && Some(k') != gone ==> Same(p, q, k')
  }

  // ----- force

  /** The pages that a call of `force_page` asks for. */
  predicate Asked(k: Key, fd: int, page: int) {
    k.fd == fd && (page == ALL_PAGES || k.page == page)
  }

  /** Slot `i` is saved by the loop from position `n` on. */
  ghost predicate Saves(p: Pool, fd: int, page: int, n: nat, i: nat) {
    n <= |p.used| && i in Elems(p.used[n..]) && i < |p.slots| && p.slots[i].dirty && Asked(p.slots[i].key, fd, page)
  }

  ghost predicate ForcedTo(p: Pool, q: Pool, fd: int, page: int, n: nat) {
    && q.used == p.used && q.free == p.free && q.table == p.table && |q.slots| == |p.slots|
    && (forall i :: 0 <= i < |p.slots| ==> q.slots[i] == p.slots[i].(dirty := p.slots[i].dirty && !Saves(p, fd, page, n, i)))
    && (forall k :: Find(q.disk, k) ==
          if k in p.table && Saves(p, fd, page, n, p.table[k]) then Some(p.slots[p.table[k]].data) else Find(p.disk, k))
  }

  lemma {:induction false} ForceFromIs(p: Pool, fd: int, page: int, n: nat)
    requires Valid(p) && n <= |p.used|
    ensures ForcedTo(p, ForceFrom(p, fd, page, n), fd, page, n)
    decreases |p.used| - n
  {
    hide Lists, Index, Below, Elems, ForcedTo;
    if n == |p.used| {
      ForcedLast(p, fd, page);
    } else {
      var i := p.used[n];
      UsedFrom(p, n);
      if Forced(p.slots[i], fd, page) {
        var p1 := p.(slots := p.slots[i := p.slots[i].(dirty := false)], disk := SaveSlot(p, i));
        SavedValid(p, i, p1);
        ForceFromIs(p1, fd, page, n + 1);
        ForcedOne(p, p1, ForceFrom(p1, fd, page, n + 1), fd, page, n);
      } else {
        ForceFromIs(p, fd, page, n + 1);
        ForcedNone(p, ForceFrom(p, fd, page, n + 1), fd, page, n);
      }
    }
  }

  lemma ForcedLast(p: Pool, fd: int, page: int)
    ensures ForcedTo(p, p, fd, page, |p.used|)
  {
    assert p.used[|p.used|..] == [];
  }

  lemma ForcedNone(p: Pool, q: Pool, fd: int, page: int, n: nat)
    requires n < |p.used| && p.used[n] < |p.slots| && !(p.slots[p.used[n]].dirty && Asked(p.slots[p.used[n]].key, fd, page))
    requires Elems(p.used[n..]) == {p.used[n]} + Elems(p.used[n + 1..]) && ForcedTo(p, q, fd, page, n + 1)
    ensures ForcedTo(p, q, fd, page, n)
  {
    hide Elems;
    assert forall j :: Saves(p, fd, page, n, j) == Saves(p, fd, page, n + 1, j);
  }

  lemma SavedValid(p: Pool, i: nat, p1: Pool)
    requires Valid(p) && i < |p.slots| && p1 == p.(slots := p.slots[i := p.slots[i].(dirty := false)], disk := SaveSlot(p, i))
    requires i in Elems(p.used)
    ensures Valid(p1)
  {
    hide Lists, Elems;
    SlotChangeValid(p, i, p.slots[i].(dirty := false));
  }

  lemma UsedFrom(p: Pool, n: nat)
    requires Valid(p) && n < |p.used|
    ensures var i := p.used[n];
      && i < |p.slots| && i in Elems(p.used) && p.slots[i].key in p.table && p.table[p.slots[i].key] == i
      && Elems(p.used[n..]) == {i} + Elems(p.used[n + 1..]) && i !in Elems(p.used[n + 1..])
      && forall k :: k in p.table && p.table[k] == i ==> k == p.slots[i].key
  {
    assert p.used[n..] == [p.used[n]] + p.used[n + 1..];
    ElemsCons(p.used[n], p.used[n + 1..]);
  }

  /** One slot is saved, and the loop does the rest. */
  lemma ForcedOne(p: Pool, p1: Pool, q: Pool, fd: int, page: int, n: nat)
    requires n < |p.used| && p.used[n] < |p.slots|
    requires var i := p.used[n];
      && p1 == p.(slots := p.slots[i := p.slots[i].(dirty := false)], disk := SaveSlot(p, i))
      && p.slots[i].dirty && Asked(p.slots[i].key, fd, page)
      && p.slots[i].key in p.table && p.table[p.slots[i].key] == i
      && Elems(p.used[n..]) == {i} + Elems(p.used[n + 1..]) && i !in Elems(p.used[n + 1..])
      && (forall k :: k in p.table && p.table[k] == i ==> k == p.slots[i].key)
    requires ForcedTo(p1, q, fd, page, n + 1)
    ensures ForcedTo(p, q, fd, page, n)
  {
    hide Elems;
    var i := p.used[n];
    assert Saves(p, fd, page, n, i) && !Saves(p1, fd, page, n + 1, i);
    forall j | j != i
      ensures Saves(p, fd, page, n, j) == Saves(p1, fd, page, n + 1, j)
    {
    }
    forall k
      ensures Find(q.disk, k) ==
              if k in p.table && Saves(p, fd, page, n, p.table[k]) then Some(p.slots[p.table[k]].data) else Find(p.disk, k)
    {
      if k in p.table && p.table[k] != i && p.table[k] < |p.slots| {
        assert p1.slots[p.table[k]] == p.slots[p.table[k]];
      }
    }
  }

  /** `force_page` makes each cached page that was asked for clean, writes it to its own place on disk if it
      was dirty, and leaves everything else as it is. */
  lemma ForceIs(p: Pool, fd: int, page: int)
    requires Valid(p)
    ensures var q := ForcePage(p, fd, page);
      && Valid(q) && q.used == p.used && q.free == p.free && q.table == p.table
      && forall k :: if Asked(k, fd, page) && Cached(p, k).Some?
                     then var copy := Cached(p, k).value;
                       && Cached(q, k) == Some(copy.(dirty := false))
                       && Find(q.disk, k) == if copy.dirty then Some(copy.data) else Find(p.disk, k)
                     else Same(p, q, k)
  {
    ForceValid(p, fd, page, 0);
    ForceFromIs(p, fd, page, 0);
    assert p.used[0..] == p.used;
    var q := ForcePage(p, fd, page);
    forall k
      ensures if Asked(k, fd, page) && Cached(p, k).Some?
              then var copy := Cached(p, k).value;
                && Cached(q, k) == Some(copy.(dirty := false))
                && Find(q.disk, k) == if copy.dirty then Some(copy.data) else Find(p.disk, k)
              else Same(p, q, k)
    {
      if k in p.table {
        Resident(p, k);
        hide Valid, ForceFrom, Elems;
        assert Saves(p, fd, page, 0, p.table[k]) <==> p.slots[p.table[k]].dirty && Asked(k, fd, page);
      }
    }
  }

  /** After every run, forcing leaves on disk exactly what the plain store has for each page that was asked for
      and has no change still to be marked; and nobody sees a difference. */
  lemma ForceLeavesOnDisk(w0: World, ops: seq<Op>, w: World, fd: int, page: int)
    requires PoolTheorems.IsStart(w0) && PoolTheorems.Runs(w0, ops, w)
    ensures InRange(w.pool)
    ensures var q := ForcePage(w.pool, fd, page);
      && (forall k :: Asked(k, fd, page) && k !in w.unsaved ==> Find(q.disk, k) == Find(w.store, k))
      && (forall k :: Seen(q, k) == Seen(w.pool, k))
  {
    PoolTheorems.StartKeeps(w0);
    PoolTheorems.RunKeeps(w0, ops, w);
    ForceIs(w.pool, fd, page);
    ForceCoherent(w, fd, page, 0);
    hide PoolTheorems.Runs, PoolTheorems.IsStart, PoolTheorems.Recent, ForceFrom;
    forall k | Asked(k, fd, page) && k !in w.unsaved
      ensures Find(ForcePage(w.pool, fd, page).disk, k) == Find(w.store, k)
    {
      OnDiskOnceForced(w, fd, page, k);
    }
  }

  lemma OnDiskOnceForced(w: World, fd: int, page: int, k: Key)
    requires Coherent(w) && Asked(k, fd, page) && k !in w.unsaved
    ensures Find(ForcePage(w.pool, fd, page).disk, k) == Find(w.store, k)
  {
    ForceIs(w.pool, fd, page);
    hide ForceFrom, Lists;
    assert Seen(w.pool, k) == Find(w.store, k);
    if k in w.pool.table {
      Resident(w.pool, k);
      assert SlotSaved(w.pool, w.unsaved, w.pool.slots[w.pool.table[k]]);
    }
  }

  // ----- flush

  /** A pinned slot of the file between `i` and `j` stops the loop before it has passed `j`. */
  ghost predicate Stopped(p: Pool, fd: int, i: nat, j: nat) {
    exists m :: i <= m <= j && m < |p.slots| && PinnedSlot(p, fd, m)
  }

  ghost predicate PinnedSlot(p: Pool, fd: int, m: nat)
    requires m < |p.slots|
  {
    m in Elems(p.used) && p.slots[m].key.fd == fd && p.slots[m].pin > 0
  }

  /** The flush from slot `i` on writes page `k` out. */
  ghost predicate Flushed(p: Pool, fd: int, i: nat, k: Key) {
    k in p.table && k.fd == fd && i <= p.table[k] && !Stopped(p, fd, i, p.table[k])
  }

  ghost predicate FlushedTo(p: Pool, q: Pool, fd: int, i: nat) {
    forall k :: if Flushed(p, fd, i, k) then WrittenOut(p, q, k) else Same(p, q, k)
  }

  lemma {:induction false} FlushFromIs(p: Pool, fd: int, i: nat)
    requires Valid(p)
    ensures FlushedTo(p, FlushFrom(p, fd, i, true).0, fd, i)
    decreases |p.slots| - i
  {
    hide Lists, Elems;
    if i >= |p.slots| {
    } else if p.slots[i].key.fd == fd && i in p.used {
      assert i in Elems(p.used) by { InElems(p.used, i); }
      if p.slots[i].pin > 0 {
        assert PinnedSlot(p, fd, i);
      } else {
        ReleaseValid(p, i);
        FlushFromIs(ReleaseSlot(p, i), fd, i + 1);
        FlushedOne(p, ReleaseSlot(p, i), FlushFrom(ReleaseSlot(p, i), fd, i + 1, true).0, fd, i);
      }
    } else {
      FlushFromIs(p, fd, i + 1);
      NotInElems(p.used, i);
      FlushedNone(p, FlushFrom(p, fd, i + 1, true).0, fd, i);
    }
  }

  lemma InElems(s: seq<nat>, x: nat)
    requires x in s
    ensures x in Elems(s)
  {
  }

  lemma NotInElems(s: seq<nat>, x: nat)
    ensures x !in s ==> x !in Elems(s)
  {
  }

  /** A slot that is not the file's, or free, is passed over. */
  lemma FlushedNone(p: Pool, q: Pool, fd: int, i: nat)
    requires Index(p, Elems(p.used)) && i < |p.slots| && (p.slots[i].key.fd != fd || i !in Elems(p.used))
    requires FlushedTo(p, q, fd, i + 1)
    ensures FlushedTo(p, q, fd, i)
  {
    hide Elems;
    assert !PinnedSlot(p, fd, i);
    forall k
      ensures Flushed(p, fd, i, k) <==> Flushed(p, fd, i + 1, k)
    {
      assert forall j :: Stopped(p, fd, i, j) ==> Stopped(p, fd, i + 1, j);
      assert forall j :: Stopped(p, fd, i + 1, j) ==> Stopped(p, fd, i, j);
    }
  }

  lemma FlushedOne(p: Pool, p1: Pool, q: Pool, fd: int, i: nat)
    requires Index(p, Elems(p.used)) && i in Elems(p.used) && i < |p.slots| && p.slots[i].key.fd == fd && p.slots[i].pin <= 0
    requires p1 == ReleaseSlot(p, i) && Elems(p1.used) == Elems(p.used) - {i} && FlushedTo(p1, q, fd, i + 1)
    ensures FlushedTo(p, q, fd, i)
  {
    hide Elems, Without;
    var own := p.slots[i].key;
    assert forall j :: 0 <= j < |p.slots| ==> p1.slots[j].key == p.slots[j].key && p1.slots[j].pin == p.slots[j].pin;
    StopsAlike(p, p1, fd, i);
    assert !Stopped(p, fd, i, i);
    assert Flushed(p, fd, i, own) && !Flushed(p1, fd, i + 1, own) && WrittenOut(p, p1, own);
    hide Stopped, WrittenOut, Same, ReleaseSlot;
    forall k
      ensures if Flushed(p, fd, i, k) then WrittenOut(p, q, k) else Same(p, q, k)
    {
      if k == own {
        WrittenThenSame(p, p1, q, k);
      } else {
        ReleasedOther(p, i, k);
        assert Flushed(p, fd, i, k) <==> Flushed(p1, fd, i + 1, k);
        SameThen(p, p1, q, k);
      }
    }
  }

  lemma ReleasedOther(p: Pool, i: nat, k: Key)
    requires Index(p, Elems(p.used)) && i in Elems(p.used) && i < |p.slots| && k != p.slots[i].key
    ensures var p1 := ReleaseSlot(p, i);
      Same(p, p1, k) && (k in p.table <==> k in p1.table) && (k in p.table ==> p.table[k] == p1.table[k] != i)
  {
    hide Elems, Without;
  }

  lemma WrittenThenSame(p: Pool, p1: Pool, q: Pool, k: Key)
    requires WrittenOut(p, p1, k) && Same(p1, q, k)
    ensures WrittenOut(p, q, k)
  {
  }

  lemma SameThen(p: Pool, p1: Pool, q: Pool, k: Key)
    requires Same(p, p1, k)
    ensures WrittenOut(p1, q, k) ==> WrittenOut(p, q, k)
    ensures Same(p1, q, k) ==> Same(p, q, k)
  {
  }

  lemma StopsAlike(p: Pool, p1: Pool, fd: int, i: nat)
    requires i < |p.slots| == |p1.slots| && p.slots[i].pin <= 0 && Elems(p1.used) == Elems(p.used) - {i}
    requires forall j :: 0 <= j < |p.slots| ==> p1.slots[j].key == p.slots[j].key && p1.slots[j].pin == p.slots[j].pin
    ensures forall j: nat :: Stopped(p, fd, i, j) <==> Stopped(p1, fd, i + 1, j)
  {
    hide Elems;
    forall m | 0 <= m < |p.slots|
      ensures PinnedSlot(p, fd, m) <==> PinnedSlot(p1, fd, m)
    {
    }
    assert !PinnedSlot(p, fd, i);
    forall j: nat
      ensures Stopped(p, fd, i, j) <==> Stopped(p1, fd, i + 1, j)
    {
      if m :| i <= m <= j && m < |p.slots| && PinnedSlot(p, fd, m) {
        assert PinnedSlot(p1, fd, m);
      }
      if m :| i + 1 <= m <= j && m < |p1.slots| && PinnedSlot(p1, fd, m) {
        assert PinnedSlot(p, fd, m);
      }
    }
  }

  /** `flush_pages` writes out exactly the file's pages in slots before its first pinned one, all of them if it
      has none, and says so; every other page stays as it is. */
  lemma FlushIs(p: Pool, fd: int)
    requires Valid(p)
    ensures var (q, ok) := FlushPages(p, fd);
      && Valid(q)
      && (ok <==> forall k: Key :: k.fd == fd && Cached(p, k).Some? ==> Cached(p, k).value.pin == 0)
      && (forall k :: if Flushed(p, fd, 0, k) then WrittenOut(p, q, k) else Same(p, q, k))
      && (ok ==> forall k :: Flushed(p, fd, 0, k) <==> k in p.table && k.fd == fd)
  {
    FlushValid(p, fd, 0);
    FlushFromIs(p, fd, 0);
    PoolTheorems.FlushClears(p, fd, 0);
    hide FlushFrom, Lists;
    forall k | k in p.table
      ensures p.table[k] < |p.slots| && p.table[k] in Elems(p.used) && p.slots[p.table[k]].key == k && p.slots[p.table[k]].pin >= 0
    {
      Resident(p, k);
    }
    hide Elems;
    assert PoolTheorems.NonePinned(p, fd) <==> forall k: Key :: k.fd == fd && Cached(p, k).Some? ==> Cached(p, k).value.pin == 0;
  }

  /** The slots that a flush frees come to the front of the free list, the last one first. */
  lemma {:induction false} FlushFrees(p: Pool, fd: int, i: nat) returns (freed: seq<nat>)
    ensures FlushFrom(p, fd, i, true).0.free == freed + p.free
    ensures forall a, b :: 0 <= a < b < |freed| ==> freed[b] < freed[a]
    ensures forall a :: 0 <= a < |freed| ==> i <= freed[a] < |p.slots| && freed[a] in p.used && p.slots[freed[a]].key.fd == fd
    decreases |p.slots| - i
  {
    freed := [];
    if i < |p.slots| {
      if p.slots[i].key.fd == fd && i in p.used {
        if p.slots[i].pin <= 0 {
          var later := FlushFrees(ReleaseSlot(p, i), fd, i + 1);
          freed := later + [i];
          StillUsed(p.used, i);
        }
      } else {
        freed := FlushFrees(p, fd, i + 1);
      }
    }
  }

  lemma {:induction false} StillUsed(s: seq<nat>, x: nat)
    ensures forall y :: y in Without(s, x) ==> y in s
  {
    if s != [] && s[0] != x {
      StillUsed(s[1..], x);
    }
  }

  // ----- getting and allocating

  /** Room is made by a free slot, or by one unpinned page that is written out. */
  lemma GrabIs(p: Pool) returns (gone: Option<Key>)
    requires Valid(p) && Grab(p).Some?
    ensures gone.Some? <==> p.free == []
    ensures var q := Grab(p).value.0;
      && (gone.Some? ==> WrittenOut(p, q, gone.value) && Cached(p, gone.value).value.pin == 0)
      && forall k :: Some(k) != gone ==> Same(p, q, k)
  {
    if p.free != [] {
      gone := None;
    } else {
      GrabEvicts(p);
      hide Grab, Lists, Elems, Without;
      var i := Grab(p).value.1;
      gone := Some(p.slots[i].key);
      assert p.table[p.slots[i].key] == i;
      assert forall k :: k in p.table && k != p.slots[i].key ==> p.table[k] != i;
    }
  }

  /** A page that goes into the slot just taken. */
  lemma InstallIs(p: Pool, q: Pool, i: nat, k: Key, data: Page, gone: Option<Key>)
    requires Grabbed(q, i) && k !in q.table && Cached(p, k) == None && gone != Some(k)
    requires gone.Some? ==> WrittenOut(p, q, gone.value) && Cached(p, gone.value).value.pin == 0
    requires forall k' :: Some(k') != gone ==> Same(p, q, k')
    ensures i < |q.slots| && OthersSame(p, Install(q, i, k, data), k, gone) && Cached(Install(q, i, k, data), k) == Some(Copy(false, data, 1))
  {
    hide Lists, Elems;
    var z := Install(q, i, k, data);
    forall k' | k' != k
      ensures Same(q, z, k')
    {
      assert k' in q.table ==> q.table[k'] != i;
    }
  }

  /** The page asked for, pinned once more; `gone` is the page that had to make room. */
  lemma GetIs(p: Pool, k: Key, multiplePins: bool) returns (gone: Option<Key>)
    requires Valid(p)
    ensures var (q, r) := GetPage(p, k, multiplePins);
      match Cached(p, k)
      case Some(copy) =>
        if !multiplePins && copy.pin > 0 then r == Err(StillPinned) && q == p
        else r == Ok(p.table[k]) && Cached(q, k) == Some(copy.(pin := copy.pin + 1)) && Find(q.disk, k) == Find(p.disk, k)
             && OthersSame(p, q, k, None) && q.table == p.table
      case None =>
        if !Evictable(p) then r == Err(NoBuffer) && q == p
        else if k !in p.disk then r == Err(ShortRead)
        else
          && r.Ok? && k in q.table && q.table[k] == r.slot && (gone.Some? <==> p.free == []) && OthersSame(p, q, k, gone)
          && Cached(q, k) == Some(Copy(false, p.disk[k], 1)) && Find(q.disk, k) == Find(p.disk, k)
  {
    gone := None;
    if k in p.table {
      Resident(p, k);
      hide Valid, Without;
      var i := p.table[k];
      CachedOthers(p, k, p.slots[i].(pin := p.slots[i].pin + 1), [i] + Without(p.used, i));
    } else {
      GrabSomeIff(p);
      if Grab(p).Some? {
        gone := GrabIs(p);
        GrabValid(p);
        GrabTable(p);
        var (q, i) := Grab(p).value;
        hide Valid, Grab, Grabbed, Evictable;
        assert gone != Some(k) && Same(p, q, k);
        if k in q.disk {
          InstallIs(p, q, i, k, q.disk[k], gone);
        }
      }
    }
  }

  /** A cached page whose slot changes in all but its identity, at whatever place of the used list. */
  lemma CachedOthers(p: Pool, k: Key, s: Slot, used: seq<nat>)
    requires Valid(p) && k in p.table && p.table[k] < |p.slots|
    ensures var q := p.(slots := p.slots[p.table[k] := s], used := used);
      OthersSame(p, q, k, None) && Cached(q, k) == Some(CopyOf(s))
  {
    hide Lists, Elems;
    assert forall k' :: k' in p.table && k' != k ==> p.table[k'] != p.table[k];
  }

  /** A slot for a page that is not cached, pinned once and clean, with whatever the slot held. */
  lemma AllocateIs(p: Pool, k: Key) returns (gone: Option<Key>)
    requires Valid(p)
    ensures var (q, r) := AllocatePage(p, k);
      if Cached(p, k).Some? then r == Err(AlreadyResident) && q == p
      else if !Evictable(p) then r == Err(NoBuffer) && q == p
      else
        && r.Ok? && k in q.table && q.table[k] == r.slot && (gone.Some? <==> p.free == []) && OthersSame(p, q, k, gone)
        && Cached(q, k).Some? && Cached(q, k).value == Copy(false, Cached(q, k).value.data, 1) && Find(q.disk, k) == Find(p.disk, k)
  {
    gone := None;
    if k in p.table {
      Resident(p, k);
    } else {
      GrabSomeIff(p);
      if Grab(p).Some? {
        gone := GrabIs(p);
        GrabValid(p);
        GrabTable(p);
        var (q, i) := Grab(p).value;
        hide Valid, Grab, Grabbed, Evictable;
        assert gone != Some(k) && Same(p, q, k);
        InstallIs(p, q, i, k, q.slots[i].data, gone);
      }
    }
  }

  // ----- unpinning, marking and writing

  /** A pinned page loses one pin. */
  lemma UnpinIs(p: Pool, k: Key)
    requires Valid(p)
    ensures var (q, r) := UnpinPage(p, k);
      match Cached(p, k)
      case None => r == Err(NotResident) && q == p
      case Some(copy) =>
        if copy.pin == 0 then r == Err(NotPinned) && q == p
        else r == Ok(p.table[k]) && Cached(q, k) == Some(copy.(pin := copy.pin - 1)) && Find(q.disk, k) == Find(p.disk, k)
             && OthersSame(p, q, k, None)
  {
    if k in p.table {
      Resident(p, k);
      hide Valid, Without;
      var i := p.table[k];
      CachedOthers(p, k, p.slots[i].(pin := p.slots[i].pin - 1), p.used);
      CachedOthers(p, k, p.slots[i].(pin := p.slots[i].pin - 1), [i] + Without(p.used, i));
    }
  }

  /** A cached page becomes dirty, pinned or not. */
  lemma DirtyIs(p: Pool, k: Key)
    requires Valid(p)
    ensures var (q, r) := MarkDirty(p, k);
      match Cached(p, k)
      case None => r == Err(NotResident) && q == p
      case Some(copy) =>
        && r == Ok(p.table[k]) && Cached(q, k) == Some(copy.(dirty := true)) && Find(q.disk, k) == Find(p.disk, k)
        && OthersSame(p, q, k, None)
  {
    if k in p.table {
      Resident(p, k);
      hide Valid, Without;
      var i := p.table[k];
      CachedOthers(p, k, p.slots[i].(dirty := true), [i] + Without(p.used, i));
    }
  }

  /** A pinned page takes new contents. */
  lemma WriteIs(p: Pool, k: Key, data: Page)
    requires Valid(p)
    ensures var (q, r) := WritePage(p, k, data);
      match Cached(p, k)
      case None => r == Err(NotResident) && q == p
      case Some(copy) =>
        if copy.pin == 0 then r == Err(NotPinned) && q == p
        else r == Ok(p.table[k]) && Cached(q, k) == Some(copy.(data := data)) && Find(q.disk, k) == Find(p.disk, k)
             && OthersSame(p, q, k, None)
  {
    if k in p.table {
      Resident(p, k);
      hide Valid, Without;
      CachedOthers(p, k, p.slots[p.table[k]].(data := data), p.used);
    }
  }
}
