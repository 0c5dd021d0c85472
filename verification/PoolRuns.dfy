/** Runs of the page cache against a plain, unbounded page store.  The store knows nothing of slots,
    eviction or write-back: reading changes nothing, a write replaces the page, and that is all; a fresh
    page holds whatever the cache hands out, until it is written.
    Clients are held to one rule, the one io/file_handle.cc follows: what was written or allocated is
    marked dirty before its last unpin.
 */
module PoolRuns {
  import opened Basics
  import opened Pool

  datatype Op =
    | Get(k: Key, multiplePins: bool)
    | Allocate(k: Key)
    | Write(k: Key, data: Page)
    | Dirty(k: Key)
    | Unpin(k: Key)
    | Flush(fd: int)
    | Force(fd: int, page: int)

  /** The cache; the plain store; the pages changed since they were last marked; and the time at which
      each page was last touched. */
  datatype World = World(pool: Pool, store: map<Key, Page>, unsaved: set<Key>, last: map<Key, nat>, clock: nat)

  function Do(p: Pool, op: Op): (Pool, Result)
    requires InRange(p)
  {
    match op
    case Get(k, multiplePins) => GetPage(p, k, multiplePins)
    case Allocate(k) => AllocatePage(p, k)
    case Write(k, data) => WritePage(p, k, data)
    case Dirty(k) => MarkDirty(p, k)
    case Unpin(k) => UnpinPage(p, k)
    case Flush(fd) => (FlushPages(p, fd).0, if FlushPages(p, fd).1 then Ok(0) else Err(StillPinned))
    case Force(fd, page) => (ForcePage(p, fd, page), Ok(0))
  }

  predicate PinsOf(p: Pool, k: Key, n: int) {
    k in p.table && p.table[k] < |p.slots| && p.slots[p.table[k]].pin == n
  }

  predicate IsDirty(p: Pool, k: Key) {
    k in p.table && p.table[k] < |p.slots| && p.slots[p.table[k]].dirty
  }

  /** The pages an operation touches: got, allocated or marked, and unpinned for the last time. */
  predicate Touches(p: Pool, op: Op) {
    op.Get? || op.Allocate? || op.Dirty? || (op.Unpin? && PinsOf(p, op.k, 1))
  }

  function Step(w: World, op: Op): World
    requires InRange(w.pool)
  {
    var (q, r) := Do(w.pool, op);
    if r.Err? then w.(pool := q)
    else
      World(
        q,
        match op
        case Write(k, data) => w.store[k := data]
        case Allocate(k) => if r.slot < |q.slots| then w.store[k := q.slots[r.slot].data] else w.store
        case _ => w.store,
        match op
        case Write(k, _) => if IsDirty(w.pool, k) then w.unsaved else w.unsaved + {k}
        case Allocate(k) => w.unsaved + {k}
        case Dirty(k) => w.unsaved - {k}
        case _ => w.unsaved,
        if Touches(w.pool, op) then w.last[op.k := w.clock] else w.last,
        w.clock + 1)
  }

  /** Pages that are read exist, and what was changed is marked dirty before its last unpin. */
  predicate Disciplined(w: World, op: Op) {
    && (op.Get? ==> op.k in w.store)
    && (op.Unpin? && PinsOf(w.pool, op.k, 1) ==> op.k !in w.unsaved)
  }

  function Find(m: map<Key, Page>, k: Key): Option<Page> {
    if k in m then Some(m[k]) else None
  }

  ghost predicate SameAsStore(p: Pool, store: map<Key, Page>) {
    forall k :: Seen(p, k) == Find(store, k)
  }

  ghost predicate SlotSaved(p: Pool, unsaved: set<Key>, s: Slot) {
    !s.dirty && s.key !in unsaved ==> s.key in p.disk && p.disk[s.key] == s.data
  }

  ghost predicate Saved(p: Pool, unsaved: set<Key>, used: set<nat>) {
    forall i :: i in used && i < |p.slots| ==> SlotSaved(p, unsaved, p.slots[i])
  }

  ghost predicate UnsavedPinned(p: Pool, unsaved: set<Key>) {
    forall k :: k in unsaved ==> k in p.table && p.table[k] < |p.slots| && p.slots[p.table[k]].pin > 0
  }

  ghost predicate Coherent(w: World) {
    && Valid(w.pool)
    && SameAsStore(w.pool, w.store)
    && Saved(w.pool, w.unsaved, Elems(w.pool.used))
    && UnsavedPinned(w.pool, w.unsaved)
  }

  // ----- eviction

  lemma EvictedSeen(p: Pool, i: nat, k: Key)
    requires Index(p, Elems(p.used)) && i in Elems(p.used) && i < |p.slots|
    ensures Seen(Evicted(p, i), k) ==
            if k == p.slots[i].key && !p.slots[i].dirty then Find(p.disk, k) else Seen(p, k)
  {
    hide Elems, Without;
    assert p.table[p.slots[i].key] == i;
  }

  /** Taking a slot away from its page is invisible exactly when the page is dirty, and so written
      back, or already on disk as it is. */
  lemma EvictionInvisibleIff(p: Pool)
    requires Valid(p) && p.free == [] && Grab(p).Some?
    ensures var (q, i) := Grab(p).value;
      i < |p.slots| &&
      ((forall k :: Seen(q, k) == Seen(p, k)) <==>
       p.slots[i].dirty || Find(p.disk, p.slots[i].key) == Some(p.slots[i].data))
  {
    GrabEvicts(p);
    var i := Grab(p).value.1;
    SlotSeen(p, i);
    hide Lists, Elems, Grab, Evicted, Seen;
    forall k
      ensures Seen(Evicted(p, i), k) ==
              if k == p.slots[i].key && !p.slots[i].dirty then Find(p.disk, k) else Seen(p, k)
    {
      EvictedSeen(p, i, k);
    }
  }

  lemma SlotSeen(p: Pool, i: nat)
    requires Index(p, Elems(p.used)) && i in Elems(p.used) && i < |p.slots|
    ensures Seen(p, p.slots[i].key) == Some(p.slots[i].data)
  {
    hide Elems;
  }

  lemma GrabCoherent(w: World)
    requires Coherent(w) && Grab(w.pool).Some?
    ensures var (q, i) := Grab(w.pool).value;
      && SameAsStore(q, w.store)
      && Saved(q, w.unsaved, Elems(q.used) - {i})
      && UnsavedPinned(q, w.unsaved)
  {
    if w.pool.free != [] {
      GrabFreeCoherent(w);
    } else {
      GrabVictimCoherent(w);
    }
  }

  lemma GrabFreeCoherent(w: World)
    requires Coherent(w) && w.pool.free != []
    ensures var (q, i) := Grab(w.pool).value;
      SameAsStore(q, w.store) && Saved(q, w.unsaved, Elems(q.used) - {i}) && UnsavedPinned(q, w.unsaved)
  {
    var p := w.pool;
    FreeNotUsed(p);
    hide Lists, Index;
    var (q, i) := Grab(p).value;
    ElemsCons(i, p.used);
    assert Elems(q.used) - {i} == Elems(p.used);
    assert forall k :: Seen(q, k) == Seen(p, k);
    forall j | j in Elems(p.used) && j < |q.slots|
      ensures SlotSaved(q, w.unsaved, q.slots[j])
    {
      assert SlotSaved(p, w.unsaved, p.slots[j]);
    }
  }

  lemma GrabVictimCoherent(w: World)
    requires Coherent(w) && w.pool.free == [] && Grab(w.pool).Some?
    ensures var (q, i) := Grab(w.pool).value;
      SameAsStore(q, w.store) && Saved(q, w.unsaved, Elems(q.used) - {i}) && UnsavedPinned(q, w.unsaved)
  {
    GrabEvicts(w.pool);
    hide Grab, Lists, Elems, Without, Seen;
    var p, i := w.pool, Grab(w.pool).value.1;
    VictimSeen(w, i);
    TouchValid(p, i);
    OthersSaved(p, Evicted(p, i), w.unsaved, i);
  }

  lemma VictimSeen(w: World, i: nat)
    requires Coherent(w) && i in Elems(w.pool.used) && i < |w.pool.slots| && w.pool.slots[i].pin == 0
    ensures SameAsStore(Evicted(w.pool, i), w.store) && UnsavedPinned(Evicted(w.pool, i), w.unsaved)
  {
    hide Lists, Elems, Without;
    var p := w.pool;
    assert p.slots[i].key in p.table && p.table[p.slots[i].key] == i;
    assert SlotSaved(p, w.unsaved, p.slots[i]);
    SlotSeen(p, i);
    forall k
      ensures Seen(Evicted(p, i), k) == Find(w.store, k)
    {
      EvictedSeen(p, i, k);
      assert Seen(p, k) == Find(w.store, k);
    }
  }

  /** Writing back one slot leaves what is saved of the others. */
  lemma OthersSaved(p: Pool, q: Pool, unsaved: set<Key>, i: nat)
    requires Index(p, Elems(p.used)) && Saved(p, unsaved, Elems(p.used)) && i in Elems(p.used) && i < |p.slots|
    requires |q.slots| == |p.slots| && q.disk == SaveSlot(p, i) && Elems(q.used) - {i} == Elems(p.used) - {i}
    requires forall j :: 0 <= j < |p.slots| && j != i ==> q.slots[j] == p.slots[j]
    ensures Saved(q, unsaved, Elems(q.used) - {i})
  {
    hide Elems;
    forall j | j in Elems(q.used) - {i} && j < |q.slots|
      ensures SlotSaved(q, unsaved, q.slots[j])
    {
      assert j in Elems(p.used);
      assert SlotSaved(p, unsaved, p.slots[j]);
      assert p.slots[j].key != p.slots[i].key;
    }
  }

  /** Times do not matter. */
  lemma AnyTime(w: World, w': World)
    requires Coherent(w) && w'.pool == w.pool && w'.store == w.store && w'.unsaved == w.unsaved
    ensures Coherent(w')
  {
  }

  lemma CoherentSlot(w: World, k: Key)
    requires Coherent(w) && k in w.pool.table
    ensures var i := w.pool.table[k];
      && i < |w.pool.slots| && i in Elems(w.pool.used) && w.pool.slots[i].key == k && w.pool.slots[i].pin >= 0
      && (k in w.unsaved ==> w.pool.slots[i].pin > 0)
  {
    Resident(w.pool, k);
    hide Lists, Index, Elems;
  }

  lemma HitCoherent(w: World, k: Key, s: Slot)
    requires Coherent(w) && k in w.pool.table && w.pool.table[k] < |w.pool.slots|
    requires var i := w.pool.table[k];
      s.key == k && s.data == w.pool.slots[i].data && s.dirty == w.pool.slots[i].dirty && s.pin >= 0 && (k in w.unsaved ==> s.pin > 0)
    ensures var i := w.pool.table[k];
      Coherent(w.(pool := w.pool.(slots := w.pool.slots[i := s])))
  {
    hide Lists, Elems;
    var p, i := w.pool, w.pool.table[k];
    var q := p.(slots := p.slots[i := s]);
    Resident(p, k);
    SlotChangeValid(p, i, s);
    hide Index;
    forall j | j in Elems(q.used) && j < |q.slots|
      ensures SlotSaved(q, w.unsaved, q.slots[j])
    {
      assert SlotSaved(p, w.unsaved, p.slots[j]);
    }
    assert forall k' :: Seen(q, k') == Seen(p, k');
  }

  lemma TouchCoherent(w: World, i: nat)
    requires Coherent(w) && i in Elems(w.pool.used)
    ensures Coherent(w.(pool := Touch(w.pool, i)))
  {
    hide Lists, Index, Elems, Without;
    var p := w.pool;
    TouchValid(p, i);
    assert forall k :: Seen(Touch(p, i), k) == Seen(p, k);
    forall j | j in Elems(Touch(p, i).used) && j < |p.slots|
      ensures SlotSaved(Touch(p, i), w.unsaved, p.slots[j])
    {
      assert SlotSaved(p, w.unsaved, p.slots[j]);
    }
  }

  /** Putting a page into the slot just taken: what it shows is what the store has, and it is on disk
      unless it counts as unsaved. */
  lemma InstallCoherent(q: Pool, i: nat, k: Key, data: Page, store: map<Key, Page>, unsaved: set<Key>, last: map<Key, nat>, clock: nat)
    requires Grabbed(q, i) && k !in q.table
    requires forall k' :: k' != k ==> Seen(q, k') == Find(store, k')
    requires k in store && store[k] == data
    requires Saved(q, unsaved, Elems(q.used) - {i})
    requires k in unsaved || Find(q.disk, k) == Some(data)
    requires UnsavedPinned(q, unsaved - {k})
    ensures i < |q.slots| && Coherent(World(Install(q, i, k, data), store, unsaved, last, clock))
  {
    hide Lists;
    var z := Install(q, i, k, data);
    InstallValid(q, i, k, data);
    forall k'
      ensures Seen(z, k') == Find(store, k')
    {
      if k' != k {
        assert Seen(q, k') == Find(store, k');
      }
    }
    forall j | j in Elems(z.used) && j < |z.slots|
      ensures SlotSaved(z, unsaved, z.slots[j])
    {
      if j != i {
        assert SlotSaved(q, unsaved, q.slots[j]);
      }
    }
  }

  lemma GetHitCoherent(w: World, op: Op)
    requires Coherent(w) && op.Get? && op.k in w.pool.table
    ensures Coherent(Step(w, op))
  {
    hide Lists, Index, Below, SameAsStore, Saved, UnsavedPinned, Elems, Touch, Find;
    var p, k := w.pool, op.k;
    var i := p.table[k];
    CoherentSlot(w, k);
    if op.multiplePins || p.slots[i].pin == 0 {
      var s := p.slots[i].(pin := p.slots[i].pin + 1);
      HitAndTouch(w, k, s);
      AnyTime(w.(pool := Touch(p.(slots := p.slots[i := s]), i)), Step(w, op));
    }
  }

  lemma HitAndTouch(w: World, k: Key, s: Slot)
    requires Coherent(w) && k in w.pool.table && w.pool.table[k] < |w.pool.slots|
    requires var i := w.pool.table[k];
      s.key == k && s.data == w.pool.slots[i].data && s.dirty == w.pool.slots[i].dirty && s.pin >= 0 && (k in w.unsaved ==> s.pin > 0)
    ensures var i := w.pool.table[k];
      Coherent(w.(pool := Touch(w.pool.(slots := w.pool.slots[i := s]), i)))
  {
    CoherentSlot(w, k);
    hide Coherent, Elems, Touch;
    HitCoherent(w, k, s);
    TouchCoherent(w.(pool := w.pool.(slots := w.pool.slots[w.pool.table[k] := s])), w.pool.table[k]);
  }

  lemma GetMissCoherent(w: World, op: Op)
    requires Coherent(w) && op.Get? && op.k in w.store && op.k !in w.pool.table
    ensures Coherent(Step(w, op))
    ensures Do(w.pool, op).1 != Err(ShortRead)
  {
    hide Lists, Index;
    var p, k := w.pool, op.k;
    if Grab(p).Some? {
      GrabCoherent(w);
      GrabValid(p);
      var (q, i) := Grab(p).value;
      assert Seen(q, k) == Find(w.store, k);
      assert k in q.disk;
      InstallCoherent(q, i, k, q.disk[k], w.store, w.unsaved, w.last[k := w.clock], w.clock + 1);
    }
  }

  /** A read of a page that exists never comes back short, and changes nothing one can see. */
  lemma GetCoherent(w: World, op: Op)
    requires Coherent(w) && op.Get? && op.k in w.store
    ensures Coherent(Step(w, op))
    ensures Do(w.pool, op).1 != Err(ShortRead)
  {
    if op.k in w.pool.table {
      GetHitCoherent(w, op);
    } else {
      GetMissCoherent(w, op);
    }
  }

  lemma AllocateCoherent(w: World, op: Op)
    requires Coherent(w) && op.Allocate?
    ensures Coherent(Step(w, op))
  {
    hide Lists, Index, Below;
    var p, k := w.pool, op.k;
    if k !in p.table && Grab(p).Some? {
      GrabCoherent(w);
      GrabValid(p);
      GrabTable(p);
      var (q, i) := Grab(p).value;
      var data := q.slots[i].data;
      InstallCoherent(q, i, k, data, w.store[k := data], w.unsaved + {k}, w.last[k := w.clock], w.clock + 1);
    }
  }

  lemma UnpinCoherent(w: World, op: Op)
    requires Coherent(w) && op.Unpin? && Disciplined(w, op)
    ensures Coherent(Step(w, op))
  {
    hide Lists, Index, Below, SameAsStore, Saved, UnsavedPinned, Elems, Touch;
    var p, k := w.pool, op.k;
    if k in p.table {
      CoherentSlot(w, k);
      var i := p.table[k];
      if p.slots[i].pin > 0 {
        var s := p.slots[i].(pin := p.slots[i].pin - 1);
        if p.slots[i].pin == 1 {
          HitAndTouch(w, k, s);
          AnyTime(w.(pool := Touch(p.(slots := p.slots[i := s]), i)), Step(w, op));
        } else {
          HitCoherent(w, k, s);
          AnyTime(w.(pool := p.(slots := p.slots[i := s])), Step(w, op));
        }
      }
    }
  }

  lemma DirtyCoherent(w: World, op: Op)
    requires Coherent(w) && op.Dirty?
    ensures Coherent(Step(w, op))
  {
    hide Lists, Index, Below, SameAsStore, Saved, UnsavedPinned, Elems, Touch;
    var p, k := w.pool, op.k;
    if k in p.table {
      CoherentSlot(w, k);
      var i := p.table[k];
      var q := p.(slots := p.slots[i := p.slots[i].(dirty := true)]);
      MarkCoherent(w, k);
      TouchCoherent(w.(pool := q, unsaved := w.unsaved - {k}), i);
      AnyTime(w.(pool := Touch(q, i), unsaved := w.unsaved - {k}), Step(w, op));
    }
  }

  lemma MarkCoherent(w: World, k: Key)
    requires Coherent(w) && k in w.pool.table && w.pool.table[k] < |w.pool.slots|
    ensures var i := w.pool.table[k];
      Coherent(w.(pool := w.pool.(slots := w.pool.slots[i := w.pool.slots[i].(dirty := true)]), unsaved := w.unsaved - {k}))
  {
    hide Lists, Elems;
    var p, i := w.pool, w.pool.table[k];
    Resident(p, k);
    var q := p.(slots := p.slots[i := p.slots[i].(dirty := true)]);
    SlotChangeValid(p, i, q.slots[i]);
    assert forall k' :: Seen(q, k') == Seen(p, k');
    forall j | j in Elems(q.used) && j < |q.slots|
      ensures SlotSaved(q, w.unsaved - {k}, q.slots[j])
    {
      assert SlotSaved(p, w.unsaved, p.slots[j]);
      assert j != i ==> p.slots[j].key != k;
    }
  }

  lemma WriteCoherent(w: World, op: Op)
    requires Coherent(w) && op.Write?
    ensures Coherent(Step(w, op))
  {
    hide Lists, Index, Below, SameAsStore, Saved, UnsavedPinned, Elems;
    var p, k := w.pool, op.k;
    if k in p.table {
      CoherentSlot(w, k);
      if p.slots[p.table[k]].pin > 0 {
        StoreCoherent(w, k, op.data);
        AnyTime(Written(w, k, op.data), Step(w, op));
      }
    }
  }

  ghost function Written(w: World, k: Key, data: Page): World
    requires k in w.pool.table && w.pool.table[k] < |w.pool.slots|
  {
    var i := w.pool.table[k];
    w.(pool := w.pool.(slots := w.pool.slots[i := w.pool.slots[i].(data := data)]), store := w.store[k := data],
       unsaved := if w.pool.slots[i].dirty then w.unsaved else w.unsaved + {k})
  }

  lemma StoreCoherent(w: World, k: Key, data: Page)
    requires Coherent(w) && k in w.pool.table && w.pool.table[k] < |w.pool.slots| && w.pool.slots[w.pool.table[k]].pin > 0
    ensures Coherent(Written(w, k, data))
  {
    hide Lists, Elems;
    var p, i := w.pool, w.pool.table[k];
    Resident(p, k);
    var w' := Written(w, k, data);
    var q := w'.pool;
    SlotChangeValid(p, i, q.slots[i]);
    forall k'
      ensures Seen(q, k') == Find(w'.store, k')
    {
      assert Seen(p, k') == Find(w.store, k');
    }
    forall j | j in Elems(q.used) && j < |q.slots|
      ensures SlotSaved(q, w'.unsaved, q.slots[j])
    {
      assert SlotSaved(p, w.unsaved, p.slots[j]);
      assert j != i ==> p.slots[j].key != k;
    }
  }

  lemma ReleaseCoherent(w: World, i: nat)
    requires Coherent(w) && i in Elems(w.pool.used) && i < |w.pool.slots| && w.pool.slots[i].pin <= 0
    ensures Coherent(w.(pool := ReleaseSlot(w.pool, i)))
  {
    hide Lists;
    var p := w.pool;
    var q := ReleaseSlot(p, i);
    ReleaseValid(p, i);
    ReleaseSeen(w, i);
    OthersSaved(p, q, w.unsaved, i);
    hide Index, Elems, Seen, SaveSlot, Without;
    assert Elems(q.used) - {i} == Elems(q.used);
  }

  lemma ReleaseSeen(w: World, i: nat)
    requires Coherent(w) && i in Elems(w.pool.used) && i < |w.pool.slots| && w.pool.slots[i].pin <= 0
    ensures SameAsStore(ReleaseSlot(w.pool, i), w.store) && UnsavedPinned(ReleaseSlot(w.pool, i), w.unsaved)
  {
    hide Lists, Elems, Without;
    var p := w.pool;
    var q := ReleaseSlot(p, i);
    assert SlotSaved(p, w.unsaved, p.slots[i]);
    forall k
      ensures Seen(q, k) == Seen(p, k)
    {
    }
  }

  lemma {:induction false} FlushCoherent(w: World, fd: int, i: nat)
    requires Coherent(w)
    ensures Coherent(w.(pool := FlushFrom(w.pool, fd, i, true).0))
    decreases |w.pool.slots| - i
  {
    hide Coherent;
    var p := w.pool;
    if i < |p.slots| {
      if p.slots[i].key.fd == fd && i in p.used {
        if p.slots[i].pin <= 0 {
          assert i in Elems(p.used);
          ReleaseCoherent(w, i);
          FlushCoherent(w.(pool := ReleaseSlot(p, i)), fd, i + 1);
        }
      } else {
        FlushCoherent(w, fd, i + 1);
      }
    }
  }

  lemma SaveCoherent(w: World, i: nat)
    requires Coherent(w) && i in Elems(w.pool.used) && i < |w.pool.slots| && w.pool.slots[i].dirty
    ensures Coherent(w.(pool := w.pool.(slots := w.pool.slots[i := w.pool.slots[i].(dirty := false)], disk := SaveSlot(w.pool, i))))
  {
    hide Lists, Elems;
    var p := w.pool;
    SlotChangeValid(p, i, p.slots[i].(dirty := false));
    var q := p.(slots := p.slots[i := p.slots[i].(dirty := false)], disk := SaveSlot(p, i));
    assert Valid(q);
    OthersSaved(p, q, w.unsaved, i);
    forall k
      ensures Seen(q, k) == Seen(p, k)
    {
    }
  }

  lemma {:induction false} ForceCoherent(w: World, fd: int, page: int, n: nat)
    requires Coherent(w)
    ensures Coherent(w.(pool := ForceFrom(w.pool, fd, page, n)))
    decreases |w.pool.used| - n
  {
    hide Lists;
    var p := w.pool;
    if n < |p.used| {
      var i := p.used[n];
      assert i in Elems(p.used);
      if Forced(p.slots[i], fd, page) {
        SaveCoherent(w, i);
        ForceCoherent(w.(pool := p.(slots := p.slots[i := p.slots[i].(dirty := false)], disk := SaveSlot(p, i))), fd, page, n + 1);
      } else {
        ForceCoherent(w, fd, page, n + 1);
      }
    }
  }

  lemma StepCoherent(w: World, op: Op)
    requires Coherent(w) && Disciplined(w, op)
    ensures Coherent(Step(w, op))
  {
    match op
    case Get(_, _) => GetCoherent(w, op);
    case Allocate(_) => AllocateCoherent(w, op);
    case Write(_, _) => WriteCoherent(w, op);
    case Dirty(_) => DirtyCoherent(w, op);
    case Unpin(_) => UnpinCoherent(w, op);
    case Flush(fd) => FlushCoherent(w, fd, 0);
    case Force(fd, page) => ForceCoherent(w, fd, page, 0);
  }
}
