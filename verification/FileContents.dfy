/** What the operations on an open file do to page contents (io/file_handle.cc, through
    io/buffer_manager.cc).  Each is a series of cache operations that follows the rule of PoolRuns: what it
    writes it marks before it lets go.  So every page goes on showing what a plain store would hold.
 */
module FileContents {
  import opened Basics
  import opened Pool
  import opened Links
  import opened FileHandle
  import opened FileRuns
  import opened PoolRuns

  /** The cache shows the plain store, and only pinned pages have changes that are not marked. */
  ghost predicate Shows(p: Pool, store: map<Key, Page>, unsaved: set<Key>) {
    Coherent(World(p, store, unsaved, map[], 0))
  }

  // ----- the cache operations

  lemma ShowsStep(p: Pool, store: map<Key, Page>, unsaved: set<Key>, op: Op)
    requires Shows(p, store, unsaved) && Disciplined(World(p, store, unsaved, map[], 0), op)
    ensures var w := Step(World(p, store, unsaved, map[], 0), op); Shows(w.pool, w.store, w.unsaved)
  {
    hide Lists, Index, Step, Disciplined;
    StepCoherent(World(p, store, unsaved, map[], 0), op);
  }

  lemma ShowsInRange(p: Pool, store: map<Key, Page>, unsaved: set<Key>)
    requires Shows(p, store, unsaved)
    ensures InRange(p)
  {
  }

  lemma ShowsGet(p: Pool, store: map<Key, Page>, unsaved: set<Key>, k: Key, multiplePins: bool)
    requires Shows(p, store, unsaved) && k in store
    ensures Shows(GetPage(p, k, multiplePins).0, store, unsaved)
  {
    hide Lists, Index, Below, Coherent, Touch, Grab, Install;
    ShowsInRange(p, store, unsaved);
    ShowsStep(p, store, unsaved, Get(k, multiplePins));
  }

  lemma ShowsUnpin(p: Pool, store: map<Key, Page>, unsaved: set<Key>, k: Key)
    requires Shows(p, store, unsaved) && (PinsOf(p, k, 1) ==> k !in unsaved)
    ensures Shows(UnpinPage(p, k).0, store, unsaved)
  {
    hide Lists, Index, Below, Coherent, Touch, Grab, Install;
    ShowsInRange(p, store, unsaved);
    ShowsStep(p, store, unsaved, Unpin(k));
  }

  lemma ShowsDirty(p: Pool, store: map<Key, Page>, unsaved: set<Key>, k: Key)
    requires Shows(p, store, unsaved)
    ensures Shows(MarkDirty(p, k).0, store, if k in p.table then unsaved - {k} else unsaved)
  {
    hide Lists, Index, Below, Coherent, Touch, Grab, Install;
    ShowsInRange(p, store, unsaved);
    ShowsStep(p, store, unsaved, Dirty(k));
  }

  lemma ShowsWrite(p: Pool, store: map<Key, Page>, unsaved: set<Key>, k: Key, data: Page)
    requires Shows(p, store, unsaved)
    ensures var (q, r) := WritePage(p, k, data);
      if r.Ok? then Shows(q, store[k := data], if IsDirty(p, k) then unsaved else unsaved + {k})
      else q == p
  {
    hide Lists, Index, Below, Coherent, Touch, Grab, Install;
    ShowsInRange(p, store, unsaved);
    ShowsStep(p, store, unsaved, Write(k, data));
  }

  /** Store through the pointer, then mark: nothing is left unmarked. */
  lemma ShowsStore(p: Pool, store: map<Key, Page>, unsaved: set<Key>, k: Key, data: Page)
    requires Shows(p, store, unsaved) && k in p.table && Pins(p, k) > 0
    ensures Shows(StoreAndMark(p, k, data), store[k := data], unsaved - {k})
  {
    hide Lists, Index, Shows;
    assert Valid(p) by { ShowsValid(p, store, unsaved); }
    ShowsWrite(p, store, unsaved, k, data);
    var q := WritePage(p, k, data).0;
    var unsaved' := if IsDirty(p, k) then unsaved else unsaved + {k};
    ShowsDirty(q, store[k := data], unsaved', k);
    assert unsaved' - {k} == unsaved - {k};
  }

  lemma ShowsValid(p: Pool, store: map<Key, Page>, unsaved: set<Key>)
    requires Shows(p, store, unsaved)
    ensures Valid(p) && forall k :: Seen(p, k) == Find(store, k)
    ensures forall k :: k in unsaved ==> Pins(p, k) > 0
  {
  }

  lemma ShowsAllocate(p: Pool, store: map<Key, Page>, unsaved: set<Key>, k: Key)
    requires Shows(p, store, unsaved)
    ensures var (q, r) := AllocatePage(p, k);
      if r.Ok? then r.slot < |q.slots| && Shows(q, store[k := q.slots[r.slot].data], unsaved + {k}) else q == p
  {
    hide Lists, Index;
    GrabInRange(p);
    ShowsStep(p, store, unsaved, PoolRuns.Allocate(k));
  }

  // ----- the plain store of a file

  /** What an operation with this outcome does to the plain store: allocation clears a page, disposal
      threads it onto the free list, a write replaces its body, and nothing else changes anything. */
  function StoreAfter(store: map<Key, Page>, h: Handle, op: FileOp, r: Found): map<Key, Page> {
    if r.Failed? then store
    else
      match op
      case NewPage(_) => store[At(h, r.page) := Page(PAGE_USED, Zeros())]
      case DisposePage(_, page) =>
        if At(h, page) in store then store[At(h, page) := store[At(h, page)].(next := h.header.firstFree)] else store
      case WriteBody(_, page, body) =>
        if At(h, page) in store then store[At(h, page) := store[At(h, page)].(body := body)] else store
      case _ => store
  }

  /** The pages whose body was written and not marked since. */
  function UnsavedAfter(p: Pool, unsaved: set<Key>, h: Handle, op: FileOp, r: Found): set<Key> {
    if r.Failed? then unsaved
    else
      match op
      case WriteBody(_, page, _) => if IsDirty(p, At(h, page)) then unsaved else unsaved + {At(h, page)}
      case MarkPage(_, page) => unsaved - {At(h, page)}
      case _ => unsaved
  }

  /** The one rule for clients: a body that was written is marked before the page's last unpin. */
  predicate Careful(p: Pool, unsaved: set<Key>, h: Handle, op: FileOp) {
    op.UnpinThis? && PinsOf(p, At(h, op.page), 1) ==> At(h, op.page) !in unsaved
  }

  lemma AllocateShows(p: Pool, h: Handle, chain: seq<int>, store: map<Key, Page>, unsaved: set<Key>)
    requires FileOk(p, h, chain) && h.open && Shows(p, store, unsaved)
    ensures var (q, h', r) := FileHandle.Allocate(p, h);
      Shows(q, StoreAfter(store, h, NewPage(h.fd), r), unsaved)
  {
    hide Lists, Index, LinksSaved, Shows;
    ShowsValid(p, store, unsaved);
    if chain == [] {
      AllocateEndShows(p, h, chain, store, unsaved);
    } else {
      AllocateListShows(p, h, chain, store, unsaved);
    }
  }

  lemma AllocateListShows(p: Pool, h: Handle, chain: seq<int>, store: map<Key, Page>, unsaved: set<Key>)
    requires FileOk(p, h, chain) && h.open && Shows(p, store, unsaved) && chain != []
    ensures var (q, h', r) := FileHandle.Allocate(p, h);
      Shows(q, StoreAfter(store, h, NewPage(h.fd), r), unsaved)
  {
    hide Lists, Index, LinksSaved, Shows, StoreAndMark, GetPage;
    ShowsValid(p, store, unsaved);
    var k := At(h, chain[0]);
    assert chain[0] in chain;
    GetValid(p, k, true);
    GetLinks(p, k, true);
    ShowsGet(p, store, unsaved, k, true);
    var (q, r) := GetPage(p, k, true);
    if r.Ok? {
      ShowsStore(q, store, unsaved, k, Page(PAGE_USED, Zeros()));
      assert unsaved - {k} == unsaved;
    }
  }

  lemma AllocateEndShows(p: Pool, h: Handle, chain: seq<int>, store: map<Key, Page>, unsaved: set<Key>)
    requires FileOk(p, h, chain) && h.open && Shows(p, store, unsaved) && chain == []
    ensures var (q, h', r) := FileHandle.Allocate(p, h);
      Shows(q, StoreAfter(store, h, NewPage(h.fd), r), unsaved)
  {
    hide Lists, Index, LinksSaved, Shows, StoreAndMark, Below, Distinct, Link, Grab, Install, Zeros;
    ShowsValid(p, store, unsaved);
    var k := At(h, h.header.pageNum);
    assert k !in p.table && k !in unsaved;
    AllocateValid(p, k);
    AllocateLinks(p, k, Page(PAGE_USED, Zeros()));
    ShowsAllocate(p, store, unsaved, k);
    var (q, r) := AllocatePage(p, k);
    if r.Ok? {
      var stale := q.slots[r.slot].data;
      ShowsStore(q, store[k := stale], unsaved + {k}, k, Page(PAGE_USED, Zeros()));
      assert unsaved + {k} - {k} == unsaved;
      assert store[k := stale][k := Page(PAGE_USED, Zeros())] == store[k := Page(PAGE_USED, Zeros())];
    }
  }

  lemma DisposeShows(p: Pool, h: Handle, page: int, chain: seq<int>, store: map<Key, Page>, unsaved: set<Key>)
    requires FileOk(p, h, chain) && h.open && Shows(p, store, unsaved)
    ensures var (q, h', r) := Dispose(p, h, page);
      Shows(q, StoreAfter(store, h, FileOp.DisposePage(h.fd, page), r), unsaved)
  {
    hide Lists, Index, LinksSaved, Shows, StoreAndMark, GetPage;
    ShowsValid(p, store, unsaved);
    if ValidPage(h, page) {
      var k := At(h, page);
      GetValid(p, k, false);
      GetLinks(p, k, false);
      ShowsGet(p, store, unsaved, k, false);
      var (q, r) := GetPage(p, k, false);
      if r.Ok? {
        assert k !in unsaved;
        SlotContents(q, k, r.slot, store, unsaved);
        if Next(q, r) != PAGE_USED {
          ShowsUnpin(q, store, unsaved, k);
        } else {
          var data := Page(h.header.firstFree, q.slots[r.slot].data.body);
          ShowsStore(q, store, unsaved, k, data);
          assert unsaved - {k} == unsaved;
          StoreAndMarkValid(q, k, data);
          ShowsUnpin(StoreAndMark(q, k, data), store[k := data], unsaved, k);
        }
      }
    }
  }

  lemma SlotContents(q: Pool, k: Key, i: nat, store: map<Key, Page>, unsaved: set<Key>)
    requires Shows(q, store, unsaved) && k in q.table && q.table[k] == i && i < |q.slots|
    ensures k in store && store[k] == q.slots[i].data
  {
    assert Seen(q, k) == Find(store, k);
  }

  lemma GetThisShows(p: Pool, h: Handle, page: int, chain: seq<int>, store: map<Key, Page>, unsaved: set<Key>)
    requires FileOk(p, h, chain) && h.open && Shows(p, store, unsaved)
    ensures Shows(GetThis(p, h, page).0, store, unsaved)
  {
    hide Lists, Index, LinksSaved, Shows, GetPage;
    ShowsValid(p, store, unsaved);
    if ValidPage(h, page) {
      var k := At(h, page);
      GetValid(p, k, true);
      GetLinks(p, k, true);
      ShowsGet(p, store, unsaved, k, true);
      var (q, r) := GetPage(p, k, true);
      if r.Ok? && Next(q, r) != PAGE_USED {
        SlotLink(q, k);
        assert k !in unsaved;
        ShowsUnpin(q, store, unsaved, k);
      }
    }
  }

  lemma {:induction false} NextShows(p: Pool, h: Handle, g: int, chain: seq<int>, store: map<Key, Page>, unsaved: set<Key>)
    requires FileOk(p, h, chain) && h.open && 0 <= g && Shows(p, store, unsaved)
    ensures Shows(NextFrom(p, h, g, chain).0, store, unsaved)
    decreases h.header.pageNum - g
  {
    hide Lists, Index, LinksSaved, FreeList, Readable, OnlyOwnPages, PinnedInUse, GetThis, Shows;
    if g < h.header.pageNum {
      GetThisShows(p, h, g, chain, store, unsaved);
      GetThisStays(p, h, g, chain);
      var (q, r) := GetThis(p, h, g);
      if r.Failed? {
        NextShows(q, h, g + 1, chain, store, unsaved);
      }
    }
  }

  lemma {:induction false} PrevShows(p: Pool, h: Handle, g: int, chain: seq<int>, store: map<Key, Page>, unsaved: set<Key>)
    requires FileOk(p, h, chain) && h.open && -1 <= g < h.header.pageNum && Shows(p, store, unsaved)
    ensures Shows(PrevFrom(p, h, g, chain).0, store, unsaved)
    decreases g + 1
  {
    hide Lists, Index, LinksSaved, FreeList, Readable, OnlyOwnPages, PinnedInUse, GetThis, Shows;
    if g >= 0 {
      GetThisShows(p, h, g, chain, store, unsaved);
      GetThisStays(p, h, g, chain);
      var (q, r) := GetThis(p, h, g);
      if r.Failed? {
        PrevShows(q, h, g - 1, chain, store, unsaved);
      }
    }
  }

  lemma BodyShows(p: Pool, h: Handle, page: int, body: seq<int>, store: map<Key, Page>, unsaved: set<Key>)
    requires Shows(p, store, unsaved)
    ensures var (q, r) := StoreBody(p, At(h, page), body); var op := WriteBody(h.fd, page, body);
      Shows(q, StoreAfter(store, h, op, Outcome(page, r)), UnsavedAfter(p, unsaved, h, op, Outcome(page, r)))
  {
    hide Lists, Index, Shows;
    ShowsValid(p, store, unsaved);
    var k := At(h, page);
    if k in store {
      assert Seen(p, k) == Some(store[k]);
      ShowsWrite(p, store, unsaved, k, store[k].(body := body));
    }
  }

  /** Every operation on an open file keeps the cache showing the plain store, whatever its outcome. */
  lemma ActShows(p: Pool, h: Handle, op: FileOp, chain: seq<int>, store: map<Key, Page>, unsaved: set<Key>)
    requires FileOk(p, h, chain) && h.open && Shows(p, store, unsaved) && Careful(p, unsaved, h, op)
    ensures var (q, h', r) := Act(p, h, op, chain);
      Shows(q, StoreAfter(store, h, op, r), UnsavedAfter(p, unsaved, h, op, r))
  {
    hide FileOk, Shows, GetThis, NextFrom, PrevFrom, StoreBody, Dispose, FileHandle.Allocate, FlushFrom, ForceFrom;
    match op
    case NewPage(_) => AllocateShows(p, h, chain, store, unsaved);
    case DisposePage(_, page) => DisposeShows(p, h, page, chain, store, unsaved);
    case GetThisPage(_, page) => GetThisShows(p, h, page, chain, store, unsaved);
    case NextPage(_, current) =>
      if current == -1 || ValidPage(h, current) {
        NextShows(p, h, current + 1, chain, store, unsaved);
      }
    case PrevPage(_, current) =>
      if current == h.header.pageNum || ValidPage(h, current) {
        PrevShows(p, h, current - 1, chain, store, unsaved);
      }
    case WriteBody(_, page, body) => BodyShows(p, h, page, body, store, unsaved);
    case MarkPage(_, page) => ShowsDirty(p, store, unsaved, At(h, page));
    case UnpinThis(_, page) => ShowsUnpin(p, store, unsaved, At(h, page));
    case FlushFile(_) => ShowsStep(p, store, unsaved, PoolRuns.Flush(h.fd));
    case Close(_) => ShowsStep(p, store, unsaved, PoolRuns.Flush(h.fd));
    case ForceFile(_, page) => ShowsStep(p, store, unsaved, Force(h.fd, page));
    case _ =>
  }

  /** When the client's own steps succeed: a pinned page takes a new body and can be unpinned, and a page that
      is cached can be marked. */
  lemma ClientOutcomes(p: Pool, h: Handle, page: int, body: seq<int>, chain: seq<int>)
    requires FileOk(p, h, chain) && h.open
    ensures var (q, _, r) := Act(p, h, WriteBody(h.fd, page, body), chain);
      && (r.Found? <==> Pins(p, At(h, page)) > 0)
      && (r.Found? ==> Seen(p, At(h, page)).Some? && Seen(q, At(h, page)) == Some(Seen(p, At(h, page)).value.(body := body)))
    ensures Act(p, h, MarkPage(h.fd, page), chain).2.Found? <==> At(h, page) in p.table
    ensures Act(p, h, UnpinThis(h.fd, page), chain).2.Found? <==> Pins(p, At(h, page)) > 0
  {
    hide Lists, LinksSaved, FreeList, PinnedInUse, Elems;
    var k := At(h, page);
    if k in p.table {
      ResidentSlot(p, k);
      assert ValidPage(h, k.page);
    }
  }
}
