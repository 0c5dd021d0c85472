/** The page allocator of io/file_handle.cc.  An open file keeps a header in memory, with the number of
    its pages and the first free one; the other free pages are linked through the headers of the pages
    themselves, which are read and written through the cache.
 */
module FileHandle {
  import opened Basics
  import opened Pool
  import opened Links

  const PAGE_LIST_END := -1
  const PAGE_USED := -2

  /** What `memset` leaves behind the page header. */
  function Zeros(): (body: seq<int>)
    ensures |body| == 4092 && forall i :: 0 <= i < |body| ==> body[i] == 0
  {
    seq(4092, _ => 0)
  }

  datatype Header = Header(firstFree: int, pageNum: nat)

  datatype Handle = Handle(fd: int, header: Header, open: bool, changed: bool)

  datatype FileError = Closed | InvalidPage | AlreadyFree | Cache(error: Error) | EndOfFile

  datatype Found = Found(page: int, slot: nat) | Failed(error: FileError)

  predicate ValidPage(h: Handle, page: int) {
    0 <= page < h.header.pageNum
  }

  function At(h: Handle, page: int): Key {
    Key(h.fd, page)
  }

  function StoreAndMark(p: Pool, k: Key, data: Page): Pool
    requires Valid(p)
  {
    WriteValid(p, k, data);
    MarkDirty(WritePage(p, k, data).0, k).0
  }

  function Next(p: Pool, r: Result): int
    requires r.Ok?
  {
    if r.slot < |p.slots| then p.slots[r.slot].data.next else PAGE_LIST_END
  }

  // ----- the operations

  function Allocate(p: Pool, h: Handle): (Pool, Handle, Found)
    requires Valid(p)
  {
    if !h.open then (p, h, Failed(Closed))
    else if h.header.firstFree != PAGE_LIST_END then
      var page := h.header.firstFree;
      var (q, r) := GetPage(p, At(h, page), true);
      GetValid(p, At(h, page), true);
      if r.Err? then (q, h, Failed(Cache(r.error)))
      else
        var h' := h.(header := h.header.(firstFree := Next(q, r)), changed := true);
        Hand(q, h', page, r.slot)
    else
      var page := h.header.pageNum;
      var (q, r) := AllocatePage(p, At(h, page));
      AllocateValid(p, At(h, page));
      if r.Err? then (q, h, Failed(Cache(r.error)))
      else
        var h' := h.(header := h.header.(pageNum := h.header.pageNum + 1), changed := true);
        Hand(q, h', page, r.slot)
  }

  /** Mark the page used, clear the rest of it, and hand it out. */
  function Hand(q: Pool, h: Handle, page: int, slot: nat): (Pool, Handle, Found)
    requires Valid(q)
  {
    if !ValidPage(h, page) then (WritePage(q, At(h, page), Page(PAGE_USED, Zeros())).0, h, Failed(InvalidPage))
    else (StoreAndMark(q, At(h, page), Page(PAGE_USED, Zeros())), h, Found(page, slot))
  }

  function Dispose(p: Pool, h: Handle, page: int): (Pool, Handle, Found)
    requires Valid(p)
  {
    if !h.open then (p, h, Failed(Closed))
    else if !ValidPage(h, page) then (p, h, Failed(InvalidPage))
    else
      var k := At(h, page);
      var (q, r) := GetPage(p, k, false);
      GetValid(p, k, false);
      if r.Err? then (q, h, Failed(Cache(r.error)))
      else if Next(q, r) != PAGE_USED then (UnpinPage(q, k).0, h, Failed(AlreadyFree))
      else
        var body := if r.slot < |q.slots| then q.slots[r.slot].data.body else [];
        var z := StoreAndMark(q, k, Page(h.header.firstFree, body));
        StoreAndMarkValid(q, k, Page(h.header.firstFree, body));
        (UnpinPage(z, k).0, h.(header := h.header.(firstFree := page), changed := true), Found(page, r.slot))
  }

  lemma StoreAndMarkValid(p: Pool, k: Key, data: Page)
    requires Valid(p)
    ensures Valid(StoreAndMark(p, k, data))
  {
    hide Lists, Index;
    WriteValid(p, k, data);
    MarkDirtyValid(WritePage(p, k, data).0, k);
  }

  function GetThis(p: Pool, h: Handle, page: int): (Pool, Found)
    requires Valid(p)
  {
    if !h.open then (p, Failed(Closed))
    else if !ValidPage(h, page) then (p, Failed(InvalidPage))
    else
      var k := At(h, page);
      var (q, r) := GetPage(p, k, true);
      GetValid(p, k, true);
      if r.Err? then (q, Failed(Cache(r.error)))
      else if Next(q, r) == PAGE_USED then (q, Found(page, r.slot))
      else (UnpinPage(q, k).0, Failed(InvalidPage))
  }

  // ----- the free list

  /** Following the links from `first` visits `chain` and ends. */
  ghost predicate Chained(p: Pool, fd: int, first: int, chain: seq<int>)
    decreases |chain|
  {
    if chain == [] then first == PAGE_LIST_END
    else first == chain[0] && Link(p, Key(fd, first)).Some? && Chained(p, fd, Link(p, Key(fd, first)).value, chain[1..])
  }

  ghost predicate Distinct(chain: seq<int>) {
    forall i, j :: 0 <= i < j < |chain| ==> chain[i] != chain[j]
  }

  predicate InUse(p: Pool, k: Key) {
    Link(p, k) == Some(PAGE_USED)
  }

  /** The chain has no repetition and visits exactly the file's pages that are not in use. */
  ghost predicate FreeList(p: Pool, h: Handle, chain: seq<int>) {
    && Chained(p, h.fd, h.header.firstFree, chain)
    && Distinct(chain)
    && (forall g :: g in chain <==> ValidPage(h, g) && !InUse(p, At(h, g)))
  }

  ghost predicate Readable(p: Pool, h: Handle) {
    forall g :: ValidPage(h, g) ==> Link(p, At(h, g)).Some?
  }

  ghost predicate OnlyOwnPages(p: Pool, h: Handle) {
    forall k :: k in p.table && k.fd == h.fd ==> ValidPage(h, k.page)
  }

  ghost predicate PinnedInUse(p: Pool, h: Handle) {
    forall g :: Pins(p, At(h, g)) > 0 ==> InUse(p, At(h, g))
  }

  ghost predicate FileOk(p: Pool, h: Handle, chain: seq<int>) {
    PoolOk(p) && Readable(p, h) && FreeList(p, h, chain) && OnlyOwnPages(p, h) && PinnedInUse(p, h)
  }

  /** Only the links of the chain's own pages matter. */
  lemma {:induction false} ChainedFrame(p: Pool, q: Pool, fd: int, first: int, chain: seq<int>)
    requires Chained(p, fd, first, chain)
    requires forall g :: g in chain ==> Link(q, Key(fd, g)) == Link(p, Key(fd, g))
    ensures Chained(q, fd, first, chain)
    decreases |chain|
  {
    if chain != [] {
      assert chain[0] in chain;
      assert forall g :: g in chain[1..] ==> g in chain;
      ChainedFrame(p, q, fd, Link(p, Key(fd, first)).value, chain[1..]);
    }
  }

  /** The file stays in order under anything that keeps the links, brings in no page beyond its end
      and pins no free page. */
  lemma SameLinksOk(p: Pool, q: Pool, h: Handle, chain: seq<int>)
    requires FileOk(p, h, chain) && PoolOk(q) && SameLinks(p, q)
    requires forall k :: k in q.table && k.fd == h.fd ==> k in p.table || ValidPage(h, k.page)
    requires forall g :: Pins(q, At(h, g)) > 0 ==> Pins(p, At(h, g)) > 0 || InUse(p, At(h, g))
    ensures FileOk(q, h, chain)
  {
    hide Lists, Index, LinksSaved;
    ChainedFrame(p, q, h.fd, h.header.firstFree, chain);
  }

  /** Another file's operations leave this one alone. */
  lemma OtherFileOk(p: Pool, q: Pool, h: Handle, chain: seq<int>)
    requires FileOk(p, h, chain) && PoolOk(q)
    requires forall g :: Link(q, At(h, g)) == Link(p, At(h, g)) && Pins(q, At(h, g)) == Pins(p, At(h, g))
    requires forall k :: k in q.table && k.fd == h.fd ==> k in p.table
    ensures FileOk(q, h, chain)
  {
    hide Lists, Index, LinksSaved;
    ChainedFrame(p, q, h.fd, h.header.firstFree, chain);
  }

  // ----- allocation

  lemma HandLinks(p: Pool, k: Key)
    requires PoolOk(p) && k in p.table && Pins(p, k) > 0
    ensures var z := StoreAndMark(p, k, Page(PAGE_USED, Zeros()));
      && PoolOk(z) && (forall k' :: Pins(z, k') == Pins(p, k')) && z.table == p.table
      && InUse(z, k) && Seen(z, k) == Some(Page(PAGE_USED, Zeros())) && (forall k' :: k' != k ==> Link(z, k') == Link(p, k'))
  {
    hide Lists, Index, LinksSaved;
    StoreLinks(p, k, Page(PAGE_USED, Zeros()));
  }

  /** Allocation from the free list takes its head. */
  lemma AllocateFromList(p: Pool, h: Handle, chain: seq<int>)
    requires FileOk(p, h, chain) && h.open && chain != []
    ensures var (q, h', r) := Allocate(p, h);
      match r
      case Found(g, i) =>
        && g == chain[0] && FileOk(q, h', chain[1..])
        && h'.header.pageNum == h.header.pageNum && h'.fd == h.fd && h'.open && h'.changed
        && InUse(q, At(h, g)) && Seen(q, At(h, g)) == Some(Page(PAGE_USED, Zeros()))
        && (forall k :: k != At(h, g) ==> Link(q, k) == Link(p, k) && Pins(q, k) == Pins(p, k))
        && Pins(q, At(h, g)) == 1 && Pins(p, At(h, g)) == 0 && q.table.Keys <= p.table.Keys + {At(h, g)}
        && At(h, g) in q.table && q.table[At(h, g)] == i && (At(h, g) in p.table || Evictable(p))
      case Failed(e) => e == Cache(NoBuffer) && q == p && h' == h && !Evictable(p) && At(h, chain[0]) !in p.table
  {
    hide Lists, Index, LinksSaved;
    var g := chain[0];
    var k := At(h, g);
    assert g in chain;
    GetLinks(p, k, true);
    var (q, r) := GetPage(p, k, true);
    if r.Ok? {
      SlotLink(q, k);
      HandLinks(q, k);
      var z := StoreAndMark(q, k, Page(PAGE_USED, Zeros()));
      PopChain(p, z, h, chain);
      assert Allocate(p, h).0 == z;
    }
  }

  lemma SlotLink(q: Pool, k: Key)
    requires PoolOk(q) && k in q.table
    ensures Link(q, k) == Some(Next(q, Ok(q.table[k])))
  {
    ResidentSlot(q, k);
  }

  lemma PopChain(p: Pool, z: Pool, h: Handle, chain: seq<int>)
    requires FreeList(p, h, chain) && chain != [] && OnlyOwnPages(p, h) && Readable(p, h) && PinnedInUse(p, h)
    requires var k := At(h, chain[0]);
      && InUse(z, k) && z.table.Keys <= p.table.Keys + {k}
      && (forall k' :: k' != k ==> Link(z, k') == Link(p, k') && Pins(z, k') == Pins(p, k'))
    ensures Link(p, At(h, chain[0])).Some?
    ensures var h' := h.(header := h.header.(firstFree := Link(p, At(h, chain[0])).value), changed := true);
      Readable(z, h') && FreeList(z, h', chain[1..]) && OnlyOwnPages(z, h') && PinnedInUse(z, h')
  {
    var h' := h.(header := h.header.(firstFree := Link(p, At(h, chain[0])).value), changed := true);
    assert chain[0] in chain;
    PageChanged(p, z, h, h', chain[0]);
    PopFreeList(p, z, h, h', chain);
  }

  /** One page of the file changes: the others stay readable, own and in use if pinned. */
  lemma PageChanged(p: Pool, z: Pool, h: Handle, h': Handle, g: int)
    requires OnlyOwnPages(p, h) && Readable(p, h) && PinnedInUse(p, h) && ValidPage(h, g)
    requires h'.fd == h.fd && h'.header.pageNum == h.header.pageNum
    requires z.table.Keys <= p.table.Keys + {At(h, g)} && Link(z, At(h, g)).Some? && (Pins(z, At(h, g)) > 0 ==> InUse(z, At(h, g)))
    requires forall k :: k != At(h, g) ==> Link(z, k) == Link(p, k) && Pins(z, k) == Pins(p, k)
    ensures Readable(z, h') && OnlyOwnPages(z, h') && PinnedInUse(z, h')
  {
    hide Link, Pins;
    forall x
      ensures ValidPage(h', x) ==> Link(z, At(h', x)).Some?
      ensures Pins(z, At(h', x)) > 0 ==> InUse(z, At(h', x))
    {
      assert At(h', x) == At(h, x);
      assert x != g ==> Link(z, At(h, x)) == Link(p, At(h, x)) && Pins(z, At(h, x)) == Pins(p, At(h, x));
    }
  }

  lemma PopFreeList(p: Pool, z: Pool, h: Handle, h': Handle, chain: seq<int>)
    requires FreeList(p, h, chain) && chain != [] && InUse(z, At(h, chain[0])) && Link(p, At(h, chain[0])).Some?
    requires forall k :: k != At(h, chain[0]) ==> Link(z, k) == Link(p, k)
    requires h' == h.(header := h.header.(firstFree := Link(p, At(h, chain[0])).value), changed := true)
    ensures FreeList(z, h', chain[1..])
  {
    hide Link;
    var rest := chain[1..];
    TailMembers(chain);
    ChainedFrame(p, z, h.fd, h'.header.firstFree, rest);
    forall g
      ensures g in rest <==> ValidPage(h', g) && !InUse(z, At(h', g))
    {
      assert At(h', g) == At(h, g);
      assert g in chain <==> ValidPage(h, g) && !InUse(p, At(h, g));
      assert g != chain[0] ==> Link(z, At(h, g)) == Link(p, At(h, g));
    }
  }

  lemma TailMembers(chain: seq<int>)
    requires Distinct(chain) && chain != []
    ensures Distinct(chain[1..]) && forall g :: g in chain[1..] <==> g in chain && g != chain[0]
  {
    var rest := chain[1..];
    assert chain == [chain[0]] + rest;
    forall g | g in rest
      ensures g != chain[0]
    {
      var j :| 0 <= j < |rest| && rest[j] == g;
      assert chain[j + 1] == g;
    }
  }

  /** With no free page, allocation appends one. */
  lemma AllocateAtEnd(p: Pool, h: Handle, chain: seq<int>)
    requires FileOk(p, h, chain) && h.open && chain == []
    ensures var (q, h', r) := Allocate(p, h);
      match r
      case Found(g, i) =>
        && g == h.header.pageNum && FileOk(q, h', [])
        && h'.header == h.header.(pageNum := g + 1) && h'.fd == h.fd && h'.open && h'.changed
        && InUse(q, At(h, g)) && Seen(q, At(h, g)) == Some(Page(PAGE_USED, Zeros()))
        && (forall k :: k != At(h, g) ==> Link(q, k) == Link(p, k) && Pins(q, k) == Pins(p, k))
        && Pins(q, At(h, g)) == 1 && Pins(p, At(h, g)) == 0 && q.table.Keys <= p.table.Keys + {At(h, g)}
        && At(h, g) in q.table && q.table[At(h, g)] == i && Evictable(p)
      case Failed(e) => e == Cache(NoBuffer) && q == p && h' == h && !Evictable(p)
  {
    hide Lists, Index, LinksSaved;
    var k := At(h, h.header.pageNum);
    assert k !in p.table;
    AllocateLinks(p, k, Page(PAGE_USED, Zeros()));
    if AllocatePage(p, k).1.Ok? {
      ExtendFile(p, Allocate(p, h).0, h);
    }
  }

  lemma ExtendFile(p: Pool, z: Pool, h: Handle)
    requires FreeList(p, h, []) && OnlyOwnPages(p, h) && Readable(p, h) && PinnedInUse(p, h)
    requires var k := At(h, h.header.pageNum);
      && InUse(z, k) && z.table.Keys <= p.table.Keys + {k}
      && (forall k' :: k' != k ==> Link(z, k') == Link(p, k') && Pins(z, k') == Pins(p, k'))
    ensures var h' := h.(header := h.header.(pageNum := h.header.pageNum + 1), changed := true);
      Readable(z, h') && FreeList(z, h', []) && OnlyOwnPages(z, h') && PinnedInUse(z, h')
  {
    var h' := h.(header := h.header.(pageNum := h.header.pageNum + 1), changed := true);
    forall g
      ensures !(ValidPage(h', g) && !InUse(z, At(h', g)))
    {
      assert g !in [];
      assert At(h', g) == At(h, g);
    }
  }

  /** Allocation never hands out a live page; the page handed out is in use, clear, pinned once, and no longer
      free.  It fails exactly when every slot is pinned and the page to reuse is not cached, and then nothing
      has changed. */
  lemma AllocateOk(p: Pool, h: Handle, chain: seq<int>)
    requires FileOk(p, h, chain) && h.open
    ensures var (q, h', r) := Allocate(p, h);
      match r
      case Found(g, i) =>
        && !(ValidPage(h, g) && InUse(p, At(h, g)))
        && FileOk(q, h', if chain == [] then [] else chain[1..])
        && ValidPage(h', g) && InUse(q, At(h, g)) && Seen(q, At(h, g)) == Some(Page(PAGE_USED, Zeros()))
        && h'.header.pageNum == h.header.pageNum + (if chain == [] then 1 else 0)
        && (forall k :: k != At(h, g) ==> Link(q, k) == Link(p, k) && Pins(q, k) == Pins(p, k))
        && Pins(q, At(h, g)) == 1 && At(h, g) in q.table && q.table[At(h, g)] == i
      case Failed(e) => e == Cache(NoBuffer) && q == p && h' == h
    ensures Allocate(p, h).2.Found? <==> Evictable(p) || (chain != [] && At(h, chain[0]) in p.table)
  {
    hide Lists, Index, LinksSaved, Readable, OnlyOwnPages, PinnedInUse;
    if chain == [] {
      AllocateAtEnd(p, h, chain);
    } else {
      assert chain[0] in chain;
      AllocateFromList(p, h, chain);
    }
  }

  // ----- disposal

  /** Disposing of a page in use, not pinned by anyone, puts it at the head of the free list; disposing
      of a free page changes no link, no pin and no header.  Each outcome has its one cause. */
  lemma DisposeOk(p: Pool, h: Handle, page: int, chain: seq<int>)
    requires FileOk(p, h, chain) && h.open && ValidPage(h, page)
    ensures var (q, h', r) := Dispose(p, h, page);
      && (match r
          case Found(g, _) =>
            && g == page && InUse(p, At(h, page)) && Pins(p, At(h, page)) == 0
            && FileOk(q, h', [page] + chain) && h' == h.(header := h.header.(firstFree := page), changed := true)
            && (forall k :: k != At(h, page) ==> Link(q, k) == Link(p, k))
            && q.table.Keys <= p.table.Keys + {At(h, page)}
          case Failed(AlreadyFree) => !InUse(p, At(h, page)) && SameLinks(p, q) && h' == h && FileOk(q, h, chain)
            && q.table.Keys <= p.table.Keys + {At(h, page)}
          case Failed(e) => (e == Cache(NoBuffer) || e == Cache(StillPinned)) && q == p && h' == h)
      && (forall k :: Pins(q, k) == Pins(p, k))
    ensures var r, k := Dispose(p, h, page).2, At(h, page);
      && (r.Found? <==> InUse(p, k) && Pins(p, k) == 0 && (k in p.table || Evictable(p)))
      && (r == Failed(AlreadyFree) <==> !InUse(p, k) && (k in p.table || Evictable(p)))
      && (r == Failed(Cache(StillPinned)) <==> Pins(p, k) > 0)
      && (r == Failed(Cache(NoBuffer)) <==> k !in p.table && !Evictable(p))
  {
    hide Lists, Index, LinksSaved;
    var k := At(h, page);
    GetLinks(p, k, false);
    var (q, r) := GetPage(p, k, false);
    if r.Ok? {
      SlotLink(q, k);
      if InUse(p, k) {
        DisposeInUse(p, q, h, page, chain);
      } else {
        UnpinLinks(q, k);
        SameLinksOk(p, UnpinPage(q, k).0, h, chain);
      }
    }
  }

  lemma DisposeInUse(p: Pool, q: Pool, h: Handle, page: int, chain: seq<int>)
    requires FileOk(p, h, chain) && ValidPage(h, page) && InUse(p, At(h, page))
    requires PoolOk(q) && SameLinks(p, q) && At(h, page) in q.table && Pins(q, At(h, page)) == Pins(p, At(h, page)) + 1
    requires Pins(p, At(h, page)) == 0 && OtherPins(p, q, At(h, page)) && q.table.Keys <= p.table.Keys + {At(h, page)}
    ensures var k := At(h, page);
      forall body ::
      var z := StoreAndMark(q, k, Page(h.header.firstFree, body));
      Valid(z) &&
      var y := UnpinPage(z, k).0;
      var h' := h.(header := h.header.(firstFree := page), changed := true);
      && FileOk(y, h', [page] + chain)
      && (forall k' :: k' != k ==> Link(y, k') == Link(p, k'))
      && (forall k' :: Pins(y, k') == Pins(p, k'))
      && y.table.Keys <= p.table.Keys + {k}
  {
    var k := At(h, page);
    forall body
      ensures var z := StoreAndMark(q, k, Page(h.header.firstFree, body));
        Valid(z) &&
        var y := UnpinPage(z, k).0;
        var h' := h.(header := h.header.(firstFree := page), changed := true);
        && FileOk(y, h', [page] + chain)
        && (forall k' :: k' != k ==> Link(y, k') == Link(p, k'))
        && (forall k' :: Pins(y, k') == Pins(p, k'))
        && y.table.Keys <= p.table.Keys + {k}
    {
      DisposeBody(p, q, h, page, chain, body);
    }
  }

  lemma DisposeBody(p: Pool, q: Pool, h: Handle, page: int, chain: seq<int>, body: seq<int>)
    requires FileOk(p, h, chain) && ValidPage(h, page) && InUse(p, At(h, page))
    requires PoolOk(q) && SameLinks(p, q) && At(h, page) in q.table && Pins(q, At(h, page)) == Pins(p, At(h, page)) + 1
    requires Pins(p, At(h, page)) == 0 && OtherPins(p, q, At(h, page)) && q.table.Keys <= p.table.Keys + {At(h, page)}
    ensures var k := At(h, page);
      var z := StoreAndMark(q, k, Page(h.header.firstFree, body));
      Valid(z) &&
      var y := UnpinPage(z, k).0;
      var h' := h.(header := h.header.(firstFree := page), changed := true);
      && FileOk(y, h', [page] + chain)
      && (forall k' :: k' != k ==> Link(y, k') == Link(p, k'))
      && (forall k' :: Pins(y, k') == Pins(p, k'))
      && y.table.Keys <= p.table.Keys + {k}
  {
    hide Lists, Index, LinksSaved, Distinct;
    var k := At(h, page);
    StoreLinks(q, k, Page(h.header.firstFree, body));
    var z := StoreAndMark(q, k, Page(h.header.firstFree, body));
    UnpinLinks(z, k);
    PushChain(p, UnpinPage(z, k).0, h, page, chain);
  }

  lemma PushChain(p: Pool, y: Pool, h: Handle, page: int, chain: seq<int>)
    requires FreeList(p, h, chain) && OnlyOwnPages(p, h) && Readable(p, h) && PinnedInUse(p, h)
    requires ValidPage(h, page) && InUse(p, At(h, page)) && Pins(p, At(h, page)) == 0
    requires Link(y, At(h, page)) == Some(h.header.firstFree) && y.table.Keys <= p.table.Keys + {At(h, page)}
    requires forall k' :: k' != At(h, page) ==> Link(y, k') == Link(p, k')
    requires forall k' :: Pins(y, k') == Pins(p, k')
    ensures var h' := h.(header := h.header.(firstFree := page), changed := true);
      Readable(y, h') && FreeList(y, h', [page] + chain) && OnlyOwnPages(y, h') && PinnedInUse(y, h')
  {
    var h' := h.(header := h.header.(firstFree := page), changed := true);
    PageChanged(p, y, h, h', page);
    PushFreeList(p, y, h, h', page, chain);
  }

  lemma PushFreeList(p: Pool, y: Pool, h: Handle, h': Handle, page: int, chain: seq<int>)
    requires FreeList(p, h, chain) && ValidPage(h, page) && InUse(p, At(h, page)) && Link(y, At(h, page)) == Some(h.header.firstFree)
    requires forall k :: k != At(h, page) ==> Link(y, k) == Link(p, k)
    requires h' == h.(header := h.header.(firstFree := page), changed := true)
    ensures FreeList(y, h', [page] + chain)
  {
    hide Link;
    var more := [page] + chain;
    assert more[1..] == chain && page !in chain;
    ChainedFrame(p, y, h.fd, h.header.firstFree, chain);
    FirstNotUsed(p, h, chain);
    forall g
      ensures g in more <==> ValidPage(h', g) && !InUse(y, At(h', g))
    {
      assert At(h', g) == At(h, g);
      assert g in chain <==> ValidPage(h, g) && !InUse(p, At(h, g));
      assert g != page ==> Link(y, At(h, g)) == Link(p, At(h, g));
    }
  }

  lemma FirstNotUsed(p: Pool, h: Handle, chain: seq<int>)
    requires FreeList(p, h, chain)
    ensures h.header.firstFree != PAGE_USED
  {
    if chain != [] {
      assert chain[0] in chain;
    }
  }

  lemma AllocateClosed(p: Pool, h: Handle)
    requires Valid(p) && !h.open
    ensures Allocate(p, h) == (p, h, Failed(Closed))
  {
  }

  lemma DisposeRefused(p: Pool, h: Handle, page: int)
    requires Valid(p) && !(h.open && ValidPage(h, page))
    ensures Dispose(p, h, page) == (p, h, Failed(if h.open then InvalidPage else Closed))
  {
  }

  // ----- access

  ghost predicate SamePins(p: Pool, q: Pool) {
    forall k :: Pins(q, k) == Pins(p, k)
  }

  lemma GetThisOk(p: Pool, h: Handle, page: int, chain: seq<int>)
    requires FileOk(p, h, chain) && h.open && ValidPage(h, page)
    ensures var (q, r) := GetThis(p, h, page);
      && FileOk(q, h, chain) && SameLinks(p, q) && OtherPins(p, q, At(h, page)) && q.table.Keys <= p.table.Keys + {At(h, page)}
      && match r
         case Found(g, i) =>
           && g == page && InUse(p, At(h, page)) && Pins(q, At(h, page)) == Pins(p, At(h, page)) + 1
           && At(h, page) in q.table && q.table[At(h, page)] == i && i < |q.slots|
           && (Evictable(p) && Pins(p, At(h, page)) > 0 ==> Evictable(q)) && (At(h, page) in p.table || Evictable(p))
         case Failed(InvalidPage) => !InUse(p, At(h, page)) && SamePins(p, q) && Evictable(p) && Evictable(q)
         case Failed(e) => e == Cache(NoBuffer) && q == p && !Evictable(p) && At(h, page) !in p.table
  {
    hide Lists, Index, LinksSaved, FreeList, OnlyOwnPages, Link, Pins, Evictable;
    var k := At(h, page);
    GetLinks(p, k, true);
    var (q, r) := GetPage(p, k, true);
    if r.Ok? {
      SlotLink(q, k);
      if InUse(p, k) {
        SameLinksOk(p, q, h, chain);
      } else {
        GetFreePage(p, q, h, page, chain);
      }
    }
  }

  /** A page that is not in use is let go again. */
  lemma GetFreePage(p: Pool, q: Pool, h: Handle, page: int, chain: seq<int>)
    requires FileOk(p, h, chain) && ValidPage(h, page) && !InUse(p, At(h, page))
    requires PoolOk(q) && SameLinks(p, q) && OtherPins(p, q, At(h, page)) && q.table.Keys <= p.table.Keys + {At(h, page)}
    requires At(h, page) in q.table && Pins(q, At(h, page)) == Pins(p, At(h, page)) + 1 > 0 && (At(h, page) in p.table || Evictable(p))
    ensures var z := UnpinPage(q, At(h, page)).0;
      FileOk(z, h, chain) && SameLinks(p, z) && SamePins(p, z) && Evictable(p) && Evictable(z) && z.table == q.table
  {
    hide Lists, Index, LinksSaved, FreeList, Link, Pins, Evictable;
    var k := At(h, page);
    UnpinLinks(q, k);
    SameLinksOk(p, UnpinPage(q, k).0, h, chain);
    UnpinnedEvictable(UnpinPage(q, k).0, k);
    if k in p.table {
      ResidentSlot(p, k);
      UnpinnedEvictable(p, k);
    }
  }

  lemma UnpinnedEvictable(p: Pool, k: Key)
    requires PoolOk(p) && k in p.table && Pins(p, k) == 0
    ensures Evictable(p)
  {
    ResidentSlot(p, k);
  }

  lemma GetThisStays(p: Pool, h: Handle, page: int, chain: seq<int>)
    requires FileOk(p, h, chain) && h.open && ValidPage(h, page)
    ensures FileOk(GetThis(p, h, page).0, h, chain)
  {
    GetThisOk(p, h, page, chain);
  }

  /** The loop of `get_next_page` from page `g` on: pages that cannot be had are skipped. */
  function NextFrom(p: Pool, h: Handle, g: int, ghost chain: seq<int>): (Pool, Found)
    requires FileOk(p, h, chain) && h.open && 0 <= g
    decreases h.header.pageNum - g
  {
    if g >= h.header.pageNum then (p, Failed(EndOfFile))
    else
      var (q, r) := GetThis(p, h, g);
      GetThisStays(p, h, g, chain);
      if r.Found? then (q, r) else NextFrom(q, h, g + 1, chain)
  }

  function PrevFrom(p: Pool, h: Handle, g: int, ghost chain: seq<int>): (Pool, Found)
    requires FileOk(p, h, chain) && h.open && -1 <= g < h.header.pageNum
    decreases g + 1
  {
    if g < 0 then (p, Failed(EndOfFile))
    else
      var (q, r) := GetThis(p, h, g);
      GetThisStays(p, h, g, chain);
      if r.Found? then (q, r) else PrevFrom(q, h, g - 1, chain)
  }

  function GetNext(p: Pool, h: Handle, current: int, ghost chain: seq<int>): (Pool, Found)
    requires FileOk(p, h, chain)
  {
    if !h.open then (p, Failed(Closed))
    else if current != -1 && !ValidPage(h, current) then (p, Failed(InvalidPage))
    else NextFrom(p, h, current + 1, chain)
  }

  function GetPrev(p: Pool, h: Handle, current: int, ghost chain: seq<int>): (Pool, Found)
    requires FileOk(p, h, chain)
  {
    if !h.open then (p, Failed(Closed))
    else if current != h.header.pageNum && !ValidPage(h, current) then (p, Failed(InvalidPage))
    else PrevFrom(p, h, current - 1, chain)
  }

  /** Access to a closed file or to a page that is not there is refused, and changes nothing. */
  lemma AccessRefused(p: Pool, h: Handle, page: int, chain: seq<int>)
    requires FileOk(p, h, chain)
    ensures !h.open ==>
      GetThis(p, h, page) == GetNext(p, h, page, chain) == GetPrev(p, h, page, chain) == (p, Failed(Closed))
    ensures h.open && !ValidPage(h, page) ==>
      && GetThis(p, h, page) == (p, Failed(InvalidPage))
      && (page != -1 ==> GetNext(p, h, page, chain) == (p, Failed(InvalidPage)))
      && (page != h.header.pageNum ==> GetPrev(p, h, page, chain) == (p, Failed(InvalidPage)))
  {
    hide FileOk, NextFrom, PrevFrom;
  }

  /** A page that the scan can get: in use, and cached if no slot is free or evictable. */
  ghost predicate Obtainable(p: Pool, h: Handle, g: int) {
    InUse(p, At(h, g)) && (Evictable(p) || At(h, g) in p.table)
  }

  /** A step of the scan: what was found, pinned once more, and nothing else pinned or unpinned. */
  ghost predicate Stepped(p: Pool, h: Handle, q: Pool, r: Found, chain: seq<int>) {
    && FileOk(q, h, chain) && SameLinks(p, q) && (forall k :: k in q.table && k.fd != h.fd ==> k in p.table)
    && (r.Found? ==>
          && ValidPage(h, r.page) && Obtainable(p, h, r.page)
          && OtherPins(p, q, At(h, r.page)) && Pins(q, At(h, r.page)) == Pins(p, At(h, r.page)) + 1
          && At(h, r.page) in q.table && (Evictable(p) && Pins(p, At(h, r.page)) > 0 ==> Evictable(q)))
    && (r.Failed? ==> SamePins(p, q) && (Evictable(p) ==> Evictable(q)))
  }

  /** A page that cannot be had changes nothing that the rest of the scan can see. */
  lemma Skipped(p: Pool, h: Handle, g: int, chain: seq<int>)
    requires FileOk(p, h, chain) && h.open && ValidPage(h, g) && !Obtainable(p, h, g)
    ensures var (q, r) := GetThis(p, h, g);
      && r.Failed? && FileOk(q, h, chain) && SameLinks(p, q) && SamePins(p, q)
      && (forall k :: k in q.table && k.fd != h.fd ==> k in p.table)
      && (if Evictable(p) then Evictable(q) else q == p)
      && forall x :: Obtainable(q, h, x) == Obtainable(p, h, x)
  {
    hide Lists, Index, LinksSaved, FreeList;
    GetThisOk(p, h, g, chain);
  }

  lemma AfterSkip(p: Pool, q: Pool, h: Handle, z: Pool, r: Found, chain: seq<int>)
    requires SameLinks(p, q) && SamePins(p, q) && (forall k :: k in q.table && k.fd != h.fd ==> k in p.table)
    requires (if Evictable(p) then Evictable(q) else q == p) && Stepped(q, h, z, r, chain)
    ensures Stepped(p, h, z, r, chain)
  {
    hide FileOk, Evictable, Pins;
  }

  lemma ThisObtained(p: Pool, h: Handle, g: int, chain: seq<int>)
    requires FileOk(p, h, chain) && h.open && ValidPage(h, g) && Obtainable(p, h, g)
    ensures var (q, r) := GetThis(p, h, g);
      r.Found? && r.page == g && Stepped(p, h, q, r, chain)
  {
    hide Lists, Index, LinksSaved, FreeList;
    GetThisOk(p, h, g, chain);
  }

  /** The next page found is the first that can be had: the first in use, with an evictable slot; with
      every slot pinned, the first in use that is cached. */
  lemma {:induction false} NextFromOk(p: Pool, h: Handle, g: int, chain: seq<int>)
    requires FileOk(p, h, chain) && h.open && 0 <= g
    ensures var (q, r) := NextFrom(p, h, g, chain);
      && Stepped(p, h, q, r, chain)
      && (r.Found? ==> g <= r.page && forall x :: g <= x < r.page ==> !Obtainable(p, h, x))
      && (r.Failed? ==> r.error == EndOfFile && forall x :: g <= x < h.header.pageNum ==> !Obtainable(p, h, x))
    decreases h.header.pageNum - g
  {
    hide Lists, Index, LinksSaved, FreeList, OnlyOwnPages, PinnedInUse, GetThis, Obtainable;
    if g < h.header.pageNum {
      if Obtainable(p, h, g) {
        ThisObtained(p, h, g, chain);
      } else {
        Skipped(p, h, g, chain);
        var q := GetThis(p, h, g).0;
        NextFromOk(q, h, g + 1, chain);
        var (z, r) := NextFrom(q, h, g + 1, chain);
        AfterSkip(p, q, h, z, r, chain);
      }
    }
  }

  lemma {:induction false} PrevFromOk(p: Pool, h: Handle, g: int, chain: seq<int>)
    requires FileOk(p, h, chain) && h.open && -1 <= g < h.header.pageNum
    ensures var (q, r) := PrevFrom(p, h, g, chain);
      && Stepped(p, h, q, r, chain)
      && (r.Found? ==> r.page <= g && forall x :: r.page < x <= g ==> !Obtainable(p, h, x))
      && (r.Failed? ==> r.error == EndOfFile && forall x :: 0 <= x <= g ==> !Obtainable(p, h, x))
    decreases g + 1
  {
    hide Lists, Index, LinksSaved, FreeList, OnlyOwnPages, PinnedInUse, GetThis, Obtainable;
    if g >= 0 {
      if Obtainable(p, h, g) {
        ThisObtained(p, h, g, chain);
      } else {
        Skipped(p, h, g, chain);
        var q := GetThis(p, h, g).0;
        PrevFromOk(q, h, g - 1, chain);
        var (z, r) := PrevFrom(q, h, g - 1, chain);
        AfterSkip(p, q, h, z, r, chain);
      }
    }
  }
}
