/** The operations on an open file, one at a time: complete scans, and what each operation leaves of its
    own file's free list and of the other files that share the cache (io/file_handle.cc).
 */
module FileRuns {
  import opened Basics
  import opened Pool
  import opened Links
  import opened FileHandle

  // ----- scans

  function Unpinned(q: Pool, h: Handle, page: int): Pool
    requires InRange(q)
  {
    UnpinPage(q, At(h, page)).0
  }

  /** Once a page that was found is unpinned again, links and pins are as before the search. */
  lemma FoundAndReleased(p: Pool, h: Handle, q: Pool, r: Found, chain: seq<int>)
    requires FileOk(p, h, chain) && Stepped(p, h, q, r, chain) && r.Found? && Evictable(p)
    ensures var z := Unpinned(q, h, r.page); FileOk(z, h, chain) && SameLinks(p, z) && SamePins(p, z) && Evictable(z)
  {
    hide Lists, Index, LinksSaved, Distinct, Chained;
    var k := At(h, r.page);
    PinsNotNegative(p, k);
    UnpinLinks(q, k);
    var z := Unpinned(q, h, r.page);
    SameLinksOk(q, z, h, chain);
    if Pins(p, k) == 0 {
      UnpinnedEvictable(z, k);
    }
  }

  lemma PinsNotNegative(p: Pool, k: Key)
    requires PoolOk(p)
    ensures Pins(p, k) >= 0
  {
    if k in p.table {
      ResidentSlot(p, k);
    }
  }

  /** The pages in use from `g` on, ascending, and from `g` down. */
  function UsedUp(p: Pool, h: Handle, g: int): seq<int>
    decreases h.header.pageNum - g
  {
    if g >= h.header.pageNum then []
    else (if InUse(p, At(h, g)) then [g] else []) + UsedUp(p, h, g + 1)
  }

  function UsedDown(p: Pool, h: Handle, g: int): seq<int>
    decreases g + 1
  {
    if g < 0 then []
    else (if InUse(p, At(h, g)) then [g] else []) + UsedDown(p, h, g - 1)
  }

  lemma {:induction false} UsedUpSkip(p: Pool, h: Handle, g: int, f: int)
    requires g <= f <= h.header.pageNum && forall x :: g <= x < f ==> !InUse(p, At(h, x))
    ensures UsedUp(p, h, g) == UsedUp(p, h, f)
    decreases f - g
  {
    if g < f {
      UsedUpSkip(p, h, g + 1, f);
    }
  }

  lemma {:induction false} UsedDownSkip(p: Pool, h: Handle, g: int, f: int)
    requires -1 <= f <= g && forall x :: f < x <= g ==> !InUse(p, At(h, x))
    ensures UsedDown(p, h, g) == UsedDown(p, h, f)
    decreases g - f
  {
    if f < g {
      UsedDownSkip(p, h, g - 1, f);
    }
  }

  lemma {:induction false} UsedUpFrame(p: Pool, q: Pool, h: Handle, g: int)
    requires SameLinks(p, q)
    ensures UsedUp(q, h, g) == UsedUp(p, h, g)
    decreases h.header.pageNum - g
  {
    if g < h.header.pageNum {
      UsedUpFrame(p, q, h, g + 1);
    }
  }

  lemma {:induction false} UsedDownFrame(p: Pool, q: Pool, h: Handle, g: int)
    requires SameLinks(p, q)
    ensures UsedDown(q, h, g) == UsedDown(p, h, g)
    decreases g + 1
  {
    if g >= 0 {
      UsedDownFrame(p, q, h, g - 1);
    }
  }

  /** A whole scan, as a client runs it: get the next page, unpin it, go on to the end of the file. */
  ghost predicate ScansUp(p: Pool, h: Handle, current: int, pages: seq<int>, p': Pool, chain: seq<int>)
    decreases |pages|
  {
    && FileOk(p, h, chain)
    && var (q, r) := GetNext(p, h, current, chain);
    && InRange(q)
    && (r.Failed? ==> pages == [] && p' == q && r.error == EndOfFile)
    && (r.Found? ==> pages != [] && pages[0] == r.page && ScansUp(Unpinned(q, h, r.page), h, r.page, pages[1..], p', chain))
  }

  ghost predicate ScansDown(p: Pool, h: Handle, current: int, pages: seq<int>, p': Pool, chain: seq<int>)
    decreases |pages|
  {
    && FileOk(p, h, chain)
    && var (q, r) := GetPrev(p, h, current, chain);
    && InRange(q)
    && (r.Failed? ==> pages == [] && p' == q && r.error == EndOfFile)
    && (r.Found? ==> pages != [] && pages[0] == r.page && ScansDown(Unpinned(q, h, r.page), h, r.page, pages[1..], p', chain))
  }

  /** One step of a client's scan upwards: the next page in use, got and unpinned again, or the end. */
  lemma StepUp(p: Pool, h: Handle, current: int, chain: seq<int>)
    requires FileOk(p, h, chain) && h.open && Evictable(p) && (current == -1 || ValidPage(h, current))
    ensures var (q, r) := GetNext(p, h, current, chain);
      && InRange(q)
      && (r.Failed? ==> r.error == EndOfFile && Restored(p, q, h, chain) && UsedUp(p, h, current + 1) == [])
      && (r.Found? ==>
          && current < r.page && ValidPage(h, r.page) && Restored(p, Unpinned(q, h, r.page), h, chain)
          && UsedUp(p, h, current + 1) == [r.page] + UsedUp(Unpinned(q, h, r.page), h, r.page + 1))
  {
    hide Lists, Index, LinksSaved, FreeList, OnlyOwnPages, PinnedInUse, Readable, NextFrom, Link, Pins;
    NextFromOk(p, h, current + 1, chain);
    assert forall x :: Obtainable(p, h, x) == InUse(p, At(h, x));
    var (q, r) := GetNext(p, h, current, chain);
    if r.Failed? {
      UsedUpSkip(p, h, current + 1, h.header.pageNum);
    } else {
      FoundAndReleased(p, h, q, r, chain);
      UsedUpSkip(p, h, current + 1, r.page);
      UsedUpFrame(p, Unpinned(q, h, r.page), h, r.page + 1);
    }
  }

  lemma StepDown(p: Pool, h: Handle, current: int, chain: seq<int>)
    requires FileOk(p, h, chain) && h.open && Evictable(p) && 0 <= current <= h.header.pageNum
    ensures var (q, r) := GetPrev(p, h, current, chain);
      && InRange(q)
      && (r.Failed? ==> r.error == EndOfFile && Restored(p, q, h, chain) && UsedDown(p, h, current - 1) == [])
      && (r.Found? ==>
          && r.page < current && ValidPage(h, r.page) && Restored(p, Unpinned(q, h, r.page), h, chain)
          && UsedDown(p, h, current - 1) == [r.page] + UsedDown(Unpinned(q, h, r.page), h, r.page - 1))
  {
    hide Lists, Index, LinksSaved, FreeList, OnlyOwnPages, PinnedInUse, Readable, PrevFrom, Link, Pins;
    PrevFromOk(p, h, current - 1, chain);
    assert forall x :: Obtainable(p, h, x) == InUse(p, At(h, x));
    var (q, r) := GetPrev(p, h, current, chain);
    if r.Failed? {
      UsedDownSkip(p, h, current - 1, -1);
    } else {
      FoundAndReleased(p, h, q, r, chain);
      UsedDownSkip(p, h, current - 1, r.page);
      UsedDownFrame(p, Unpinned(q, h, r.page), h, r.page - 1);
    }
  }

  /** Links and pins are as they were, the file is in order and a slot can still be had. */
  ghost predicate Restored(p: Pool, q: Pool, h: Handle, chain: seq<int>) {
    FileOk(q, h, chain) && SameLinks(p, q) && SamePins(p, q) && Evictable(q)
  }

  /** With an evictable slot, scanning upwards visits exactly the pages in use, each once, in ascending
      order, and leaves every link and pin as it was. */
  lemma {:induction false} ScanUpVisitsUsed(p: Pool, h: Handle, current: int, chain: seq<int>) returns (p': Pool)
    requires FileOk(p, h, chain) && h.open && Evictable(p) && (current == -1 || ValidPage(h, current))
    ensures ScansUp(p, h, current, UsedUp(p, h, current + 1), p', chain)
    ensures SameLinks(p, p') && SamePins(p, p') && FileOk(p', h, chain)
    decreases h.header.pageNum - current
  {
    hide FileOk, GetNext, Link, Pins, UsedUp, Unpinned;
    StepUp(p, h, current, chain);
    var (q, r) := GetNext(p, h, current, chain);
    if r.Failed? {
      p' := q;
    } else {
      p' := ScanUpVisitsUsed(Unpinned(q, h, r.page), h, r.page, chain);
    }
  }

  /** Downwards likewise, in descending order. */
  lemma {:induction false} ScanDownVisitsUsed(p: Pool, h: Handle, current: int, chain: seq<int>) returns (p': Pool)
    requires FileOk(p, h, chain) && h.open && Evictable(p) && 0 <= current <= h.header.pageNum
    ensures ScansDown(p, h, current, UsedDown(p, h, current - 1), p', chain)
    ensures SameLinks(p, p') && SamePins(p, p') && FileOk(p', h, chain)
    decreases current
  {
    hide FileOk, GetPrev, Link, Pins, UsedDown, Unpinned;
    StepDown(p, h, current, chain);
    var (q, r) := GetPrev(p, h, current, chain);
    if r.Failed? {
      p' := q;
    } else {
      p' := ScanDownVisitsUsed(Unpinned(q, h, r.page), h, r.page, chain);
    }
  }

  // ----- one operation

  datatype FileOp =
    | NewPage(fd: int)
    | DisposePage(fd: int, page: int)
    | GetThisPage(fd: int, page: int)
    | NextPage(fd: int, current: int)
    | PrevPage(fd: int, current: int)
    | WriteBody(fd: int, page: int, body: seq<int>)
    | MarkPage(fd: int, page: int)
    | UnpinThis(fd: int, page: int)
    | FlushFile(fd: int)
    | ForceFile(fd: int, page: int)
    | Create(fd: int)
    | Open(fd: int)
    | Close(fd: int)

  function Outcome(page: int, r: Result): Found {
    match r
    case Ok(slot) => Found(page, slot)
    case Err(error) => Failed(Cache(error))
  }

  /** The holder of a pinned page writes behind the page header. */
  function StoreBody(p: Pool, k: Key, body: seq<int>): (Pool, Result)
    requires InRange(p)
  {
    match Seen(p, k)
    case None => (p, Err(NotResident))
    case Some(data) => WritePage(p, k, data.(body := body))
  }

  function Flush(p: Pool, h: Handle): (Pool, Handle, Found) {
    var (q, ok) := FlushPages(p, h.fd);
    (q, h.(changed := false), if ok then Found(0, 0) else Failed(Cache(StillPinned)))
  }

  /** An operation on the pages of an open file: the new cache, the new handle, and the outcome. */
  ghost function Act(p: Pool, h: Handle, op: FileOp, chain: seq<int>): (Pool, Handle, Found)
    requires FileOk(p, h, chain) && h.open
  {
    match op
    case NewPage(_) => Allocate(p, h)
    case DisposePage(_, page) => Dispose(p, h, page)
    case GetThisPage(_, page) => var (q, r) := GetThis(p, h, page); (q, h, r)
    case NextPage(_, current) => var (q, r) := GetNext(p, h, current, chain); (q, h, r)
    case PrevPage(_, current) => var (q, r) := GetPrev(p, h, current, chain); (q, h, r)
    case WriteBody(_, page, body) => var (q, r) := StoreBody(p, At(h, page), body); (q, h, Outcome(page, r))
    case MarkPage(_, page) =>
      if !ValidPage(h, page) then (p, h, Failed(InvalidPage))
      else var (q, r) := MarkDirty(p, At(h, page)); (q, h, Outcome(page, r))
    case UnpinThis(_, page) =>
      if !ValidPage(h, page) then (p, h, Failed(InvalidPage))
      else var (q, r) := UnpinPage(p, At(h, page)); (q, h, Outcome(page, r))
    case FlushFile(_) => Flush(p, h)
    case Close(_) => Flush(p, h)
    case ForceFile(_, page) => (ForcePage(p, h.fd, page), h.(changed := false), Found(page, 0))
    case _ => (p, h, Found(0, 0))
  }

  /** The operations that write the file header to disk if it changed. */
  predicate SavesHeader(op: FileOp) {
    op.FlushFile? || op.ForceFile? || op.Close?
  }

  ghost predicate FileGood(p: Pool, h: Handle) {
    exists chain :: FileOk(p, h, chain)
  }

  ghost function Live(p: Pool, h: Handle): set<int> {
    set g | 0 <= g < h.header.pageNum && InUse(p, At(h, g))
  }

  /** What one operation leaves: its own file in order, the links and pins of all other files untouched,
      and no page of another file brought in. */
  ghost predicate Acted(p: Pool, h: Handle, q: Pool, h': Handle) {
    && PoolOk(q) && h'.fd == h.fd && h'.open && FileGood(q, h')
    && (forall k: Key :: k.fd != h.fd ==> Link(q, k) == Link(p, k) && Pins(q, k) == Pins(p, k))
    && (forall k :: k in q.table && k.fd != h.fd ==> k in p.table)
  }

  /** Only a page that was allocated changes the page count or adds to the pages in use. */
  ghost predicate Counted(p: Pool, h: Handle, op: FileOp, q: Pool, h': Handle, r: Found, chain: seq<int>) {
    if op.NewPage? && r.Found? then h'.header.pageNum == h.header.pageNum + (if chain == [] then 1 else 0)
    else h'.header.pageNum == h.header.pageNum && Live(q, h') <= Live(p, h)
  }

  lemma ActOk(p: Pool, h: Handle, op: FileOp, chain: seq<int>)
    requires FileOk(p, h, chain) && h.open
    ensures var (q, h', r) := Act(p, h, op, chain);
      && Acted(p, h, q, h') && r != Failed(Cache(ShortRead)) && Counted(p, h, op, q, h', r, chain)
      && (if SavesHeader(op) then h' == h.(changed := false) else h'.changed || h' == h)
  {
    match op
    case NewPage(_) => NewPageOk(p, h, op, chain);
    case DisposePage(_, _) => DisposePageOk(p, h, op, chain);
    case GetThisPage(_, _) => GetPageOk(p, h, op, chain);
    case NextPage(_, _) => ScanOk(p, h, op, chain);
    case PrevPage(_, _) => ScanOk(p, h, op, chain);
    case _ => PlainOk(p, h, op, chain);
  }

  lemma NewPageOk(p: Pool, h: Handle, op: FileOp, chain: seq<int>)
    requires FileOk(p, h, chain) && h.open && op.NewPage?
    ensures var (q, h', r) := Act(p, h, op, chain);
      && Acted(p, h, q, h') && r != Failed(Cache(ShortRead)) && Counted(p, h, op, q, h', r, chain)
      && (h'.changed || h' == h)
  {
    hide Lists, Index, LinksSaved, FreeList, Readable, OnlyOwnPages, PinnedInUse, Link, Pins, FileHandle.Allocate, Live;
    if chain == [] {
      AllocateAtEnd(p, h, chain);
    } else {
      AllocateFromList(p, h, chain);
    }
    var (q, h', r) := FileHandle.Allocate(p, h);
    if r.Found? {
      OwnFileOnly(p, h, q, h', r.page, if chain == [] then [] else chain[1..]);
    } else {
      Untouched(p, h, chain);
    }
  }

  lemma DisposePageOk(p: Pool, h: Handle, op: FileOp, chain: seq<int>)
    requires FileOk(p, h, chain) && h.open && op.DisposePage?
    ensures var (q, h', r) := Act(p, h, op, chain);
      && Acted(p, h, q, h') && r != Failed(Cache(ShortRead)) && Counted(p, h, op, q, h', r, chain)
      && (h'.changed || h' == h)
  {
    hide Lists, Index, LinksSaved, FreeList, Readable, OnlyOwnPages, PinnedInUse, Link, Pins, Dispose, Live;
    if ValidPage(h, op.page) {
      DisposeOk(p, h, op.page, chain);
      var (q, h', r) := Dispose(p, h, op.page);
      DisposeLive(p, h, q, h', r, op.page, chain);
      var chain' := if r.Found? then [op.page] + chain else chain;
      OwnFileOnly(p, h, q, h', op.page, chain');
    } else {
      DisposeRefused(p, h, op.page);
      Untouched(p, h, chain);
    }
  }

  /** An operation that reached one page of its own file. */
  lemma OwnFileOnly(p: Pool, h: Handle, q: Pool, h': Handle, g: int, chain': seq<int>)
    requires FileOk(q, h', chain') && h'.fd == h.fd && h'.open && q.table.Keys <= p.table.Keys + {At(h, g)}
    requires forall k :: k != At(h, g) ==> Link(q, k) == Link(p, k) && Pins(q, k) == Pins(p, k)
    ensures Acted(p, h, q, h')
  {
    hide Lists, Index, LinksSaved, FreeList, Readable, OnlyOwnPages, PinnedInUse, Link, Pins;
  }

  lemma Untouched(p: Pool, h: Handle, chain: seq<int>)
    requires FileOk(p, h, chain) && h.open
    ensures Acted(p, h, p, h)
  {
    hide Lists, Index, LinksSaved, FreeList, Readable, OnlyOwnPages, PinnedInUse, Link, Pins;
  }

  /** Disposal brings no page into use. */
  lemma DisposeLive(p: Pool, h: Handle, q: Pool, h': Handle, r: Found, page: int, chain: seq<int>)
    requires h'.fd == h.fd && h'.header.pageNum == h.header.pageNum
    requires if r.Found? then FreeList(q, h', [page] + chain) && (forall k :: k != At(h, page) ==> Link(q, k) == Link(p, k))
             else SameLinks(p, q)
    ensures Live(q, h') <= Live(p, h)
  {
    hide Link, Chained, Distinct;
    assert page in [page] + chain;
    forall g | g in Live(q, h')
      ensures g in Live(p, h)
    {
      assert At(h', g) == At(h, g);
      assert InUse(q, At(h', g));
    }
  }

  lemma GetPageOk(p: Pool, h: Handle, op: FileOp, chain: seq<int>)
    requires FileOk(p, h, chain) && h.open && op.GetThisPage?
    ensures var (q, h', r) := Act(p, h, op, chain);
      Acted(p, h, q, h') && r != Failed(Cache(ShortRead)) && Counted(p, h, op, q, h', r, chain) && h' == h
  {
    hide Lists, Index, LinksSaved, FreeList, Readable, OnlyOwnPages, PinnedInUse, Link, Pins;
    if ValidPage(h, op.page) {
      GetThisOk(p, h, op.page, chain);
      OwnFileOnly(p, h, GetThis(p, h, op.page).0, h, op.page, chain);
    } else {
      Untouched(p, h, chain);
    }
  }

  lemma ScanOk(p: Pool, h: Handle, op: FileOp, chain: seq<int>)
    requires FileOk(p, h, chain) && h.open && (op.NextPage? || op.PrevPage?)
    ensures var (q, h', r) := Act(p, h, op, chain);
      Acted(p, h, q, h') && r != Failed(Cache(ShortRead)) && Counted(p, h, op, q, h', r, chain) && h' == h
  {
    hide Lists, Index, LinksSaved, FreeList, Readable, OnlyOwnPages, PinnedInUse, NextFrom, PrevFrom, Pins;
    if op.NextPage? && (op.current == -1 || ValidPage(h, op.current)) {
      NextFromOk(p, h, op.current + 1, chain);
    }
    if op.PrevPage? && (op.current == h.header.pageNum || ValidPage(h, op.current)) {
      PrevFromOk(p, h, op.current - 1, chain);
    }
  }

  /** The operations that keep every link. */
  lemma PlainOk(p: Pool, h: Handle, op: FileOp, chain: seq<int>)
    requires FileOk(p, h, chain) && h.open && Plain(op)
    ensures var (q, h', r) := Act(p, h, op, chain);
      && Acted(p, h, q, h') && r != Failed(Cache(ShortRead)) && Counted(p, h, op, q, h', r, chain)
      && h' == (if SavesHeader(op) then h.(changed := false) else h)
  {
    hide FileOk, Act, Acted;
    PlainLinks(p, h, op, chain);
    PlainHandle(p, h, op, chain);
    var (q, h', _) := Act(p, h, op, chain);
    PlainKept(p, h, q, h', chain);
  }

  lemma PlainHandle(p: Pool, h: Handle, op: FileOp, chain: seq<int>)
    requires FileOk(p, h, chain) && h.open && Plain(op)
    ensures var (_, h', r) := Act(p, h, op, chain);
      && r != Failed(Cache(ShortRead))
      && h' == (if SavesHeader(op) then h.(changed := false) else h)
  {
    hide Lists, Index, LinksSaved, Chained, Distinct, Readable, OnlyOwnPages, PinnedInUse, FreeList, FlushFrom, ForceFrom;
  }

  lemma PlainKept(p: Pool, h: Handle, q: Pool, h': Handle, chain: seq<int>)
    requires FileOk(p, h, chain) && h.open && PoolOk(q) && SameLinks(p, q) && q.table.Keys <= p.table.Keys
    requires forall k: Key :: k.fd != h.fd ==> Pins(q, k) == Pins(p, k)
    requires forall k: Key :: Pins(q, k) > 0 ==> Pins(p, k) > 0
    requires h' == h || h' == h.(changed := false)
    ensures Acted(p, h, q, h') && Live(q, h') <= Live(p, h)
  {
    hide FileOk, PoolOk, Pins;
    SameLinksOk(p, q, h, chain);
    HandleFrame(q, h, h', chain);
  }

  predicate Plain(op: FileOp) {
    !op.NewPage? && !op.DisposePage? && !op.GetThisPage? && !op.NextPage? && !op.PrevPage?
  }

  lemma PlainLinks(p: Pool, h: Handle, op: FileOp, chain: seq<int>)
    requires FileOk(p, h, chain) && h.open && Plain(op)
    ensures var q := Act(p, h, op, chain).0;
      && PoolOk(q) && SameLinks(p, q) && q.table.Keys <= p.table.Keys
      && (forall k: Key :: k.fd != h.fd ==> Pins(q, k) == Pins(p, k))
      && (forall k: Key :: Pins(q, k) > 0 ==> Pins(p, k) > 0)
  {
    hide Lists, Index, LinksSaved, Chained, Distinct, Readable, OnlyOwnPages, PinnedInUse, FreeList;
    match op {
      case WriteBody(_, page, body) => WriteBodyLinks(p, At(h, page), body);
      case MarkPage(_, page) => DirtyLinks(p, At(h, page));
      case UnpinThis(_, page) => UnpinLinks(p, At(h, page));
      case FlushFile(_) => FlushLinks(p, h.fd, 0);
      case Close(_) => FlushLinks(p, h.fd, 0);
      case ForceFile(_, page) => ForceLinks(p, h.fd, page, 0);
      case _ =>
    }
  }

  lemma WriteBodyLinks(p: Pool, k: Key, body: seq<int>)
    requires PoolOk(p)
    ensures var q := StoreBody(p, k, body).0;
      PoolOk(q) && SameLinks(p, q) && (forall k' :: Pins(q, k') == Pins(p, k')) && q.table == p.table
  {
    hide Lists, Index, LinksSaved;
    if k in p.table {
      ResidentSlot(p, k);
      WriteLinks(p, k, p.slots[p.table[k]].data.(body := body));
    }
  }

  lemma HandleFrame(p: Pool, h: Handle, h': Handle, chain: seq<int>)
    requires FileOk(p, h, chain) && h'.fd == h.fd && h'.header == h.header
    ensures FileOk(p, h', chain)
  {
    hide Lists, Index, LinksSaved, Chained;
    assert forall g :: At(h', g) == At(h, g) && ValidPage(h', g) == ValidPage(h, g);
  }

  // ----- the high-water mark

  /** Pages in use and free pages add up to all pages. */
  lemma LiveAndFree(p: Pool, h: Handle, chain: seq<int>)
    requires FreeList(p, h, chain)
    ensures |Live(p, h)| + |chain| == h.header.pageNum
  {
    LiveOrFree(p, h, chain);
    DistinctCount(chain);
    UptoSize(h.header.pageNum);
    hide FreeList, Live;
    DisjointSizes(Live(p, h), set g | g in chain);
  }

  lemma LiveOrFree(p: Pool, h: Handle, chain: seq<int>)
    requires FreeList(p, h, chain)
    ensures Live(p, h) + (set g | g in chain) == Upto(h.header.pageNum) && Live(p, h) !! (set g | g in chain)
  {
    hide Chained, Distinct, Link;
  }

  lemma DisjointSizes(a: set<int>, b: set<int>)
    requires a !! b
    ensures |a + b| == |a| + |b|
  {
  }

  lemma {:induction false} DistinctCount(s: seq<int>)
    requires Distinct(s)
    ensures |set g | g in s| == |s|
  {
    if s != [] {
      DistinctCount(s[1..]);
      assert s == [s[0]] + s[1..];
      assert (set g | g in s) == {s[0]} + (set g | g in s[1..]);
      assert s[0] !in s[1..];
    }
  }

  /** If the page count was the largest number of pages ever in use at once, it still is. */
  lemma PeakKept(p: Pool, h: Handle, op: FileOp, chain: seq<int>)
    requires FileOk(p, h, chain) && h.open
    ensures var (q, h', _) := Act(p, h, op, chain);
      h'.header.pageNum == if |Live(q, h')| > h.header.pageNum then |Live(q, h')| else h.header.pageNum
  {
    hide Lists, Index, LinksSaved, Chained, Distinct;
    ActOk(p, h, op, chain);
    var (q, h', r) := Act(p, h, op, chain);
    LiveAndFree(p, h, chain);
    var chain' :| FileOk(q, h', chain');
    LiveAndFree(q, h', chain');
    if op.NewPage? && r.Found? && chain == [] {
      AllocateAtEnd(p, h, chain);
      LiveAndFree(q, h', []);
    }
  }
}
