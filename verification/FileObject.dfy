/** An open file as an object (io/file_handle.cc): its header fields are updated in place, and its pages
    are reached through the buffer manager it shares with other files.
 */
module FileObject {
  import opened Basics
  import opened Pool
  import opened Links
  import opened FileHandle
  import opened BufferManager

  class File {
    const manager: Manager
    const fd: nat
    var firstFree: int
    var pageNum: nat
    var isOpen: bool
    var headerChanged: bool
    ghost var chain: seq<int>

    constructor (manager: Manager, h: Handle, ghost chain: seq<int>)
      requires h.fd >= 0
      ensures this.manager == manager && H() == h && this.chain == chain
    {
      this.manager, fd := manager, h.fd;
      firstFree, pageNum := h.header.firstFree, h.header.pageNum;
      isOpen, headerChanged := h.open, h.changed;
      this.chain := chain;
    }

    ghost function H(): Handle
      reads this
    {
      Handle(fd, Header(firstFree, pageNum), isOpen, headerChanged)
    }

    ghost function Cached(): Pool
      reads manager, manager.slots, manager.table
    {
      manager.View()
    }

    /** The buffer manager is sound and the file's free list is `chain`. */
    ghost predicate Ok()
      reads this, manager, manager.Repr, manager.slots, manager.table
    {
      && this !in manager.Repr && manager.Rep()
      && FileOk(Cached(), H(), chain)
    }

    method Store(page: nat, data: Page)
      requires this !in manager.Repr && manager.Rep() && Valid(Cached())
      modifies manager.Repr
      ensures this !in manager.Repr && manager.Rep() && fresh(manager.Repr - old(manager.Repr))
      ensures Cached() == StoreAndMark(old(Cached()), Key(fd, page), data)
    {
      hide Lists, Index, FlushFrom, Located;
      ghost var p := Cached();
      WriteValid(p, Key(fd, page), data);
      var r := manager.Write(Key(fd, page), data);
      r := manager.Dirty(Key(fd, page));
    }

    method AllocatePage() returns (r: Found)
      requires Ok()
      modifies this, manager.Repr
      ensures manager.Rep() && fresh(manager.Repr - old(manager.Repr)) && this !in manager.Repr
      ensures (Cached(), H(), r) == Allocate(old(Cached()), old(H()))
      ensures Ok() && chain == if r.Found? && old(chain) != [] then old(chain)[1..] else old(chain)
    {
      hide Lists, Index, LinksSaved, Located, FreeList, Readable, OnlyOwnPages, PinnedInUse, Allocate;
      if !isOpen {
        r := Failed(Closed);
        AllocateClosed(Cached(), H());
      } else {
        AllocateOk(Cached(), H(), chain);
        if firstFree != PAGE_LIST_END {
          r := TakeFirstFree();
        } else {
          r := AppendPage();
        }
        if r.Found? && chain != [] {
          chain := chain[1..];
        }
      }
    }

    method TakeFirstFree() returns (r: Found)
      requires Ok() && isOpen && firstFree != PAGE_LIST_END
      modifies this`firstFree, this`headerChanged, manager.Repr
      ensures manager.Rep() && fresh(manager.Repr - old(manager.Repr)) && this !in manager.Repr
      ensures (Cached(), H(), r) == Allocate(old(Cached()), old(H()))
    {
      hide Lists, Index, LinksSaved, Located, FreeList, Readable, OnlyOwnPages, PinnedInUse, GetPage, StoreAndMark;
      FirstIsPage(Cached(), H(), chain);
      var page := firstFree;
      GetValid(Cached(), Key(fd, page), true);
      var got := manager.Get(Key(fd, page), true);
      if got.Err? {
        return Failed(Cache(got.error));
      }
      firstFree := if got.slot < manager.slots.Length then manager.slots[got.slot].data.next else PAGE_LIST_END;
      headerChanged := true;
      Store(page, Page(PAGE_USED, Zeros()));
      return Found(page, got.slot);
    }

    method AppendPage() returns (r: Found)
      requires this !in manager.Repr && manager.Rep() && Valid(Cached())
      requires isOpen && firstFree == PAGE_LIST_END
      modifies this`pageNum, this`headerChanged, manager.Repr
      ensures manager.Rep() && fresh(manager.Repr - old(manager.Repr)) && this !in manager.Repr
      ensures (Cached(), H(), r) == Allocate(old(Cached()), old(H()))
    {
      hide Valid, Located, Allocate, StoreAndMark, Zeros;
      AppendsPage(Cached(), H());
      var got := NewPage(pageNum);
      if got.Err? {
        return Failed(Cache(got.error));
      }
      r := Found(pageNum, got.slot);
      pageNum := pageNum + 1;
      headerChanged := true;
    }

    /** A slot for a page beyond the end of the file, filled if there is one. */
    method NewPage(page: nat) returns (got: Result)
      requires this !in manager.Repr && manager.Rep() && Valid(Cached())
      modifies manager.Repr
      ensures manager.Rep() && fresh(manager.Repr - old(manager.Repr)) && this !in manager.Repr
      ensures (Cached(), got) == Filled(old(Cached()), Key(fd, page))
    {
      hide Lists, Index, Located, StoreAndMark, Zeros;
      AllocateValid(Cached(), Key(fd, page));
      got := manager.Allocate(Key(fd, page));
      if got.Ok? {
        Store(page, Page(PAGE_USED, Zeros()));
      }
    }

    method DisposePage(page: int) returns (r: Found)
      requires Ok()
      modifies this, manager.Repr
      ensures manager.Rep() && fresh(manager.Repr - old(manager.Repr)) && this !in manager.Repr
      ensures (Cached(), H(), r) == Dispose(old(Cached()), old(H()), page)
      ensures Ok() && chain == if r.Found? then [page] + old(chain) else old(chain)
    {
      hide Lists, Index, LinksSaved, Located, FreeList, Readable, OnlyOwnPages, PinnedInUse, Dispose;
      if !isOpen {
        r := Failed(Closed);
        DisposeRefused(Cached(), H(), page);
      } else if !(0 <= page < pageNum) {
        r := Failed(InvalidPage);
        DisposeRefused(Cached(), H(), page);
      } else {
        DisposeOk(Cached(), H(), page, chain);
        r := PutOnFreeList(page);
        if r.Found? {
          chain := [page] + chain;
        }
      }
    }

    method PutOnFreeList(page: nat) returns (r: Found)
      requires this !in manager.Repr && manager.Rep() && Valid(Cached()) && isOpen && page < pageNum
      modifies this`firstFree, this`headerChanged, manager.Repr
      ensures manager.Rep() && fresh(manager.Repr - old(manager.Repr)) && this !in manager.Repr
      ensures (Cached(), H(), r) == Dispose(old(Cached()), old(H()), page)
    {
      hide Lists, Index, Located, GetPage, StoreAndMark;
      ghost var p, h := Cached(), H();
      GetValid(p, At(h, page), false);
      var got := manager.Get(Key(fd, page), false);
      if got.Err? {
        return Failed(Cache(got.error));
      }
      var data := if got.slot < manager.slots.Length then manager.slots[got.slot].data else Page(PAGE_LIST_END, []);
      if data.next != PAGE_USED {
        var done := manager.Unpin(Key(fd, page));
        return Failed(AlreadyFree);
      }
      StoreAndRelease(page, data.(next := firstFree));
      firstFree := page;
      headerChanged := true;
      return Found(page, got.slot);
    }

    method StoreAndRelease(page: nat, data: Page)
      requires this !in manager.Repr && manager.Rep() && Valid(Cached())
      modifies manager.Repr
      ensures manager.Rep() && fresh(manager.Repr - old(manager.Repr)) && this !in manager.Repr
      ensures InRange(StoreAndMark(old(Cached()), Key(fd, page), data))
      ensures Cached() == UnpinPage(StoreAndMark(old(Cached()), Key(fd, page), data), Key(fd, page)).0
    {
      hide Lists, Index, Located, StoreAndMark;
      StoreAndMarkValid(Cached(), Key(fd, page), data);
      Store(page, data);
      var done := manager.Unpin(Key(fd, page));
    }

    method GetThisPage(page: int) returns (r: Found)
      requires Ok()
      modifies manager.Repr
      ensures manager.Rep() && fresh(manager.Repr - old(manager.Repr)) && this !in manager.Repr
      ensures (Cached(), r) == GetThis(old(Cached()), H(), page)
      ensures Ok()
    {
      hide Lists, Index, LinksSaved, Located, FreeList, Readable, OnlyOwnPages, PinnedInUse;
      ghost var p, h := Cached(), H();
      if !isOpen {
        return Failed(Closed);
      }
      if !(0 <= page < pageNum) {
        return Failed(InvalidPage);
      }
      GetThisStays(p, h, page, chain);
      GetValid(p, At(h, page), true);
      var got := manager.Get(Key(fd, page), true);
      if got.Err? {
        return Failed(Cache(got.error));
      }
      if got.slot < manager.slots.Length && manager.slots[got.slot].data.next == PAGE_USED {
        return Found(page, got.slot);
      }
      var done := manager.Unpin(Key(fd, page));
      return Failed(InvalidPage);
    }

    method GetNextPage(current: int) returns (r: Found)
      requires Ok()
      modifies manager.Repr
      ensures manager.Rep() && fresh(manager.Repr - old(manager.Repr)) && this !in manager.Repr
      ensures (Cached(), r) == GetNext(old(Cached()), H(), current, chain)
      ensures Ok()
    {
      hide Located, FileOk, NextFrom;
      if !isOpen {
        return Failed(Closed);
      }
      if current != -1 && !(0 <= current < pageNum) {
        return Failed(InvalidPage);
      }
      r := SearchUp(current + 1);
    }

    method SearchUp(from: nat) returns (r: Found)
      requires Ok() && isOpen
      modifies manager.Repr
      ensures fresh(manager.Repr - old(manager.Repr)) && Ok()
      ensures (Cached(), r) == NextFrom(old(Cached()), H(), from, chain)
    {
      hide Located, FileOk, NextFrom, GetThis;
      var g := from;
      while g < pageNum
        invariant Ok() && isOpen && fresh(manager.Repr - old(manager.Repr))
        invariant NextFrom(Cached(), H(), g, chain) == NextFrom(old(Cached()), H(), from, chain)
        decreases pageNum - g
      {
        NextUnfolds(Cached(), H(), g, chain);
        r := GetThisPage(g);
        if r.Found? {
          return;
        }
        g := g + 1;
      }
      NextUnfolds(Cached(), H(), g, chain);
      return Failed(EndOfFile);
    }

    method GetPrevPage(current: int) returns (r: Found)
      requires Ok()
      modifies manager.Repr
      ensures manager.Rep() && fresh(manager.Repr - old(manager.Repr)) && this !in manager.Repr
      ensures (Cached(), r) == GetPrev(old(Cached()), H(), current, chain)
      ensures Ok()
    {
      hide Located, FileOk, PrevFrom;
      if !isOpen {
        return Failed(Closed);
      }
      if current != pageNum && !(0 <= current < pageNum) {
        return Failed(InvalidPage);
      }
      r := SearchDown(current - 1);
    }

    method SearchDown(from: int) returns (r: Found)
      requires Ok() && isOpen && -1 <= from < pageNum
      modifies manager.Repr
      ensures fresh(manager.Repr - old(manager.Repr)) && Ok()
      ensures (Cached(), r) == PrevFrom(old(Cached()), H(), from, chain)
    {
      hide Located, FileOk, PrevFrom, GetThis;
      var g := from;
      while g >= 0
        invariant -1 <= g < pageNum && Ok() && isOpen && fresh(manager.Repr - old(manager.Repr))
        invariant PrevFrom(Cached(), H(), g, chain) == PrevFrom(old(Cached()), H(), from, chain)
        decreases g
      {
        PrevUnfolds(Cached(), H(), g, chain);
        r := GetThisPage(g);
        if r.Found? {
          return;
        }
        g := g - 1;
      }
      PrevUnfolds(Cached(), H(), g, chain);
      return Failed(EndOfFile);
    }
  }

  lemma NextUnfolds(p: Pool, h: Handle, g: nat, chain: seq<int>)
    requires FileOk(p, h, chain) && h.open
    ensures Valid(p)
    ensures g >= h.header.pageNum ==> NextFrom(p, h, g, chain) == (p, Failed(EndOfFile))
    ensures g < h.header.pageNum ==>
      var (q, r) := GetThis(p, h, g);
      FileOk(q, h, chain) && NextFrom(p, h, g, chain) == if r.Found? then (q, r) else NextFrom(q, h, g + 1, chain)
  {
    hide Lists, Index, LinksSaved, FreeList, GetThis;
    if g < h.header.pageNum {
      GetThisStays(p, h, g, chain);
    }
  }

  lemma PrevUnfolds(p: Pool, h: Handle, g: int, chain: seq<int>)
    requires FileOk(p, h, chain) && h.open && -1 <= g < h.header.pageNum
    ensures Valid(p)
    ensures g < 0 ==> PrevFrom(p, h, g, chain) == (p, Failed(EndOfFile))
    ensures g >= 0 ==>
      var (q, r) := GetThis(p, h, g);
      FileOk(q, h, chain) && PrevFrom(p, h, g, chain) == if r.Found? then (q, r) else PrevFrom(q, h, g - 1, chain)
  {
    hide Lists, Index, LinksSaved, FreeList, GetThis;
    if g >= 0 {
      GetThisStays(p, h, g, chain);
    }
  }

  /** A new page in the cache: marked used, clear, and marked dirty. */
  ghost function Filled(p: Pool, k: Key): (Pool, Result)
    requires Valid(p)
  {
    AllocateValid(p, k);
    var (q, r) := AllocatePage(p, k);
    if r.Err? then (q, r) else (StoreAndMark(q, k, Page(PAGE_USED, Zeros())), r)
  }

  /** Allocation with no free page. */
  lemma AppendsPage(p: Pool, h: Handle)
    requires Valid(p) && h.open && h.header.firstFree == PAGE_LIST_END
    ensures var page := h.header.pageNum;
      var (z, r) := Filled(p, At(h, page));
      Allocate(p, h) ==
        if r.Err? then (z, h, Failed(Cache(r.error)))
        else (z, h.(header := h.header.(pageNum := page + 1), changed := true), Found(page, r.slot))
  {
    hide Lists, Index, StoreAndMark, AllocatePage;
  }

  lemma FirstIsPage(p: Pool, h: Handle, chain: seq<int>)
    requires FileOk(p, h, chain) && h.header.firstFree != PAGE_LIST_END
    ensures ValidPage(h, h.header.firstFree)
  {
    assert chain[0] in chain;
  }
}
