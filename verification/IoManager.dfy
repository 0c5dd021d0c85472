/** Files on disk and their open handles (io/io_manager.cc).  A descriptor stands for its file; the pages
    of all files are reached through one buffer manager.  What `Create` and `Close` leave is what `Open`
    asks for.
 */
module IoManager {
  import opened Basics
  import opened Pool
  import opened Links
  import opened FileHandle
  import opened FileTheorems
  import opened FileObject
  import BufferManager
  import FileRuns
  import PoolTheorems

  class Io {
    const manager: BufferManager.Manager
    var headers: map<int, Header>

    constructor (manager: BufferManager.Manager)
      ensures this.manager == manager && headers == map[]
    {
      this.manager, headers := manager, map[];
    }

    /** The file can be opened: its header is on disk and `chain` is its free list. */
    ghost predicate Openable(fd: int, chain: seq<int>)
      reads this, manager, manager.slots, manager.table
    {
      fd in headers && FileOk(manager.View(), Handle(fd, headers[fd], true, false), chain)
    }

    method Create(fd: int) returns (ok: bool)
      modifies this
      ensures (headers, ok) == CreateFile(old(headers), fd)
      ensures ok <==> fd !in old(headers)
      ensures fd in headers && (ok ==> headers[fd] == Header(PAGE_LIST_END, 0))
      ensures ok && PoolOk(manager.View()) && (forall k :: k in manager.View().table ==> k.fd != fd) ==> Openable(fd, [])
    {
      if fd in headers {
        return false;
      }
      headers := headers[fd := Header(PAGE_LIST_END, 0)];
      ghost var p := manager.View();
      if PoolOk(p) && (forall k :: k in p.table ==> k.fd != fd) {
        NewFileOk(p, fd);
      }
      return true;
    }

    method Open(fd: nat, ghost chain: seq<int>) returns (ok: bool, f: File)
      requires manager.Rep()
      ensures fresh(f) && f.manager == manager
      ensures ok == OpenedFile(headers, fd).Some?
      ensures ok ==> Some(f.H()) == OpenedFile(headers, fd) && f.chain == chain
      ensures ok && Openable(fd, chain) ==> f.Ok()
      ensures !ok ==> !f.isOpen
    {
      ok := fd in headers;
      if ok {
        f := new File(manager, Handle(fd, headers[fd], true, false), chain);
      } else {
        f := new File(manager, Handle(fd, Header(PAGE_LIST_END, 0), false, false), []);
      }
    }

    /** Closing succeeds exactly when no page is pinned; the file can then be opened again, with the header
        and the free list it had. */
    method Close(f: File) returns (ok: bool)
      requires f.manager == manager && f.Ok() && this !in manager.Repr
      modifies this, f`isOpen, f`headerChanged, manager.Repr
      ensures manager.Rep() && fresh(manager.Repr - old(manager.Repr))
      ensures (f.Cached(), f.H(), headers, ok) == CloseFile(old(f.Cached()), old(f.H()), old(headers))
      ensures old(f.isOpen && (f.headerChanged || (f.fd in headers && headers[f.fd] == f.H().header))) ==>
        && (ok <==> old(PoolTheorems.NonePinned(f.Cached(), f.fd)))
        && Openable(f.fd, f.chain) && headers[f.fd] == old(f.H().header)
    {
      ghost var p, h, was := f.Cached(), f.H(), headers;
      ok := CloseHandle(f);
      hide FileOk, CloseFile, PoolTheorems.NonePinned, BufferManager.Located;
      if h.open && (h.changed || (h.fd in was && was[h.fd] == h.header)) {
        CloseThenOpen(p, h, was, f.chain);
      }
    }

    method CloseHandle(f: File) returns (ok: bool)
      requires f.manager == manager && f.Ok() && this !in manager.Repr
      modifies this, f`isOpen, f`headerChanged, manager.Repr
      ensures manager.Rep() && fresh(manager.Repr - old(manager.Repr))
      ensures (f.Cached(), f.H(), headers, ok) == CloseFile(old(f.Cached()), old(f.H()), old(headers))
    {
      CloseIs(f.Cached(), f.H(), headers);
      hide FileRuns.Flush, CloseFile, SaveHeader, FileOk, BufferManager.Located;
      if !f.isOpen {
        return false;
      }
      ok := FlushPages(f);
      if ok {
        f.isOpen := false;
      }
    }

    /** `flush_pages` of the handle: the header first, if it changed, then the pages. */
    method FlushPages(f: File) returns (ok: bool)
      requires f.manager == manager && f.Ok() && this !in manager.Repr
      modifies this, f`headerChanged, manager.Repr
      ensures manager.Rep() && fresh(manager.Repr - old(manager.Repr)) && f !in manager.Repr
      ensures headers == SaveHeader(old(headers), old(f.H()))
      ensures f.Cached() == FileRuns.Flush(old(f.Cached()), old(f.H())).0
      ensures f.H() == FileRuns.Flush(old(f.Cached()), old(f.H())).1
      ensures ok == FileRuns.Flush(old(f.Cached()), old(f.H())).2.Found?
    {
      assert Valid(f.Cached());
      hide Lists, Index, LinksSaved, BufferManager.Located, FlushFrom, FileOk;
      if f.headerChanged {
        headers := headers[f.fd as int := Header(f.firstFree, f.pageNum)];
        f.headerChanged := false;
      }
      ok := manager.Flush(f.fd);
    }
  }
}
