/** Whole runs over files that share one cache: files are made, opened, scanned, written, closed and opened
    again in any order (io/file_handle.cc, io/io_manager.cc).  Beside the cache and the headers on disk a
    plain store records what each page should hold, and `peak` the largest number of pages each file ever
    had in use at once.
 */
module FileTheorems {
  import opened Basics
  import opened Pool
  import opened Links
  import opened FileHandle
  import opened FileRuns
  import opened FileContents
  import PoolRuns
  import PoolTheorems
  import PoolOutcomes

  // ----- headers on disk

  /** `create_file`: an empty file, refused if there is one. */
  function CreateFile(headers: map<int, Header>, fd: int): (map<int, Header>, bool) {
    if fd in headers then (headers, false) else (headers[fd := Header(PAGE_LIST_END, 0)], true)
  }

  function OpenedFile(headers: map<int, Header>, fd: int): Option<Handle> {
    if fd in headers then Some(Handle(fd, headers[fd], true, false)) else None
  }

  /** The header is written if it changed since it was last. */
  function SaveHeader(headers: map<int, Header>, h: Handle): map<int, Header> {
    if h.changed then headers[h.fd := h.header] else headers
  }

  /** `close_file`: save the header, flush the pages, and only then mark the file closed. */
  function CloseFile(p: Pool, h: Handle, headers: map<int, Header>): (Pool, Handle, map<int, Header>, bool) {
    if !h.open then (p, h, headers, false)
    else
      var (q, h', r) := Flush(p, h);
      (q, if r.Found? then h'.(open := false) else h', SaveHeader(headers, h), r.Found?)
  }

  // ----- runs

  datatype Files = Files(
    pool: Pool, handles: map<int, Handle>, headers: map<int, Header>,
    store: map<Key, Page>, unsaved: set<Key>, peak: map<int, nat>)

  /** Pages are accessed through the open handle; a call on a file that is not open fails. */
  predicate OnPages(op: FileOp) {
    !op.Create? && !op.Open?
  }

  /** The free list of a file that is in order. */
  ghost function ChainOf(p: Pool, h: Handle): (chain: seq<int>)
    requires FileGood(p, h)
    ensures FileOk(p, h, chain)
  {
    var chain :| FileOk(p, h, chain);
    chain
  }

  ghost function StepFiles(fs: Files, op: FileOp): Files
    requires op.fd in fs.handles ==> fs.handles[op.fd].open && FileGood(fs.pool, fs.handles[op.fd])
  {
    if op.Create? then
      var (headers, made) := CreateFile(fs.headers, op.fd);
      fs.(headers := headers, peak := if made then fs.peak[op.fd := 0] else fs.peak)
    else if op.Open? then
      match OpenedFile(fs.headers, op.fd)
      case None => fs
      case Some(h) => fs.(handles := fs.handles[op.fd := h])
    else if op.fd !in fs.handles then fs
    else
      var h := fs.handles[op.fd];
      var (q, h', r) := Act(fs.pool, h, op, ChainOf(fs.pool, h));
      Files(
        q,
        if op.Close? && r.Found? then fs.handles - {op.fd} else fs.handles[op.fd := h'],
        if SavesHeader(op) then SaveHeader(fs.headers, h) else fs.headers,
        StoreAfter(fs.store, h, op, r), UnsavedAfter(fs.pool, fs.unsaved, h, op, r),
        fs.peak[op.fd := Max(if op.fd in fs.peak then fs.peak[op.fd] else 0, |Live(q, h')|)])
  }

  function Max(a: nat, b: nat): nat { if b > a then b else a }

  /** What clients owe: to open a file once at a time, and to mark what they wrote before the page's last
      unpin. */
  predicate Allowed(fs: Files, op: FileOp) {
    if op.Open? then op.fd !in fs.handles
    else op.fd in fs.handles ==> Careful(fs.pool, fs.unsaved, fs.handles[op.fd], op)
  }

  /** The handle of a file: as it is, or as opening it would make it. */
  function Current(fs: Files, fd: int): Handle
    requires fd in fs.headers
  {
    if fd in fs.handles then fs.handles[fd] else Handle(fd, fs.headers[fd], true, false)
  }

  ghost predicate FileKept(fs: Files, fd: int)
    requires fd in fs.headers
  {
    var h := Current(fs, fd);
    && h.fd == fd && h.open && FileGood(fs.pool, h)
    && fd in fs.peak && fs.peak[fd] == h.header.pageNum
    && (h.changed || fs.headers[fd] == h.header)
  }

  /** Every file, open or not, has its free list in order and its header safe; cached pages belong to open
      files; and the cache shows the plain store. */
  ghost predicate FilesOk(fs: Files) {
    && PoolOk(fs.pool) && Shows(fs.pool, fs.store, fs.unsaved)
    && fs.handles.Keys <= fs.headers.Keys
    && (forall fd :: fd in fs.headers ==> FileKept(fs, fd))
    && (forall k :: k in fs.pool.table ==> k.fd in fs.handles)
  }

  ghost predicate FilesStart(fs: Files) {
    && PoolOk(fs.pool) && Shows(fs.pool, fs.store, {}) && fs.unsaved == {} && fs.pool.table == map[]
    && fs.handles == map[] && fs.headers == map[] && fs.peak == map[]
  }

  /** Files that an operation does not name. */
  lemma OtherFileKept(fs: Files, fs': Files, h: Handle, h': Handle, fd: int)
    requires fd in fs.headers && fd in fs'.headers && FileKept(fs, fd) && fd != h.fd
    requires Acted(fs.pool, h, fs'.pool, h')
    requires Current(fs', fd) == Current(fs, fd) && fs'.headers[fd] == fs.headers[fd]
    requires fd in fs'.peak && fs'.peak[fd] == fs.peak[fd]
    ensures FileKept(fs', fd)
  {
    hide FileOk, PoolOk, Pins;
    var g := Current(fs, fd);
    var chain :| FileOk(fs.pool, g, chain);
    OtherFileOk(fs.pool, fs'.pool, g, chain);
  }

  lemma CreateKept(fs: Files, op: FileOp)
    requires FilesOk(fs) && op.Create?
    ensures FilesOk(StepFiles(fs, op))
  {
    hide PoolOk, Shows;
    var fs' := StepFiles(fs, op);
    if op.fd !in fs.headers {
      NewFileOk(fs.pool, op.fd);
      forall fd | fd in fs'.headers
        ensures FileKept(fs', fd)
      {
        if fd != op.fd {
          assert FileKept(fs, fd);
        }
      }
    }
  }

  lemma NewFileOk(p: Pool, fd: int)
    requires PoolOk(p) && forall k :: k in p.table ==> k.fd != fd
    ensures FileOk(p, Handle(fd, Header(PAGE_LIST_END, 0), true, false), [])
  {
    hide PoolOk;
  }

  lemma OpenKept(fs: Files, op: FileOp)
    requires FilesOk(fs) && op.Open? && Allowed(fs, op)
    ensures FilesOk(StepFiles(fs, op))
  {
    hide PoolOk, Shows, FileOk;
    var fs' := StepFiles(fs, op);
    forall fd | fd in fs'.headers
      ensures FileKept(fs', fd)
    {
      assert FileKept(fs, fd);
    }
  }

  /** The file that an operation on its pages names. */
  lemma OwnFileKept(fs: Files, op: FileOp)
    requires FilesOk(fs) && OnPages(op) && op.fd in fs.handles
    ensures FileKept(fs, op.fd)
    ensures StepFiles(fs, op).headers.Keys == fs.headers.Keys && FileKept(StepFiles(fs, op), op.fd)
  {
    hide PoolOk, Shows, FileOk, Act;
    assert FileKept(fs, op.fd);
    var p, h, fs' := fs.pool, fs.handles[op.fd], StepFiles(fs, op);
    var chain := ChainOf(p, h);
    ActOk(p, h, op, chain);
    PeakKept(p, h, op, chain);
    var (q, h', r) := Act(p, h, op, chain);
    if op.Close? && r.Found? {
      var now :| FileOk(q, h', now);
      HandleFrame(q, h', Handle(op.fd, h'.header, true, false), now);
    }
  }

  lemma TableKept(fs: Files, op: FileOp)
    requires FilesOk(fs) && OnPages(op) && op.fd in fs.handles
    ensures forall k :: k in StepFiles(fs, op).pool.table ==> k.fd in StepFiles(fs, op).handles
  {
    hide PoolOk, Shows, FileOk, Act;
    assert FileKept(fs, op.fd);
    var p, h, fs' := fs.pool, fs.handles[op.fd], StepFiles(fs, op);
    ActOk(p, h, op, ChainOf(p, h));
    if op.Close? && op.fd !in fs'.handles {
      ClosedTable(p, h, op, ChainOf(p, h));
    }
  }

  lemma ClosedTable(p: Pool, h: Handle, op: FileOp, chain: seq<int>)
    requires FileOk(p, h, chain) && h.open && op.Close?
    ensures var (q, _, r) := Act(p, h, op, chain);
      && (r.Found? <==> PoolTheorems.NonePinned(p, h.fd))
      && (r.Found? ==> forall k :: k in q.table ==> k.fd != h.fd)
  {
    hide Lists, Index, LinksSaved, Chained, Distinct, Readable, OnlyOwnPages, PinnedInUse, FreeList;
    PoolTheorems.FlushClears(p, h.fd, 0);
    FlushLinks(p, h.fd, 0);
    var q := FlushPages(p, h.fd).0;
    if PoolTheorems.NonePinned(p, h.fd) {
      ClearedTable(q, h.fd);
    }
  }

  lemma ClearedTable(q: Pool, fd: int)
    requires Valid(q) && PoolTheorems.Cleared(q, fd, |q.slots|)
    ensures forall k :: k in q.table ==> k.fd != fd
  {
    hide Lists;
  }

  lemma ActKept(fs: Files, op: FileOp)
    requires FilesOk(fs) && OnPages(op) && op.fd in fs.handles && Allowed(fs, op)
    ensures FilesOk(StepFiles(fs, op))
    ensures Act(fs.pool, fs.handles[op.fd], op, ChainOf(fs.pool, fs.handles[op.fd])).2 != Failed(Cache(ShortRead))
  {
    hide PoolOk, Shows, FileOk, Act;
    OwnFileKept(fs, op);
    TableKept(fs, op);
    var p, h, fs' := fs.pool, fs.handles[op.fd], StepFiles(fs, op);
    var chain := ChainOf(p, h);
    ActOk(p, h, op, chain);
    ActShows(p, h, op, chain, fs.store, fs.unsaved);
    var h' := Act(p, h, op, chain).1;
    hide FileKept;
    forall fd | fd in fs'.headers
      ensures FileKept(fs', fd)
    {
      if fd != op.fd {
        OtherFileKept(fs, fs', h, h', fd);
      }
    }
  }

  lemma StepFilesOk(fs: Files, op: FileOp)
    requires FilesOk(fs) && Allowed(fs, op)
    ensures op.fd in fs.handles ==> fs.handles[op.fd].open && FileGood(fs.pool, fs.handles[op.fd])
    ensures FilesOk(StepFiles(fs, op))
  {
    hide PoolOk, Shows, FileOk, Act;
    assert op.fd in fs.handles ==> FileKept(fs, op.fd);
    if op.Create? {
      CreateKept(fs, op);
    } else if op.Open? {
      OpenKept(fs, op);
    } else if op.fd in fs.handles {
      ActKept(fs, op);
    }
  }

  /** A run of allowed operations. */
  ghost predicate FilesRun(fs: Files, ops: seq<FileOp>, fs': Files)
    decreases |ops|
  {
    if ops == [] then fs' == fs
    else
      && Allowed(fs, ops[0])
      && (ops[0].fd in fs.handles ==> fs.handles[ops[0].fd].open && FileGood(fs.pool, fs.handles[ops[0].fd]))
      && FilesRun(StepFiles(fs, ops[0]), ops[1..], fs')
  }

  lemma {:induction false} FilesRunOk(fs: Files, ops: seq<FileOp>, fs': Files)
    requires FilesOk(fs) && FilesRun(fs, ops, fs')
    ensures FilesOk(fs')
    decreases |ops|
  {
    hide FilesOk, StepFiles, FileGood;
    if ops != [] {
      StepFilesOk(fs, ops[0]);
      FilesRunOk(StepFiles(fs, ops[0]), ops[1..], fs');
    }
  }

  /** Every allowed operation continues the run. */
  lemma {:induction false} RunContinues(fs: Files, ops: seq<FileOp>, fs': Files, op: FileOp)
    requires FilesOk(fs) && FilesRun(fs, ops, fs') && Allowed(fs', op)
    ensures op.fd in fs'.handles ==> fs'.handles[op.fd].open && FileGood(fs'.pool, fs'.handles[op.fd])
    ensures FilesRun(fs, ops + [op], StepFiles(fs', op))
    decreases |ops|
  {
    hide FilesOk, StepFiles, FileGood, Allowed;
    if ops == [] {
      StepFilesOk(fs, op);
      assert (ops + [op])[1..] == [];
    } else {
      StepFilesOk(fs, ops[0]);
      RunContinues(StepFiles(fs, ops[0]), ops[1..], fs', op);
      assert (ops + [op])[1..] == ops[1..] + [op];
    }
  }

  lemma RunFromStart(fs0: Files, ops: seq<FileOp>, fs: Files)
    requires FilesStart(fs0) && FilesRun(fs0, ops, fs)
    ensures FilesOk(fs)
  {
    FilesRunOk(fs0, ops, fs);
  }

  /** In every run, whatever the clients do: the free list of each file, open or closed, is acyclic, in range
      and exactly its pages not in use; every page below the count can be read; and the page count is the
      largest number of pages ever in use at once. */
  lemma RunKeepsFreeLists(fs0: Files, ops: seq<FileOp>, fs: Files, fd: int) returns (chain: seq<int>)
    requires FilesStart(fs0) && FilesRun(fs0, ops, fs) && fd in fs.headers
    ensures var h := Current(fs, fd);
      && FreeList(fs.pool, h, chain)
      && Readable(fs.pool, h)
      && fd in fs.peak && h.header.pageNum == fs.peak[fd]
  {
    RunFromStart(fs0, ops, fs);
    assert FileKept(fs, fd);
    chain := ChainOf(fs.pool, Current(fs, fd));
  }

  /** In every run each page shows what a plain store holds that knows nothing of slots, eviction or disk. */
  lemma PagesShowStore(fs0: Files, ops: seq<FileOp>, fs: Files, k: Key)
    requires FilesStart(fs0) && FilesRun(fs0, ops, fs)
    ensures Seen(fs.pool, k) == PoolRuns.Find(fs.store, k)
  {
    RunFromStart(fs0, ops, fs);
    ShowsValid(fs.pool, fs.store, fs.unsaved);
  }

  /** No operation of any run ends in a short read. */
  lemma NeverShort(fs0: Files, ops: seq<FileOp>, fs: Files, op: FileOp)
    requires FilesStart(fs0) && FilesRun(fs0, ops, fs) && op.fd in fs.handles
    ensures fs.handles[op.fd].open && FileGood(fs.pool, fs.handles[op.fd])
    ensures Act(fs.pool, fs.handles[op.fd], op, ChainOf(fs.pool, fs.handles[op.fd])).2 != Failed(Cache(ShortRead))
  {
    hide PoolOk, Shows, FileOk, Act;
    RunFromStart(fs0, ops, fs);
    assert FileKept(fs, op.fd);
    ActOk(fs.pool, fs.handles[op.fd], op, ChainOf(fs.pool, fs.handles[op.fd]));
  }

  /** After every run, a file is made exactly if there is none: it can then be opened, has no page and no free
      one, and nothing else has changed. */
  lemma CreatedOpens(fs0: Files, ops: seq<FileOp>, fs: Files, fd: int)
    requires FilesStart(fs0) && FilesRun(fs0, ops, fs) && fd !in fs.handles
    ensures var fs1 := StepFiles(fs, Create(fd));
      && (fd in fs.headers ==> fs1 == fs)
      && (fd !in fs.headers ==>
          && fs1.pool == fs.pool && fs1.handles == fs.handles && fs1.store == fs.store
          && (forall g :: g != fd ==> (g in fs1.headers <==> g in fs.headers))
          && (forall g :: g in fs.headers ==> fs1.headers[g] == fs.headers[g])
          && var fs2 := StepFiles(fs1, Open(fd));
          && fs2.pool == fs.pool && fd in fs2.handles && fs2.handles[fd] == Handle(fd, Header(PAGE_LIST_END, 0), true, false)
          && FileOk(fs2.pool, fs2.handles[fd], []))
  {
    hide FilesRun;
    RunFromStart(fs0, ops, fs);
    if fd !in fs.headers {
      hide PoolOk, FileOk;
      assert forall k :: k in fs.pool.table ==> k.fd != fd;
      NewFileOk(fs.pool, fd);
    }
  }

  /** After every run, forcing a page of an open file, or all of them, leaves the file's header on disk, and each
      page that was asked for exactly as the plain store has it, unless it has a change still to be marked. */
  lemma ForceLeavesStore(fs0: Files, ops: seq<FileOp>, fs: Files, fd: int, page: int)
    requires FilesStart(fs0) && FilesRun(fs0, ops, fs) && fd in fs.handles
    ensures fs.handles[fd].open && FileGood(fs.pool, fs.handles[fd])
    ensures var fs' := StepFiles(fs, ForceFile(fd, page));
      && fd in fs'.headers && fs'.headers[fd] == fs.handles[fd].header
      && forall k :: PoolOutcomes.Asked(k, fd, page) && k !in fs.unsaved ==>
           PoolRuns.Find(fs'.pool.disk, k) == PoolRuns.Find(fs.store, k)
  {
    hide FilesRun;
    RunFromStart(fs0, ops, fs);
    assert FileKept(fs, fd);
    hide PoolOk, FileOk, ForceFrom, FilesStart;
    var h := fs.handles[fd];
    assert Act(fs.pool, h, ForceFile(fd, page), ChainOf(fs.pool, h)).0 == ForcePage(fs.pool, fd, page);
    forall k | PoolOutcomes.Asked(k, fd, page) && k !in fs.unsaved
      ensures PoolRuns.Find(ForcePage(fs.pool, fd, page).disk, k) == PoolRuns.Find(fs.store, k)
    {
      PoolOutcomes.OnDiskOnceForced(PoolRuns.World(fs.pool, fs.store, fs.unsaved, map[], 0), fd, page, k);
    }
  }

  // ----- closing and opening again

  /** One close: it succeeds exactly when no page is pinned, and then the file would open again in order,
      with the header it had and nothing cached. */
  lemma CloseThenOpen(p: Pool, h: Handle, headers: map<int, Header>, chain: seq<int>)
    requires FileOk(p, h, chain) && h.open && (h.changed || (h.fd in headers && headers[h.fd] == h.header))
    ensures var (q, h1, headers', ok) := CloseFile(p, h, headers);
      && (ok <==> PoolTheorems.NonePinned(p, h.fd))
      && h.fd in headers' && headers'[h.fd] == h.header
      && FileOk(q, Handle(h.fd, headers'[h.fd], true, false), chain)
      && (ok ==> !h1.open && forall k :: k in q.table ==> k.fd != h.fd)
  {
    hide FileOk, Link, Pins, FlushFrom, PoolOk;
    ClosedTable(p, h, Close(h.fd), chain);
    PlainLinks(p, h, Close(h.fd), chain);
    assert Act(p, h, Close(h.fd), chain).0 == FlushPages(p, h.fd).0;
    var q := FlushPages(p, h.fd).0;
    SameLinksOk(p, q, h, chain);
    HandleFrame(q, h, Handle(h.fd, h.header, true, false), chain);
  }

  /** Closing an open file is flushing it, and marking it closed if that went well. */
  lemma CloseIs(p: Pool, h: Handle, headers: map<int, Header>)
    ensures !h.open ==> CloseFile(p, h, headers) == (p, h, headers, false)
    ensures h.open ==>
      var (q, h', r) := Flush(p, h);
      CloseFile(p, h, headers) == (q, if r.Found? then h'.(open := false) else h', SaveHeader(headers, h), r.Found?)
  {
    hide FlushFrom;
  }

  /** After every run, closing a file succeeds exactly when none of its pages is pinned.  Its header is then
      on disk, its pages are on disk exactly as the plain store has them, and none is cached. */
  lemma CloseLeavesStore(fs0: Files, ops: seq<FileOp>, fs: Files, fd: int)
    requires FilesStart(fs0) && FilesRun(fs0, ops, fs) && fd in fs.handles
    ensures fs.handles[fd].open && FileGood(fs.pool, fs.handles[fd])
    ensures var fs' := StepFiles(fs, Close(fd));
      && (fd !in fs'.handles <==> PoolTheorems.NonePinned(fs.pool, fd))
      && (fd !in fs'.handles ==>
          && fd in fs'.headers && fs'.headers[fd] == fs.handles[fd].header
          && (forall k :: k in fs'.pool.table ==> k.fd != fd)
          && (forall page :: PoolRuns.Find(fs'.pool.disk, Key(fd, page)) == PoolRuns.Find(fs.store, Key(fd, page))))
  {
    hide PoolOk, Shows, FileOk, Act;
    RunFromStart(fs0, ops, fs);
    var op, p, h := Close(fd), fs.pool, fs.handles[fd];
    StepFilesOk(fs, op);
    OwnFileKept(fs, op);
    ClosedTable(p, h, op, ChainOf(p, h));
    ActOk(p, h, op, ChainOf(p, h));
    var fs' := StepFiles(fs, op);
    if fd !in fs'.handles {
      assert FileKept(fs', fd);
      ShowsValid(fs'.pool, fs'.store, fs'.unsaved);
      forall page
        ensures PoolRuns.Find(fs'.pool.disk, Key(fd, page)) == PoolRuns.Find(fs.store, Key(fd, page))
      {
        assert Seen(fs'.pool, Key(fd, page)) == PoolRuns.Find(fs'.store, Key(fd, page));
      }
    }
  }

  /** While a file is closed and not opened again, its header and its pages in the plain store stay. */
  lemma {:induction false} ClosedStays(fs: Files, ops: seq<FileOp>, fs': Files, fd: int)
    requires FilesOk(fs) && FilesRun(fs, ops, fs') && fd in fs.headers && fd !in fs.handles
    requires forall n :: 0 <= n < |ops| ==> ops[n] != Open(fd)
    ensures FilesOk(fs') && fd !in fs'.handles && fd in fs'.headers && fs'.headers[fd] == fs.headers[fd]
    ensures forall page :: PoolRuns.Find(fs'.store, Key(fd, page)) == PoolRuns.Find(fs.store, Key(fd, page))
    decreases |ops|
  {
    hide FilesOk, FileGood;
    if ops != [] {
      StepFilesOk(fs, ops[0]);
      StepLeavesClosed(fs, ops[0], fd);
      assert forall n :: 0 <= n < |ops[1..]| ==> ops[1..][n] == ops[n + 1];
      hide StepFiles;
      ClosedStays(StepFiles(fs, ops[0]), ops[1..], fs', fd);
    }
  }

  lemma StepLeavesClosed(fs: Files, op: FileOp, fd: int)
    requires FilesOk(fs) && Allowed(fs, op) && fd in fs.headers && fd !in fs.handles && op != Open(fd)
    requires op.fd in fs.handles ==> fs.handles[op.fd].open && FileGood(fs.pool, fs.handles[op.fd])
    ensures var fs' := StepFiles(fs, op);
      && fd !in fs'.handles && fd in fs'.headers && fs'.headers[fd] == fs.headers[fd]
      && forall page :: PoolRuns.Find(fs'.store, Key(fd, page)) == PoolRuns.Find(fs.store, Key(fd, page))
  {
    hide PoolOk, Shows, FileOk, Act;
    if OnPages(op) && op.fd in fs.handles {
      assert FileKept(fs, op.fd);
    }
  }

  /** Whatever happens to other files in between, opening a closed file again gives back its header, its
      free list and the contents of every page, as they were when it was closed. */
  lemma ReopenGivesBack(fs0: Files, ops: seq<FileOp>, fs: Files, fd: int, more: seq<FileOp>, fs1: Files) returns (chain: seq<int>)
    requires FilesStart(fs0) && FilesRun(fs0, ops, fs) && fd in fs.handles
    requires fs.handles[fd].open && FileGood(fs.pool, fs.handles[fd]) && fd !in StepFiles(fs, Close(fd)).handles
    requires FilesRun(StepFiles(fs, Close(fd)), more, fs1) && forall n :: 0 <= n < |more| ==> more[n] != Open(fd)
    ensures fd !in fs1.handles
    ensures var fs2 := StepFiles(fs1, Open(fd));
      && fd in fs2.handles && fs2.handles[fd] == Handle(fd, fs.handles[fd].header, true, false)
      && FileOk(fs2.pool, fs2.handles[fd], chain)
      && forall page :: Seen(fs2.pool, Key(fd, page)) == Seen(fs.pool, Key(fd, page))
  {
    hide PoolOk, Shows, FileOk, Act, FilesRun;
    var op := Close(fd);
    RunFromStart(fs0, ops, fs);
    CloseLeavesStore(fs0, ops, fs, fd);
    StepFilesOk(fs, op);
    var fs' := StepFiles(fs, op);
    ClosedStays(fs', more, fs1, fd);
    ShowsValid(fs.pool, fs.store, fs.unsaved);
    ShowsValid(fs1.pool, fs1.store, fs1.unsaved);
    assert FileKept(fs1, fd);
    chain := ChainOf(fs1.pool, Current(fs1, fd));
    assert fs'.store == fs.store;
  }
}
