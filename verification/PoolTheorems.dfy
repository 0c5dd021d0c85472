/** What the page cache promises over whole runs: it is indistinguishable from the plain store, it
    evicts the least recently touched unpinned page, pinned pages stay where they are, and a flush
    leaves the file's pages on disk.
 */
module PoolTheorems {
  import opened Basics
  import opened Pool
  import opened PoolRuns

  // ----- recency

  function Time(last: map<Key, nat>, k: Key): int {
    if k in last then last[k] else -1
  }

  /** The used list runs from the most to the least recently touched page. */
  ghost predicate Ordered(slots: seq<Slot>, used: seq<nat>, last: map<Key, nat>)
    requires Below(used, |slots|)
  {
    used == [] ||
    (&& (forall j :: j in Elems(used[1..]) && j < |slots| ==> Time(last, slots[used[0]].key) > Time(last, slots[j].key))
     && Ordered(slots, used[1..], last))
  }

  ghost predicate Dated(p: Pool, used: set<nat>, last: map<Key, nat>, clock: nat) {
    forall i :: i in used && i < |p.slots| ==> p.slots[i].key in last && last[p.slots[i].key] < clock
  }

  ghost predicate Recent(w: World) {
    && Below(w.pool.used, |w.pool.slots|)
    && Ordered(w.pool.slots, w.pool.used, w.last)
    && Dated(w.pool, Elems(w.pool.used), w.last, w.clock)
  }

  lemma BelowWithout(s: seq<nat>, x: nat, n: nat)
    requires Below(s, n)
    ensures Below(Without(s, x), n)
    ensures Elems(Without(s, x)) <= Elems(s)
  {
    if s != [] {
      assert s == [s[0]] + s[1..];
      ElemsCons(s[0], s[1..]);
      if s[0] != x {
        BelowWithout(s[1..], x, n);
        ElemsCons(s[0], Without(s[1..], x));
      }
    }
  }

  lemma {:induction false} OrderedWithout(slots: seq<Slot>, used: seq<nat>, last: map<Key, nat>, x: nat)
    requires Below(used, |slots|) && Ordered(slots, used, last)
    ensures Below(Without(used, x), |slots|) && Ordered(slots, Without(used, x), last)
  {
    BelowWithout(used, x, |slots|);
    if used != [] && used[0] != x {
      OrderedWithout(slots, used[1..], last, x);
      BelowWithout(used[1..], x, |slots|);
      assert Without(used, x)[1..] == Without(used[1..], x);
    }
  }

  /** Only the keys and times of the listed slots matter. */
  lemma {:induction false} OrderedFrame(slots: seq<Slot>, slots': seq<Slot>, used: seq<nat>, last: map<Key, nat>, last': map<Key, nat>)
    requires Below(used, |slots|) && |slots'| == |slots| && Ordered(slots, used, last)
    requires forall j :: j in Elems(used) && j < |slots| ==> Time(last', slots'[j].key) == Time(last, slots[j].key)
    ensures Ordered(slots', used, last')
  {
    if used != [] {
      assert used == [used[0]] + used[1..];
      ElemsCons(used[0], used[1..]);
      OrderedFrame(slots, slots', used[1..], last, last');
    }
  }

  lemma OrderedCons(slots: seq<Slot>, x: nat, s: seq<nat>, last: map<Key, nat>)
    requires x < |slots| && Below(s, |slots|) && Ordered(slots, s, last)
    requires forall j :: j in Elems(s) && j < |slots| ==> Time(last, slots[x].key) > Time(last, slots[j].key)
    ensures Below([x] + s, |slots|) && Ordered(slots, [x] + s, last)
  {
    assert ([x] + s)[1..] == s;
  }

  /** Moving slot `i`, now holding page `k`, to the front at the present time. */
  lemma FrontRecent(w: World, slots': seq<Slot>, i: nat, rest: seq<nat>)
    requires Recent(w) && |slots'| == |w.pool.slots| && i < |slots'|
    requires Below(rest, |slots'|) && Ordered(w.pool.slots, rest, w.last) && Elems(rest) <= Elems(w.pool.used)
    requires forall j :: j in Elems(rest) && j < |slots'| ==> slots'[j].key == w.pool.slots[j].key && slots'[j].key != slots'[i].key
    ensures var last' := w.last[slots'[i].key := w.clock];
      && Below([i] + rest, |slots'|) && Ordered(slots', [i] + rest, last')
      && forall j :: j in Elems([i] + rest) && j < |slots'| ==> slots'[j].key in last' && last'[slots'[j].key] < w.clock + 1
  {
    var last' := w.last[slots'[i].key := w.clock];
    OrderedFrame(w.pool.slots, slots', rest, w.last, last');
    OrderedCons(slots', i, rest, last');
    ElemsCons(i, rest);
  }

  lemma TouchRecent(w: World, slots': seq<Slot>, i: nat)
    requires Valid(w.pool) && Recent(w) && i in Elems(w.pool.used) && |slots'| == |w.pool.slots|
    requires forall j :: 0 <= j < |slots'| ==> slots'[j].key == w.pool.slots[j].key
    ensures i < |slots'|
    ensures Recent(World(Touch(w.pool.(slots := slots'), i), w.store, w.unsaved, w.last[slots'[i].key := w.clock], w.clock + 1))
  {
    hide Lists;
    var p := w.pool;
    WithoutElems(p, i);
    OrderedWithout(p.slots, p.used, w.last, i);
    FrontRecent(w, slots', i, Without(p.used, i));
  }

  lemma WithoutElems(p: Pool, i: nat)
    requires Valid(p)
    ensures Elems(Without(p.used, i)) == Elems(p.used) - {i}
  {
    WithoutFacts(p.used, i);
  }

  /** The slot just taken is at the front, and the rest of the used list is in order. */
  lemma GrabRecent(w: World, k: Key, data: Page)
    requires Valid(w.pool) && Recent(w) && k !in w.pool.table && Grab(w.pool).Some?
    ensures var (q, i) := Grab(w.pool).value;
      && i < |q.slots|
      && Recent(World(Install(q, i, k, data), w.store, w.unsaved, w.last[k := w.clock], w.clock + 1))
  {
    hide Lists, Ordered;
    var p := w.pool;
    GrabValid(p);
    var (q, i) := Grab(p).value;
    var slots' := p.slots[i := Slot(false, k, data, 1)];
    if p.free != [] {
      FreeNotUsed(p);
      FrontRecent(w, slots', i, p.used);
    } else {
      VictimFront(w, slots', i);
    }
  }

  lemma VictimFront(w: World, slots': seq<Slot>, i: nat)
    requires Valid(w.pool) && Recent(w) && i in Elems(w.pool.used) && |slots'| == |w.pool.slots| && i < |slots'|
    requires slots' == w.pool.slots[i := slots'[i]] && slots'[i].key !in w.pool.table
    ensures var last' := w.last[slots'[i].key := w.clock];
      var rest := Without(w.pool.used, i);
      && Below([i] + rest, |slots'|) && Ordered(slots', [i] + rest, last')
      && forall j :: j in Elems([i] + rest) && j < |slots'| ==> slots'[j].key in last' && last'[slots'[j].key] < w.clock + 1
  {
    hide Lists;
    WithoutElems(w.pool, i);
    OrderedWithout(w.pool.slots, w.pool.used, w.last, i);
    FrontRecent(w, slots', i, Without(w.pool.used, i));
  }


  lemma {:induction false} FlushRecent(w: World, fd: int, i: nat)
    requires Valid(w.pool) && Recent(w)
    ensures Recent(w.(pool := FlushFrom(w.pool, fd, i, true).0))
    decreases |w.pool.slots| - i
  {
    hide Valid, Recent;
    var p := w.pool;
    if i < |p.slots| {
      if p.slots[i].key.fd == fd && i in p.used {
        if p.slots[i].pin <= 0 {
          assert i in Elems(p.used);
          ReleaseRecent(w, i);
          ReleaseValid(p, i);
          FlushRecent(w.(pool := ReleaseSlot(p, i)), fd, i + 1);
        }
      } else {
        FlushRecent(w, fd, i + 1);
      }
    }
  }

  lemma ReleaseRecent(w: World, i: nat)
    requires Valid(w.pool) && Recent(w) && i in Elems(w.pool.used)
    ensures i < |w.pool.slots| && Recent(w.(pool := ReleaseSlot(w.pool, i)))
  {
    hide Lists;
    var p := w.pool;
    var q := ReleaseSlot(p, i);
    WithoutElems(p, i);
    OrderedWithout(p.slots, p.used, w.last, i);
    OrderedFrame(p.slots, q.slots, q.used, w.last, w.last);
  }

  lemma {:induction false} ForceRecent(w: World, fd: int, page: int, n: nat)
    requires Valid(w.pool) && Recent(w)
    ensures Recent(w.(pool := ForceFrom(w.pool, fd, page, n)))
    decreases |w.pool.used| - n
  {
    hide Lists;
    var p := w.pool;
    if n < |p.used| {
      var i := p.used[n];
      if Forced(p.slots[i], fd, page) {
        var q := p.(slots := p.slots[i := p.slots[i].(dirty := false)], disk := SaveSlot(p, i));
        SlotChangeValid(p, i, q.slots[i]);
        OrderedFrame(p.slots, q.slots, p.used, w.last, w.last);
        ForceRecent(w.(pool := q), fd, page, n + 1);
      } else {
        ForceRecent(w, fd, page, n + 1);
      }
    }
  }

  lemma GetRecent(w: World, op: Op)
    requires Coherent(w) && Recent(w) && op.Get? && op.k in w.store
    ensures Recent(Step(w, op))
  {
    hide Lists, Ordered;
    var p, k := w.pool, op.k;
    GetCoherent(w, op);
    if k in p.table {
      TouchRecent(w, p.slots[p.table[k] := p.slots[p.table[k]].(pin := p.slots[p.table[k]].pin + 1)], p.table[k]);
    } else if Grab(p).Some? {
      GrabRecent(w, k, if k in Grab(p).value.0.disk then Grab(p).value.0.disk[k] else Page(0, []));
    }
  }

  lemma AllocateRecent(w: World, op: Op)
    requires Valid(w.pool) && Recent(w) && op.Allocate?
    ensures Recent(Step(w, op))
  {
    hide Lists, Ordered;
    var p, k := w.pool, op.k;
    if k !in p.table && Grab(p).Some? {
      GrabInRange(p);
      GrabRecent(w, k, Grab(p).value.0.slots[Grab(p).value.1].data);
    }
  }

  lemma DirtyRecent(w: World, op: Op)
    requires Valid(w.pool) && Recent(w) && op.Dirty?
    ensures Recent(Step(w, op))
  {
    hide Lists, Ordered;
    var p, k := w.pool, op.k;
    if k in p.table {
      TouchRecent(w, p.slots[p.table[k] := p.slots[p.table[k]].(dirty := true)], p.table[k]);
    }
  }

  lemma WriteRecent(w: World, op: Op)
    requires Valid(w.pool) && Recent(w) && op.Write?
    ensures Recent(Step(w, op))
  {
    hide Lists, Index, Below, Ordered, Dated;
    var p, k := w.pool, op.k;
    if k in p.table {
      Resident(p, k);
      SameKeysRecent(w, p.slots[p.table[k] := p.slots[p.table[k]].(data := op.data)], w.clock + 1);
    }
  }

  lemma StepRecent(w: World, op: Op)
    requires Coherent(w) && Recent(w) && Disciplined(w, op)
    ensures Recent(Step(w, op))
  {
    hide Lists, Ordered;
    match op
    case Get(_, _) => GetRecent(w, op);
    case Allocate(_) => AllocateRecent(w, op);
    case Dirty(_) => DirtyRecent(w, op);
    case Unpin(_) => UnpinRecent(w, op);
    case Write(_, _) => WriteRecent(w, op);
    case Flush(fd) => FlushRecent(w, fd, 0);
    case Force(fd, page) => ForceRecent(w, fd, page, 0);
  }

  lemma UnpinRecent(w: World, op: Op)
    requires Valid(w.pool) && Recent(w) && op.Unpin?
    ensures Recent(Step(w, op))
  {
    hide Lists, Index, Below, Ordered, Dated;
    var p, k := w.pool, op.k;
    if k in p.table {
      Resident(p, k);
      var i := p.table[k];
      if p.slots[i].pin != 0 {
        var slots' := p.slots[i := p.slots[i].(pin := p.slots[i].pin - 1)];
        if p.slots[i].pin == 1 {
          TouchRecent(w, slots', i);
        } else {
          SameKeysRecent(w, slots', w.clock + 1);
        }
      }
    }
  }

  /** Slots that keep their keys and places, at a later time. */
  lemma SameKeysRecent(w: World, slots': seq<Slot>, clock: nat)
    requires Recent(w) && |slots'| == |w.pool.slots| && w.clock <= clock
    requires forall j :: 0 <= j < |slots'| ==> slots'[j].key == w.pool.slots[j].key
    ensures Recent(World(w.pool.(slots := slots'), w.store, w.unsaved, w.last, clock))
    ensures forall store, unsaved, disk :: Recent(World(w.pool.(slots := slots', disk := disk), store, unsaved, w.last, clock))
  {
    OrderedFrame(w.pool.slots, slots', w.pool.used, w.last, w.last);
  }

  // ----- runs

  ghost predicate IsStart(w: World) {
    && w.pool.free == seq(|w.pool.slots|, i => i) && w.pool.used == []
    && w.pool.table == map[] && w.store == w.pool.disk
    && w.unsaved == {} && w.last == map[] && w.clock == 0
  }

  ghost predicate Runs(w: World, ops: seq<Op>, w': World)
    decreases |ops|
  {
    if ops == [] then w' == w
    else InRange(w.pool) && Disciplined(w, ops[0]) && Runs(Step(w, ops[0]), ops[1..], w')
  }

  lemma {:induction false} RunKeeps(w: World, ops: seq<Op>, w': World)
    requires Coherent(w) && Recent(w) && Runs(w, ops, w')
    ensures Coherent(w') && Recent(w')
    decreases |ops|
  {
    hide Coherent, Recent, Step, Disciplined;
    if ops != [] {
      StepCoherent(w, ops[0]);
      StepRecent(w, ops[0]);
      RunKeeps(Step(w, ops[0]), ops[1..], w');
    }
  }

  lemma StartKeeps(w: World)
    requires IsStart(w)
    ensures Coherent(w) && Recent(w)
  {
    var p := w.pool;
    assert Elems(p.used) == {};
    forall i: nat
      ensures i in Elems(p.free) <==> i < |p.slots|
    {
      if i < |p.slots| {
        assert p.free[i] == i;
      }
    }
    assert Elems(p.free) == Upto(|p.slots|);
  }

  /** In every run of disciplined operations the cache shows, for each page, what the plain store
      holds. */
  lemma CacheShowsStore(w0: World, ops: seq<Op>, w: World, k: Key)
    requires IsStart(w0) && Runs(w0, ops, w)
    ensures Seen(w.pool, k) == Find(w.store, k)
  {
    StartKeeps(w0);
    RunKeeps(w0, ops, w);
  }

  /** After every such run, `get_page` of a page that exists hands out that page's contents, and fails
      only when all slots are pinned or a sole pin was asked for and the page is pinned. */
  lemma GetReadsStore(w0: World, ops: seq<Op>, w: World, k: Key, multiplePins: bool)
    requires IsStart(w0) && Runs(w0, ops, w) && k in w.store
    ensures InRange(w.pool)
    ensures var (q, r) := GetPage(w.pool, k, multiplePins);
      match r
      case Ok(i) => i < |q.slots| && q.slots[i].key == k && q.slots[i].data == w.store[k] && q.slots[i].pin > 0
      case Err(NoBuffer) => k !in w.pool.table && w.pool.free == [] && forall i :: i in Elems(w.pool.used) ==> w.pool.slots[i].pin > 0
      case Err(StillPinned) => !multiplePins && k in w.pool.table && w.pool.slots[w.pool.table[k]].pin > 0
      case Err(_) => false
  {
    StartKeeps(w0);
    RunKeeps(w0, ops, w);
    GetOutcome(w, k, multiplePins);
  }

  lemma GetOutcome(w: World, k: Key, multiplePins: bool)
    requires Coherent(w) && k in w.store
    ensures var (q, r) := GetPage(w.pool, k, multiplePins);
      match r
      case Ok(i) => i < |q.slots| && q.slots[i].key == k && q.slots[i].data == w.store[k] && q.slots[i].pin > 0
      case Err(NoBuffer) => k !in w.pool.table && w.pool.free == [] && forall i :: i in Elems(w.pool.used) ==> w.pool.slots[i].pin > 0
      case Err(StillPinned) => !multiplePins && k in w.pool.table && w.pool.slots[w.pool.table[k]].pin > 0
      case Err(_) => false
  {
    assert Seen(w.pool, k) == Find(w.store, k);
    if k in w.pool.table {
      Resident(w.pool, k);
      hide Coherent, Valid, Touch;
    } else {
      GetMissOutcome(w, k);
      GrabTable(w.pool);
      hide Coherent, Grab, Elems;
    }
  }

  /** A page that is not cached: some slot can be taken and the page is then on disk, or all are pinned. */
  lemma GetMissOutcome(w: World, k: Key)
    requires Coherent(w) && k in w.store && k !in w.pool.table
    ensures match Grab(w.pool)
            case Some((q, i)) => k in q.disk && q.disk[k] == w.store[k] && k !in q.table
            case None => w.pool.free == [] && forall i :: i in Elems(w.pool.used) ==> w.pool.slots[i].pin > 0
  {
    GrabValid(w.pool);
    GrabTable(w.pool);
    if Grab(w.pool).Some? {
      GrabCoherent(w);
      hide Lists, Index, Grab, Elems;
      assert Seen(Grab(w.pool).value.0, k) == Find(w.store, k);
    }
  }

  // ----- eviction order

  /** The victim, and everything behind it in the used list is pinned. */
  lemma {:induction false} VictimPosition(slots: seq<Slot>, used: seq<nat>) returns (m: nat)
    requires Below(used, |slots|) && Victim(slots, used).Some?
    ensures m < |used| && used[m] == Victim(slots, used).value
    ensures forall n :: m < n < |used| ==> slots[used[n]].pin != 0
  {
    if slots[used[|used| - 1]].pin == 0 {
      m := |used| - 1;
    } else {
      m := VictimPosition(slots, used[..|used| - 1]);
    }
  }

  lemma {:induction false} OrderedAt(slots: seq<Slot>, used: seq<nat>, last: map<Key, nat>, a: nat, b: nat)
    requires Below(used, |slots|) && Ordered(slots, used, last) && a < b < |used|
    ensures Time(last, slots[used[a]].key) > Time(last, slots[used[b]].key)
  {
    if a == 0 {
      assert used[1..][b - 1] in Elems(used[1..]);
    } else {
      OrderedAt(slots, used[1..], last, a - 1, b - 1);
    }
  }

  /** When no slot is free, the slot taken is the least recently touched of all unpinned ones. */
  lemma VictimIsLeastRecent(w0: World, ops: seq<Op>, w: World)
    requires IsStart(w0) && Runs(w0, ops, w) && w.pool.free == []
    ensures InRange(w.pool)
    ensures Grab(w.pool).None? <==> forall i :: i in Elems(w.pool.used) ==> w.pool.slots[i].pin > 0
    ensures Grab(w.pool).Some? ==>
      var i := Grab(w.pool).value.1;
      && i in Elems(w.pool.used) && w.pool.slots[i].pin == 0
      && forall j :: j in Elems(w.pool.used) && w.pool.slots[j].pin == 0 ==>
           Time(w.last, w.pool.slots[i].key) <= Time(w.last, w.pool.slots[j].key)
  {
    StartKeeps(w0);
    RunKeeps(w0, ops, w);
    GrabValid(w.pool);
    if Grab(w.pool).Some? {
      OldestVictim(w.pool.slots, w.pool.used, w.last);
    }
  }

  lemma OldestVictim(slots: seq<Slot>, used: seq<nat>, last: map<Key, nat>)
    requires Below(used, |slots|) && Ordered(slots, used, last) && Victim(slots, used).Some?
    ensures Victim(slots, used).value < |slots|
    ensures forall j :: j in Elems(used) && j < |slots| && slots[j].pin == 0 ==>
      Time(last, slots[Victim(slots, used).value].key) <= Time(last, slots[j].key)
  {
    var m := VictimPosition(slots, used);
    forall j | j in Elems(used) && j < |slots| && slots[j].pin == 0
      ensures Time(last, slots[used[m]].key) <= Time(last, slots[j].key)
    {
      var n :| 0 <= n < |used| && used[n] == j;
      if n < m {
        OrderedAt(slots, used, last, n, m);
      }
    }
  }

  // ----- pins

  /** Page `k` sits in slot `i` and is pinned. */
  ghost predicate PinnedIn(p: Pool, k: Key, i: nat) {
    k in p.table && p.table[k] == i && i < |p.slots| && p.slots[i].pin > 0
  }

  lemma GrabKeepsPinned(p: Pool, k: Key, i: nat)
    requires Valid(p) && PinnedIn(p, k, i) && Grab(p).Some?
    ensures var (q, j) := Grab(p).value; PinnedIn(q, k, i) && j != i && q.slots == p.slots
  {
    GrabValid(p);
    if p.free != [] {
      FreeNotUsed(p);
    }
  }

  lemma ReleaseKeepsPinned(p: Pool, n: nat, k: Key, i: nat)
    requires Valid(p) && PinnedIn(p, k, i) && n in Elems(p.used) && n < |p.slots| && p.slots[n].pin <= 0
    ensures Valid(ReleaseSlot(p, n)) && PinnedIn(ReleaseSlot(p, n), k, i) && ReleaseSlot(p, n).slots[i].data == p.slots[i].data
  {
    ReleaseValid(p, n);
    Resident(p, k);
    assert p.slots[n].key != k;
    hide Valid, Elems, Without;
  }

  lemma {:induction false} FlushKeepsPinned(p: Pool, fd: int, n: nat, k: Key, i: nat)
    requires Valid(p) && PinnedIn(p, k, i)
    ensures var q := FlushFrom(p, fd, n, true).0; PinnedIn(q, k, i) && q.slots[i].data == p.slots[i].data
    decreases |p.slots| - n
  {
    hide Valid;
    if n < |p.slots| {
      if p.slots[n].key.fd == fd && n in p.used {
        if p.slots[n].pin <= 0 {
          assert n in Elems(p.used);
          ReleaseKeepsPinned(p, n, k, i);
          FlushKeepsPinned(ReleaseSlot(p, n), fd, n + 1, k, i);
        }
      } else {
        FlushKeepsPinned(p, fd, n + 1, k, i);
      }
    }
  }

  lemma {:induction false} ForceKeepsPinned(p: Pool, fd: int, page: int, n: nat, k: Key, i: nat)
    requires Valid(p) && PinnedIn(p, k, i)
    ensures var q := ForceFrom(p, fd, page, n); PinnedIn(q, k, i) && q.slots[i].data == p.slots[i].data
    decreases |p.used| - n
  {
    hide Lists;
    if n < |p.used| {
      var j := p.used[n];
      if Forced(p.slots[j], fd, page) {
        SlotChangeValid(p, j, p.slots[j].(dirty := false));
        ForceKeepsPinned(p.(slots := p.slots[j := p.slots[j].(dirty := false)], disk := SaveSlot(p, j)), fd, page, n + 1, k, i);
      } else {
        ForceKeepsPinned(p, fd, page, n + 1, k, i);
      }
    }
  }

  /** No operation but its own last unpin moves a pinned page, and only a write to it changes it. */
  lemma StepKeepsPinned(p: Pool, op: Op, k: Key, i: nat)
    requires Valid(p) && PinnedIn(p, k, i) && !(op == Unpin(k) && p.slots[i].pin == 1)
    ensures PinnedIn(Do(p, op).0, k, i)
    ensures !(op.Write? && op.k == k) ==> Do(p, op).0.slots[i].data == p.slots[i].data
  {
    match op
    case Flush(fd) => FlushKeepsPinned(p, fd, 0, k, i);
    case Force(fd, page) => ForceKeepsPinned(p, fd, page, 0, k, i);
    case Get(_, _) => TakeKeepsPinned(p, op, k, i);
    case Allocate(_) => TakeKeepsPinned(p, op, k, i);
    case _ => TouchKeepsPinned(p, op, k, i);
  }

  lemma TakeKeepsPinned(p: Pool, op: Op, k: Key, i: nat)
    requires Valid(p) && PinnedIn(p, k, i) && (op.Get? || op.Allocate?)
    ensures PinnedIn(Do(p, op).0, k, i) && Do(p, op).0.slots[i].data == p.slots[i].data
  {
    hide Lists, Index, Below, Grab;
    if op.k in p.table {
      TouchKeepsPinned(p, op, k, i);
    } else if Grab(p).Some? {
      GrabKeepsPinned(p, k, i);
      GrabTable(p);
    }
  }

  /** Operations that only change the slot of a cached page and its place in the used list. */
  lemma TouchKeepsPinned(p: Pool, op: Op, k: Key, i: nat)
    requires Valid(p) && PinnedIn(p, k, i) && !(op == Unpin(k) && p.slots[i].pin == 1)
    requires op.Dirty? || op.Unpin? || op.Write? || ((op.Get? || op.Allocate?) && op.k in p.table)
    ensures PinnedIn(Do(p, op).0, k, i)
    ensures !(op.Write? && op.k == k) ==> Do(p, op).0.slots[i].data == p.slots[i].data
  {
    if op.k in p.table {
      Resident(p, op.k);
      Resident(p, k);
    }
    hide Lists, Index, Below, Without;
  }

  /** The run never unpins the page while it has a single pin. */
  ghost predicate NotLastUnpinned(w: World, ops: seq<Op>, k: Key)
    decreases |ops|
  {
    ops != [] && InRange(w.pool) ==>
      !(ops[0] == Unpin(k) && PinsOf(w.pool, k, 1)) && NotLastUnpinned(Step(w, ops[0]), ops[1..], k)
  }

  /** Until its last unpin a pinned page keeps its slot, so the pointer handed out by `get_page` stays
      good. */
  lemma {:induction false} PinnedPageStays(w: World, ops: seq<Op>, w': World, k: Key, i: nat)
    requires Coherent(w) && Recent(w) && Runs(w, ops, w') && PinnedIn(w.pool, k, i)
    requires NotLastUnpinned(w, ops, k)
    ensures PinnedIn(w'.pool, k, i)
    decreases |ops|
  {
    hide Disciplined, Recent, Lists, Index;
    if ops != [] {
      StepKeepsPinned(w.pool, ops[0], k, i);
      StepCoherent(w, ops[0]);
      StepRecent(w, ops[0]);
      PinnedPageStays(Step(w, ops[0]), ops[1..], w', k, i);
    }
  }

  // ----- flush and force

  /** Below `n`, no used slot carries the descriptor. */
  ghost predicate Cleared(p: Pool, fd: int, n: nat) {
    forall j :: j in Elems(p.used) && j < |p.slots| && j < n ==> p.slots[j].key.fd != fd
  }

  ghost predicate NonePinned(p: Pool, fd: int) {
    forall j :: j in Elems(p.used) && j < |p.slots| && p.slots[j].key.fd == fd ==> p.slots[j].pin == 0
  }

  lemma ReleaseNonePinned(p: Pool, i: nat, fd: int)
    requires Valid(p) && i in Elems(p.used) && i < |p.slots| && p.slots[i].pin <= 0
    ensures NonePinned(ReleaseSlot(p, i), fd) <==> NonePinned(p, fd)
  {
    hide Lists;
    WithoutElems(p, i);
    var q := ReleaseSlot(p, i);
    assert forall j :: 0 <= j < |p.slots| ==> q.slots[j].key == p.slots[j].key && q.slots[j].pin == p.slots[j].pin;
    assert forall j :: j in Elems(p.used) ==> j == i || j in Elems(q.used);
  }

  lemma {:induction false} FlushClears(p: Pool, fd: int, n: nat)
    requires Valid(p) && Cleared(p, fd, n) && n <= |p.slots|
    ensures var (q, ok) := FlushFrom(p, fd, n, true);
      && (ok ==> Cleared(q, fd, |p.slots|) && |q.slots| == |p.slots|)
      && (ok <==> NonePinned(p, fd))
    decreases |p.slots| - n
  {
    hide Lists;
    if n < |p.slots| {
      assert n in p.used <==> n in Elems(p.used);
      if p.slots[n].key.fd == fd && n in p.used {
        if p.slots[n].pin <= 0 {
          ReleaseValid(p, n);
          ReleaseNonePinned(p, n, fd);
          FlushClears(ReleaseSlot(p, n), fd, n + 1);
        }
      } else {
        FlushClears(p, fd, n + 1);
      }
    }
  }

  /** A flush succeeds exactly when no page of the file is pinned; the file's pages are then on disk,
      exactly as the plain store has them, and none is cached. */
  lemma FlushLeavesFileOnDisk(w0: World, ops: seq<Op>, w: World, fd: int)
    requires IsStart(w0) && Runs(w0, ops, w)
    ensures var (q, ok) := FlushPages(w.pool, fd);
      && (ok <==> NonePinned(w.pool, fd))
      && (ok ==> forall k :: k in q.table ==> k.fd != fd)
      && (ok ==> forall page :: Find(q.disk, Key(fd, page)) == Find(w.store, Key(fd, page)))
  {
    StartKeeps(w0);
    RunKeeps(w0, ops, w);
    FlushClears(w.pool, fd, 0);
    FlushCoherent(w, fd, 0);
    FlushedOnDisk(FlushPages(w.pool, fd).0, w.store, fd);
  }

  lemma FlushedOnDisk(q: Pool, store: map<Key, Page>, fd: int)
    requires Valid(q) && SameAsStore(q, store)
    ensures Cleared(q, fd, |q.slots|) ==>
      && (forall k :: k in q.table ==> k.fd != fd)
      && (forall page :: Find(q.disk, Key(fd, page)) == Find(store, Key(fd, page)))
  {
    if Cleared(q, fd, |q.slots|) {
      forall page
        ensures Find(q.disk, Key(fd, page)) == Find(store, Key(fd, page))
      {
        assert Seen(q, Key(fd, page)) == Find(store, Key(fd, page));
      }
    }
  }

  // ----- force as coded

  /** As coded, a forced page is written to the page number that was asked for, not to its own. */
  function CodedForceFrom(p: Pool, fd: int, page: int, n: nat): Pool
    requires InRange(p)
    decreases |p.used| - n
  {
    if n >= |p.used| then p
    else
      var i := p.used[n];
      if Forced(p.slots[i], fd, page) then
        var q := p.(slots := p.slots[i := p.slots[i].(dirty := false)], disk := p.disk[Key(fd, page) := p.slots[i].data]);
        CodedForceFrom(q, fd, page, n + 1)
      else CodedForceFrom(p, fd, page, n + 1)
  }

  ghost predicate SomeForced(p: Pool, fd: int, page: int, n: nat)
    requires InRange(p)
  {
    exists m :: n <= m < |p.used| && Forced(p.slots[p.used[m]], fd, page)
  }

  /** Page numbers below zero name no page; -1 is where the file header lies. */
  ghost predicate RealPages(p: Pool) {
    && (forall k :: k in p.disk ==> k.page >= 0)
    && (forall n :: 0 <= n < |p.used| && p.used[n] < |p.slots| ==> p.slots[p.used[n]].key.page >= 0)
  }

  lemma {:induction false} CodedForceKeeps(p: Pool, fd: int, page: int, n: nat, k: Key)
    requires InRange(p) && k in p.disk
    ensures k in CodedForceFrom(p, fd, page, n).disk
    decreases |p.used| - n
  {
    if n < |p.used| {
      var i := p.used[n];
      if Forced(p.slots[i], fd, page) {
        CodedForceKeeps(p.(slots := p.slots[i := p.slots[i].(dirty := false)], disk := p.disk[Key(fd, page) := p.slots[i].data]), fd, page, n + 1, k);
      } else {
        CodedForceKeeps(p, fd, page, n + 1, k);
      }
    }
  }

  lemma {:induction false} ForceRealPages(p: Pool, fd: int, page: int, n: nat)
    requires InRange(p) && RealPages(p)
    ensures RealPages(ForceFrom(p, fd, page, n))
    decreases |p.used| - n
  {
    if n < |p.used| {
      var i := p.used[n];
      if Forced(p.slots[i], fd, page) {
        ForceRealPages(p.(slots := p.slots[i := p.slots[i].(dirty := false)], disk := SaveSlot(p, i)), fd, page, n + 1);
      } else {
        ForceRealPages(p, fd, page, n + 1);
      }
    }
  }

  /** As coded, forcing does what it should exactly when one page is named or none is dirty: forcing
      all pages of a file with a dirty page writes over the file header instead. */
  lemma {:induction false} CodedForceRightIff(p: Pool, fd: int, page: int, n: nat)
    requires InRange(p) && RealPages(p)
    ensures CodedForceFrom(p, fd, page, n) == ForceFrom(p, fd, page, n) <==> page != ALL_PAGES || !SomeForced(p, fd, page, n)
    decreases |p.used| - n
  {
    if n < |p.used| {
      var i := p.used[n];
      if Forced(p.slots[i], fd, page) {
        var q := p.(slots := p.slots[i := p.slots[i].(dirty := false)], disk := SaveSlot(p, i));
        if page != ALL_PAGES {
          CodedForceRightIff(q, fd, page, n + 1);
        } else {
          CodedForceKeeps(p.(slots := q.slots, disk := p.disk[Key(fd, page) := p.slots[i].data]), fd, page, n + 1, Key(fd, page));
          ForceRealPages(p, fd, page, n);
        }
      } else {
        CodedForceRightIff(p, fd, page, n + 1);
      }
    }
  }

  // ----- flush as coded

  /** A pool of one slot: fresh, and with page `k` in it. */
  function Fresh(k: Key, data: Page, blank: Slot): Pool {
    Pool([blank], [0], [], map[], map[k := data])
  }

  function OneSlot(k: Key, data: Page, pin: nat): Pool {
    Pool([Slot(false, k, data, pin)], [], [0], map[k := 0], map[k := data])
  }

  lemma GotOne(k: Key, data: Page, blank: Slot)
    ensures GetPage(Fresh(k, data, blank), k, true) == (OneSlot(k, data, 1), Ok(0))
  {
    var p := Fresh(k, data, blank);
    var q := p.(free := [], used := [0]);
    assert p.free[1..] == [] && [p.free[0]] + p.used == [0];
    assert Grab(p) == Some((q, 0));
    assert q.slots[0 := Slot(false, k, data, 1)] == OneSlot(k, data, 1).slots;
    assert Install(q, 0, k, data) == OneSlot(k, data, 1);
  }

  lemma UnpinnedOne(k: Key, data: Page)
    ensures UnpinPage(OneSlot(k, data, 1), k) == (OneSlot(k, data, 0), Ok(0))
  {
    var q := OneSlot(k, data, 0);
    assert OneSlot(k, data, 1).slots[0 := Slot(false, k, data, 0)] == q.slots;
    assert Without([0], 0) == [] && [0] + Without([0], 0) == [0];
    assert Touch(q, 0) == q;
  }

  lemma FlushedOne(k: Key, data: Page)
    ensures FlushPages(OneSlot(k, data, 0), k.fd) == (Fresh(k, data, Slot(false, k, data, 0)), true)
  {
    var q, z := OneSlot(k, data, 0), Fresh(k, data, Slot(false, k, data, 0));
    assert 0 in q.used && Without([0], 0) == [];
    assert q.slots[0 := q.slots[0].(dirty := false)] == z.slots;
    assert ReleaseSlot(q, 0) == z;
    assert FlushFrom(z, k.fd, 1, true) == (z, true);
  }

  lemma FreshRange(k: Key, data: Page, blank: Slot)
    ensures InRange(Fresh(k, data, blank)) && InRange(OneSlot(k, data, 1)) && InRange(OneSlot(k, data, 0))
    ensures IsStart(World(Fresh(k, data, blank), map[k := data], {}, map[], 0))
  {
    assert [0] == seq(1, i => i);
  }

  /** A page is got, unpinned and flushed: its slot is free and still carries the file's descriptor, so the
      flush as coded would break the structure. */
  lemma CodedFlushReached(k: Key, data: Page, blank: Slot) returns (w0: World, ops: seq<Op>, w: World)
    ensures IsStart(w0) && Runs(w0, ops, w) && Valid(w.pool) && FreedCarries(w.pool, k.fd, 0)
  {
    hide Valid, GetPage, UnpinPage, FlushPages, InRange, IsStart;
    FreshRange(k, data, blank);
    GotOne(k, data, blank);
    UnpinnedOne(k, data);
    FlushedOne(k, data);
    w0 := World(Fresh(k, data, blank), map[k := data], {}, map[], 0);
    var w1 := Step(w0, Get(k, true));
    var w2 := Step(w1, Unpin(k));
    w := Step(w2, Flush(k.fd));
    assert w1.pool == OneSlot(k, data, 1) && w2.pool == OneSlot(k, data, 0) && w1.unsaved == {};
    ops := Then(w2, Flush(k.fd), w, [], w);
    ops := Then(w1, Unpin(k), w2, ops, w);
    ops := Then(w0, Get(k, true), w1, ops, w);
    StartKeeps(w0);
    RunKeeps(w0, ops, w);
    assert 0 in Elems(w.pool.free) && FreedAt(w.pool, k.fd, 0, 0);
  }

  lemma Then(w: World, op: Op, w1: World, ops: seq<Op>, w': World) returns (more: seq<Op>)
    requires InRange(w.pool) && Disciplined(w, op) && w1 == Step(w, op) && Runs(w1, ops, w')
    ensures Runs(w, more, w')
  {
    hide InRange, Step;
    more := [op] + ops;
    assert more[1..] == ops;
  }
}
