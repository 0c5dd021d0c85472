/**
  * The circular byte buffer of network/buffer.cc. Bytes are written at `head` and read at
  * `tail`; `full` tells a full buffer from an empty one when the two meet.
  *
  * The reference is a bounded queue that drops its oldest byte when it overflows. Byte
  * operations match it for every history; for the block operations and `unget` the exact
  * conditions under which they do are given.
  */
module RingBuffer {
  import opened Basics

  // --- The reference ------------------------------------------------------------

  function Push(q: seq<Byte>, c: Byte, max: nat): (r: seq<Byte>) {
    (if 0 < max <= |q| then q[1..] else q) + [c]
  }

  function PushAll(q: seq<Byte>, s: seq<Byte>, max: nat): (r: seq<Byte>) {
    if s == [] then q else Push(PushAll(q, s[..|s| - 1], max), s[|s| - 1], max)
  }

  /** `get()` taken `n` times: the bytes handed out, zero once the queue is empty. */
  function PopAll(q: seq<Byte>, n: nat): (r: (seq<Byte>, seq<Byte>)) {
    if n == 0 then ([], q)
    else if q == [] then
      var (out, left) := PopAll([], n - 1);
      ([0] + out, left)
    else
      var (out, left) := PopAll(q[1..], n - 1);
      ([q[0]] + out, left)
  }

  /** The last `max` bytes of `s`. */
  function Last(s: seq<Byte>, max: nat): (r: seq<Byte>) {
    if |s| <= max then s else s[|s| - max..]
  }

  /** The queue always holds the most recent bytes: those it had and those put since, cut
    * to capacity from the old end. */
  lemma {:induction false} PushAllIs(q: seq<Byte>, s: seq<Byte>, max: nat)
    requires 0 < max && |q| <= max
    ensures PushAll(q, s, max) == Last(q + s, max)
  {
    if s == [] {
      assert q + s == q;
    } else {
      var init, c := s[..|s| - 1], s[|s| - 1];
      PushAllIs(q, init, max);
      assert q + s == (q + init) + [c];
    }
  }

  lemma {:induction false} PopAllIs(q: seq<Byte>, n: nat)
    requires n <= |q|
    ensures PopAll(q, n) == (q[..n], q[n..])
  {
    if n > 0 {
      PopAllIs(q[1..], n - 1);
      assert q[..n] == [q[0]] + q[1..][..n - 1];
    }
  }

  lemma {:induction false} PopAllLength(q: seq<Byte>, n: nat)
    ensures |PopAll(q, n).0| == n
  {
    if n > 0 {
      PopAllLength(if q == [] then [] else q[1..], n - 1);
    }
  }

  // --- The buffer as a value ------------------------------------------------------

  datatype Ring = Ring(cells: seq<Byte>, head: nat, tail: nat, full: bool) {
    function Max(): nat { |cells| }

    predicate Valid() {
      0 < Max() && head < Max() && tail < Max() && (full ==> head == tail)
    }
  }

  function Wrap(i: nat, max: nat): (r: nat)
    requires 0 < max && i < 2 * max
    ensures r == if i < max then i else i - max
  {
    WrapIs(i, max);
    i % max
  }

  lemma WrapIs(i: nat, max: nat)
    requires 0 < max && i < 2 * max
    ensures i % max == if i < max then i else i - max
  {
    var q, r := i / max, i % max;
    assert i == max * q + r;
    assert q >= 2 ==> max * q >= 2 * max;
    assert q == 1 ==> max * q == max;
  }

  function Size(r: Ring): (n: nat)
    requires r.Valid()
    ensures n <= r.Max() && (n == r.Max() <==> r.full)
  {
    if r.full then r.Max()
    else if r.head >= r.tail then r.head - r.tail
    else r.Max() - (r.tail - r.head)
  }

  function Empty(r: Ring): (b: bool)
    requires r.Valid()
    ensures b <==> Size(r) == 0
  {
    !r.full && r.head == r.tail
  }

  /** What the buffer holds, oldest byte first. */
  ghost function Queue(r: Ring): (q: seq<Byte>)
    requires r.Valid()
    ensures |q| == Size(r)
    ensures forall k :: 0 <= k < |q| ==> q[k] == r.cells[Wrap(r.tail + k, r.Max())]
  {
    seq(Size(r), k requires 0 <= k < Size(r) => r.cells[Wrap(r.tail + k, r.Max())])
  }

  function Put(r: Ring, c: Byte): (r': Ring)
    requires r.Valid()
  {
    var cells := r.cells[r.head := c];
    var tail := if r.full then Wrap(r.tail + 1, r.Max()) else r.tail;
    var head := Wrap(r.head + 1, r.Max());
    Ring(cells, head, tail, head == tail)
  }

  function Get(r: Ring): (res: (Ring, Byte))
    requires r.Valid()
  {
    if Empty(r) then (r, 0)
    else (r.(full := false, tail := Wrap(r.tail + 1, r.Max())), r.cells[r.tail])
  }

  function Reset(r: Ring): (r': Ring) {
    r.(head := r.tail, full := false)
  }

  datatype Blocked = Overrun | Done(ring: Ring, out: Option<seq<Byte>>)

  /** `put(s, len)`: `Overrun` when the copy would leave the array. */
  function PutBlock(r: Ring, s: seq<Byte>): (b: Blocked)
    requires r.Valid()
  {
    if r.head + |s| > r.Max() then Overrun
    else
      var cells := r.cells[..r.head] + s + r.cells[r.head + |s|..];
      Done(r.(cells := cells, head := Wrap(r.head + |s|, r.Max())), None)
  }

  /** `get(s, len)`: hands out nothing when fewer bytes are held. */
  function GetBlock(r: Ring, len: nat): (b: Blocked)
    requires r.Valid()
  {
    if Size(r) < len then Done(r, None)
    else if r.tail + len > r.Max() then Overrun
    else
      Done(r.(full := false, tail := Wrap(r.tail + len, r.Max())),
           Some(r.cells[r.tail..r.tail + len]))
  }

  /** `s` places back from `tail`, as 64-bit unsigned words compute it. */
  function Back(tail: nat, s: nat, max: nat): (r: nat)
    requires max > 0
    ensures r < max
  {
    (tail - s) % WORD % max
  }

  /** `unget(s)`: the subtraction is on 64-bit unsigned words. */
  function Unget(r: Ring, s: nat): (r': Ring)
    requires r.Valid()
  {
    if r.full || Size(r) < s then r
    else r.(tail := Back(r.tail, s, r.Max()))
  }

  // --- Byte operations ------------------------------------------------------------

  lemma PutPushes(r: Ring, c: Byte)
    requires r.Valid()
    ensures Put(r, c).Valid() && Put(r, c).Max() == r.Max()
    ensures Queue(Put(r, c)) == Push(Queue(r), c, r.Max())
  {
  }

  lemma GetPops(r: Ring)
    requires r.Valid()
    ensures Get(r).0.Valid() && Get(r).0.Max() == r.Max()
    ensures PopAll(Queue(r), 1) == ([Get(r).1], Queue(Get(r).0))
  {
    var q := Queue(r);
    if q == [] {
      var none: seq<Byte> := [];
      assert q == none && PopAll(none, 0) == ([], none);
      assert [0] + none == [Get(r).1];
    } else {
      PopAllIs(q, 1);
      assert q[..1] == [Get(r).1];
      assert q[1..] == Queue(Get(r).0);
    }
  }

  datatype Op = PutOp(c: Byte) | GetOp | ResetOp

  /** The bytes that a history of operations hands out, and the buffer it ends in. */
  function Run(r: Ring, ops: seq<Op>): (res: (seq<Byte>, Ring))
    requires r.Valid()
    ensures res.1.Valid()
    decreases |ops|
  {
    if ops == [] then ([], r)
    else
      match ops[0]
      case PutOp(c) => PutPushes(r, c); Run(Put(r, c), ops[1..])
      case GetOp => GetPops(r);
        var (out, end) := Run(Get(r).0, ops[1..]);
        ([Get(r).1] + out, end)
      case ResetOp => Run(Reset(r), ops[1..])
  }

  function RunQueue(q: seq<Byte>, ops: seq<Op>, max: nat): (res: (seq<Byte>, seq<Byte>))
    decreases |ops|
  {
    if ops == [] then ([], q)
    else
      match ops[0]
      case PutOp(c) => RunQueue(Push(q, c, max), ops[1..], max)
      case GetOp =>
        var (out, end) := RunQueue(PopAll(q, 1).1, ops[1..], max);
        (PopAll(q, 1).0 + out, end)
      case ResetOp => RunQueue([], ops[1..], max)
  }

  /** For every history and every capacity, byte operations hand out what the bounded queue
    * hands out and end holding what it holds. */
  lemma {:induction false} HistoryMatches(r: Ring, ops: seq<Op>)
    requires r.Valid()
    ensures Run(r, ops).0 == RunQueue(Queue(r), ops, r.Max()).0
    ensures Queue(Run(r, ops).1) == RunQueue(Queue(r), ops, r.Max()).1
    decreases |ops|
  {
    hide Queue, Put, Get, Push;
    if ops != [] {
      match ops[0]
      case PutOp(c) =>
        PutPushes(r, c);
        HistoryMatches(Put(r, c), ops[1..]);
      case GetOp =>
        GetPops(r);
        HistoryMatches(Get(r).0, ops[1..]);
      case ResetOp =>
        HistoryMatches(Reset(r), ops[1..]);
        assert Queue(Reset(r)) == [];
    }
  }

  // --- Block operations -------------------------------------------------------------

  /** The block put did what putting its bytes one by one does, and left a buffer. */
  ghost predicate PutMatches(r: Ring, s: seq<Byte>)
    requires r.Valid()
  {
    var b := PutBlock(r, s);
    b.Done? && b.ring.Valid() && Queue(b.ring) == PushAll(Queue(r), s, r.Max())
  }

  /** Room for the block before the array ends, and either the buffer does not fill, or it
    * was full and the block replaces all of it. */
  predicate PutFits(r: Ring, s: seq<Byte>)
    requires r.Valid()
  {
    s == [] || (r.head + |s| <= r.Max() &&
                (if r.full then |s| == r.Max() else Size(r) + |s| < r.Max()))
  }

  lemma PutBlockMatchesIff(r: Ring, s: seq<Byte>)
    requires r.Valid()
    ensures PutMatches(r, s) <==> PutFits(r, s)
  {
    hide PushAll, Queue, Last;
    PushAllIs(Queue(r), s, r.Max());
    if r.head + |s| <= r.Max() {
      if s == [] {
        PutNothing(r, s);
      } else if r.full && |s| == r.Max() {
        PutWhole(r, s);
      } else if !r.full && Size(r) + |s| < r.Max() {
        PutBlockAppends(r, s);
        LastAll(Queue(r) + s, r.Max());
      } else if !r.full {
        PutTooMany(r, s);
      } else {
        assert !PutBlock(r, s).ring.Valid();
      }
    }
  }

  lemma LastAll(q: seq<Byte>, max: nat)
    requires |q| <= max
    ensures Last(q, max) == q
  {
  }

  lemma PutNothing(r: Ring, s: seq<Byte>)
    requires r.Valid() && s == []
    ensures PutBlock(r, s) == Done(r, None) && Last(Queue(r) + s, r.Max()) == Queue(r)
  {
    hide Queue;
    assert r.cells[..r.head] + s + r.cells[r.head + |s|..] == r.cells;
    assert Queue(r) + s == Queue(r);
  }

  lemma PutWhole(r: Ring, s: seq<Byte>)
    requires r.Valid() && r.full && |s| == r.Max() && r.head == 0
    ensures PutBlock(r, s).Done? && PutBlock(r, s).ring.Valid()
    ensures Queue(PutBlock(r, s).ring) == s == Last(Queue(r) + s, r.Max())
  {
    assert PutBlock(r, s).ring.cells == s;
    assert Last(Queue(r) + s, r.Max()) == s;
    assert Queue(PutBlock(r, s).ring) == s;
  }

  /** A block that fills the buffer or more leaves it looking less than full. */
  lemma PutTooMany(r: Ring, s: seq<Byte>)
    requires r.Valid() && !r.full && r.head + |s| <= r.Max() <= Size(r) + |s|
    ensures PutBlock(r, s).Done? && PutBlock(r, s).ring.Valid()
    ensures Queue(PutBlock(r, s).ring) != Last(Queue(r) + s, r.Max())
  {
    hide Queue;
    var r' := PutBlock(r, s).ring;
    assert |r'.cells| == r.Max();
    assert |Queue(r')| < r.Max() == |Last(Queue(r) + s, r.Max())|;
  }

  lemma PutBlockAppends(r: Ring, s: seq<Byte>)
    requires r.Valid() && s != [] && !r.full
    requires r.head + |s| <= r.Max() && Size(r) + |s| < r.Max()
    ensures PutBlock(r, s).Done? && PutBlock(r, s).ring.Valid()
    ensures Queue(PutBlock(r, s).ring) == Queue(r) + s
  {
    var r' := PutBlock(r, s).ring;
    assert |r'.cells| == r.Max();
    assert Size(r') == Size(r) + |s|;
    hide Queue;
    var q, q' := Queue(r), Queue(r');
    forall k | 0 <= k < |q'| ensures q'[k] == (q + s)[k] {
      PutBlockAt(r, s, k);
    }
  }

  lemma PutBlockAt(r: Ring, s: seq<Byte>, k: nat)
    requires r.Valid() && s != [] && !r.full
    requires r.head + |s| <= r.Max() && Size(r) + |s| < r.Max() && k < Size(r) + |s|
    ensures var at := Wrap(r.tail + k, r.Max());
      PutBlock(r, s).ring.cells[at] == if k < Size(r) then r.cells[at] else s[k - Size(r)]
  {
    var at := Wrap(r.tail + k, r.Max());
    if k < Size(r) {
      assert at < r.head || r.head + |s| <= at;
    } else {
      assert at == r.head + (k - Size(r));
    }
  }

  /** The block get did what getting its bytes one by one does, and left a buffer. */
  ghost predicate GetMatches(r: Ring, len: nat)
    requires r.Valid()
  {
    var b := GetBlock(r, len);
    && b.Done? && b.ring.Valid() && b.out.Some?
    && PopAll(Queue(r), len) == (b.out.value, Queue(b.ring))
  }

  /** Enough bytes, none of them past the end of the array; and an empty block is not taken
    * from a full buffer, which would lose all of it. */
  predicate GetFits(r: Ring, len: nat)
    requires r.Valid()
  {
    if len == 0 then !r.full else len <= Size(r) && r.tail + len <= r.Max()
  }

  lemma GetBlockMatchesIff(r: Ring, len: nat)
    requires r.Valid()
    ensures GetMatches(r, len) <==> GetFits(r, len)
  {
    hide PopAll, Queue;
    if len <= Size(r) && r.tail + len <= r.Max() {
      PopAllIs(Queue(r), len);
      var b := GetBlock(r, len);
      if len == 0 && r.full {
        assert Size(b.ring) == 0;
        assert |Queue(b.ring)| != |Queue(r)[len..]|;
      } else {
        GetBlockTakes(r, len);
      }
    }
  }

  lemma GetBlockTakes(r: Ring, len: nat)
    requires r.Valid() && GetFits(r, len)
    ensures GetBlock(r, len).Done? && GetBlock(r, len).ring.Valid()
    ensures GetBlock(r, len).out == Some(Queue(r)[..len])
    ensures Queue(GetBlock(r, len).ring) == Queue(r)[len..]
  {
    hide PopAll, Queue;
    var b := GetBlock(r, len);
    assert Size(b.ring) == Size(r) - len;
    assert b.out.value == Queue(r)[..len];
    assert Queue(b.ring) == Queue(r)[len..];
  }

  /** `unget` after a block get of the same length gives the buffer back exactly when the
    * buffer was not full, what is left is at least what was taken, and the read position
    * did not come round to zero, unless the capacity is a power of two. */
  lemma UngetUndoesIff(r: Ring, len: nat)
    requires r.Valid() && r.Max() < WORD
    requires GetBlock(r, len).Done? && GetBlock(r, len).out.Some?
    ensures Unget(GetBlock(r, len).ring, len) == r <==>
            !r.full && (len == 0 || (2 * len <= Size(r)
                                     && (r.tail + len < r.Max() || WORD % r.Max() == 0)))
  {
    hide Back, Queue;
    var r1 := GetBlock(r, len).ring;
    BackIs(r1.tail, len, r.Max());
    assert !r.full ==> Size(r1) == Size(r) - len;
  }

  lemma BackIs(tail: nat, s: nat, max: nat)
    requires tail < max < WORD
    ensures s <= tail ==> Back(tail, s, max) == tail - s
    ensures tail == 0 < s < max ==> (Back(tail, s, max) == max - s <==> WORD % max == 0)
  {
    if s <= tail {
      BackPlain(tail, s, max);
    } else if tail == 0 && s < max {
      BackFromZero(s, max);
      BackWraps(s, max);
    }
    hide Back;
  }

  lemma BackPlain(tail: nat, s: nat, max: nat)
    requires s <= tail < max < WORD
    ensures Back(tail, s, max) == tail - s
  {
    WrapIs(tail - s, max);
    assert (tail - s) % WORD == tail - s;
  }

  lemma BackWraps(s: nat, max: nat)
    requires 0 < s < WORD && max > 0
    ensures Back(0, s, max) == (WORD - s) % max
  {
    var x := WORD - s;
    assert (0 - s) % WORD == x;
  }

  lemma BackFromZero(len: nat, max: nat)
    requires 0 < len < max < WORD
    ensures (WORD - len) % max == max - len <==> WORD % max == 0
  {
    var q, rem := (WORD - len) / max, (WORD - len) % max;
    assert WORD - len == max * q + rem;
    if rem == max - len {
      assert WORD == max * (q + 1) + 0;
      Unique(WORD, max, q + 1, 0);
    }
    if WORD % max == 0 {
      var p := WORD / max;
      assert WORD == max * p;
      assert WORD - len == max * (p - 1) + (max - len);
      Unique(WORD - len, max, p - 1, max - len);
    }
  }

  lemma Unique(n: nat, d: nat, q: int, r: nat)
    requires 0 < d && n == d * q + r && r < d
    ensures n % d == r
  {
    var q1, r1 := n / d, n % d;
    assert n == d * q1 + r1;
    assert d * (q1 - q) == r - r1;
    assert q1 - q >= 1 ==> d * (q1 - q) >= d;
    assert q1 - q <= -1 ==> d * (q1 - q) + d <= 0;
  }

  // --- The buffer -------------------------------------------------------------------

  class Buffer {
    const buf: array<Byte>
    var head: nat
    var tail: nat
    var full: bool

    ghost function View(): (r: Ring)
      reads this, buf
    {
      Ring(buf[..], head, tail, full)
    }

    ghost predicate Valid()
      reads this, buf
    {
      View().Valid()
    }

    constructor (size: nat)
      requires size > 0
      ensures Valid() && fresh(buf) && buf.Length == size
      ensures Queue(View()) == []
    {
      buf := new Byte[size](_ => 0);
      head, tail, full := 0, 0, false;
    }

    method CountHeld() returns (n: nat)
      requires Valid()
      ensures n == |Queue(View())|
    {
      n := buf.Length;
      if !full {
        if head >= tail {
          n := head - tail;
        } else {
          n := buf.Length - (tail - head);
        }
      }
    }

    method IsEmpty() returns (b: bool)
      requires Valid()
      ensures b <==> Queue(View()) == []
    {
      b := !full && head == tail;
    }

    method IsFull() returns (b: bool)
      requires Valid()
      ensures b <==> |Queue(View())| == buf.Length
    {
      b := full;
    }

    method PutByte(c: Byte)
      requires Valid()
      modifies this, buf
      ensures Valid() && View() == Put(old(View()), c)
      ensures Queue(View()) == Push(old(Queue(View())), c, buf.Length)
    {
      PutPushes(View(), c);
      buf[head] := c;
      if full {
        tail := Wrap(tail + 1, buf.Length);
      }
      head := Wrap(head + 1, buf.Length);
      full := head == tail;
    }

    /** `overrun` says that the copy would leave the array, which the code does not look for; it is then not
      * carried out. */
    method PutBytes(s: seq<Byte>) returns (overrun: bool)
      requires Valid()
      modifies this, buf
      ensures overrun == PutBlock(old(View()), s).Overrun?
      ensures if overrun then View() == old(View()) else PutBlock(old(View()), s) == Done(View(), None)
      ensures old(PutFits(View(), s)) ==>
                !overrun && Valid() && Queue(View()) == PushAll(old(Queue(View())), s, buf.Length)
    {
      hide PushAll, Queue;
      PutBlockMatchesIff(View(), s);
      overrun := head + |s| > buf.Length;
      if overrun {
        return;
      }
      var from := head;
      forall k | from <= k < from + |s| {
        buf[k] := s[k - from];
      }
      head := Wrap(head + |s|, buf.Length);
    }

    method GetByte() returns (val: Byte)
      requires Valid()
      modifies this
      ensures Valid() && (View(), val) == Get(old(View()))
      ensures ([val], Queue(View())) == PopAll(old(Queue(View())), 1)
    {
      GetPops(View());
      var none := IsEmpty();
      if none {
        return 0;
      }
      val := buf[tail];
      full := false;
      tail := Wrap(tail + 1, buf.Length);
    }

    /** Fills `s` from `at` on; `s` is left alone when fewer bytes are held, and when the read would leave the
      * array, which the code does not look for. */
    method GetBytes(s: array<Byte>, at: nat, len: nat) returns (overrun: bool)
      requires Valid() && s != buf && at + len <= s.Length
      modifies this, s
      ensures overrun == GetBlock(old(View()), len).Overrun?
      ensures overrun || old(Size(View())) < len ==> View() == old(View()) && s[..] == old(s[..])
      ensures !overrun && len <= old(Size(View())) ==>
                GetBlock(old(View()), len) == Done(View(), Some(s[at..at + len]))
      ensures forall k :: 0 <= k < at || at + len <= k < s.Length ==> s[k] == old(s[k])
      ensures old(GetFits(View(), len)) ==>
                Valid() && (s[at..at + len], Queue(View())) == PopAll(old(Queue(View())), len)
    {
      hide PopAll, Queue;
      GetBlockMatchesIff(View(), len);
      var held := CountHeld();
      overrun := held >= len && tail + len > buf.Length;
      if held < len || overrun {
        return;
      }
      full := false;
      CopyOut(s, at, len);
      tail := Wrap(tail + len, buf.Length);
      assert View().cells[old(tail)..old(tail) + len] == s[at..at + len];
    }

    method CopyOut(s: array<Byte>, at: nat, len: nat)
      requires s != buf && at + len <= s.Length && tail + len <= buf.Length
      modifies s
      ensures s[at..at + len] == buf[tail..tail + len]
      ensures forall k :: 0 <= k < at || at + len <= k < s.Length ==> s[k] == old(s[k])
    {
      var i := 0;
      while i < len
        invariant i <= len && buf[..] == old(buf[..])
        invariant s[at..at + i] == buf[tail..tail + i]
        invariant forall k :: 0 <= k < at || at + i <= k < s.Length ==> s[k] == old(s[k])
      {
        ghost var done := s[at..at + i];
        s[at + i] := buf[tail + i];
        assert s[at..at + i] == done;
        i := i + 1;
        assert s[at..at + i] == done + [buf[tail + i - 1]];
      }
    }

    method UngetBytes(s: nat)
      requires Valid()
      modifies this
      ensures Valid() && View() == Unget(old(View()), s)
    {
      var held := CountHeld();
      if full || held < s {
        return;
      }
      tail := Back(tail, s, buf.Length);
    }

    method Clear()
      requires Valid()
      modifies this
      ensures Valid() && View() == Reset(old(View())) && Queue(View()) == []
    {
      head := tail;
      full := false;
    }
  }
}
