/**
  * The variable-length integers of network/coding.cc: seven bits to a byte, low bits
  * first, the top bit set on every byte but the last (unsigned LEB128, section 7.6 of
  * DWARF Version 4), with a zigzag map in front for signed values.
  *
  * Machine words are explicit: an unsigned word is a number below 2^64, shifts truncate,
  * and a cast between signed and unsigned reduces modulo 2^64.
  */
module Varint {
  import opened Basics

  const HALF: int := 0x8000_0000_0000_0000

  type Word = x: int | 0 <= x < 0x1_0000_0000_0000_0000
  type Signed = x: int | -0x8000_0000_0000_0000 <= x < 0x8000_0000_0000_0000

  function Pow(k: nat): (p: nat)
    ensures p > 0
  {
    if k == 0 then 1 else 128 * Pow(k - 1)
  }

  lemma PowStep(k: nat)
    ensures Pow(k + 1) == 128 * Pow(k)
  {
  }

  /** The groups of seven bits of `v`, low group first. */
  function Encode(v: nat): (bs: seq<Byte>)
    ensures |bs| > 0
    decreases v
  {
    if v < 128 then [v] else [128 + v % 128] + Encode(v / 128)
  }

  /** Some byte has its top bit clear, so a reader stops. */
  predicate Ends(bs: seq<Byte>) {
    exists k :: 0 <= k < |bs| && bs[k] < 128
  }

  lemma EndsTail(bs: seq<Byte>)
    requires Ends(bs) && bs[0] >= 128
    ensures Ends(bs[1..])
  {
    var k :| 0 <= k < |bs| && bs[k] < 128;
    assert bs[1..][k - 1] == bs[k];
  }

  /** The number of bytes up to and including the first with its top bit clear. */
  function Span(bs: seq<Byte>): (n: nat)
    requires Ends(bs)
    ensures 0 < n <= |bs|
  {
    if bs[0] < 128 then 1 else
      EndsTail(bs);
      1 + Span(bs[1..])
  }

  lemma {:induction false} SpanIs(bs: seq<Byte>)
    requires Ends(bs)
    ensures bs[Span(bs) - 1] < 128
    ensures forall k :: 0 <= k < Span(bs) - 1 ==> bs[k] >= 128
  {
    if bs[0] >= 128 {
      EndsTail(bs);
      SpanIs(bs[1..]);
      assert forall k :: 1 <= k < |bs| ==> bs[k] == bs[1..][k - 1];
    }
  }

  /** The number those bytes spell, before any truncation. */
  function Number(bs: seq<Byte>): (v: nat)
    requires Ends(bs)
  {
    if bs[0] < 128 then bs[0] else
      EndsTail(bs);
      bs[0] - 128 + 128 * Number(bs[1..])
  }

  // --- One value ----------------------------------------------------------------

  /** Whatever follows, a reader takes exactly the encoding and gets the value back. */
  lemma {:induction false} DecodeEncode(v: nat, rest: seq<Byte>)
    ensures Ends(Encode(v) + rest)
    ensures Span(Encode(v) + rest) == |Encode(v)|
    ensures Number(Encode(v) + rest) == v
    decreases v
  {
    var bs := Encode(v) + rest;
    if v < 128 {
      assert bs[0] == v;
    } else {
      DecodeEncode(v / 128, rest);
      assert bs[1..] == Encode(v / 128) + rest;
      var k :| 0 <= k < |bs[1..]| && bs[1..][k] < 128;
      assert bs[k + 1] < 128;
    }
  }

  /** No encoding begins another. */
  lemma PrefixFree(v: nat, w: nat)
    requires Encode(v) <= Encode(w)
    ensures v == w
  {
    var tail := Encode(w)[|Encode(v)|..];
    DecodeEncode(v, tail);
    DecodeEncode(w, []);
    assert Encode(w) + [] == Encode(v) + tail;
  }

  /** `k` bytes are used exactly for the values that need `k` groups of seven bits. */
  lemma {:induction false} LengthIs(v: nat, k: nat)
    requires k > 0
    ensures |Encode(v)| <= k <==> v < Pow(k)
    decreases k
  {
    if v < 128 {
      assert Pow(k) >= 128 * Pow(k - 1);
    } else if k > 1 {
      LengthIs(v / 128, k - 1);
    } else {
      assert Pow(1) == 128 * Pow(0);
    }
  }

  lemma TenBytesAtMost(v: Word)
    ensures |Encode(v)| <= 10
  {
    LengthIs(v, 10);
    PowTen();
  }

  lemma PowTen()
    ensures Pow(9) == HALF && Pow(10) == 128 * HALF
  {
    assert Pow(2) == 128 * 128;
    assert Pow(5) == 0x8_0000_0000;
  }

  lemma {:induction false} NumberBound(bs: seq<Byte>)
    requires Ends(bs)
    ensures Number(bs) < Pow(Span(bs))
  {
    if bs[0] >= 128 {
      EndsTail(bs);
      NumberBound(bs[1..]);
      assert Number(bs) == bs[0] - 128 + 128 * Number(bs[1..]);
      assert 128 * Number(bs[1..]) + 128 <= 128 * Pow(Span(bs[1..]));
    } else {
      assert Pow(1) == 128 * Pow(0);
    }
  }

  /** Of all the byte strings that spell a number, its encoding is the shortest. */
  lemma Minimal(bs: seq<Byte>)
    requires Ends(bs)
    ensures |Encode(Number(bs))| <= Span(bs)
  {
    NumberBound(bs);
    LengthIs(Number(bs), Span(bs));
  }

  /** ... and it is the only one of that length: a string is what the encoder writes
    * exactly when it does not close with an empty group. */
  lemma {:induction false} Canonical(bs: seq<Byte>)
    requires Ends(bs) && Span(bs) == |bs|
    ensures bs == Encode(Number(bs)) <==> |bs| == 1 || bs[|bs| - 1] != 0
  {
    if |bs| > 1 {
      assert bs[0] >= 128;
      EndsTail(bs);
      var tail := bs[1..];
      Canonical(tail);
      var v := Number(bs);
      assert v / 128 == Number(tail) && v % 128 == bs[0] - 128;
      assert tail[|tail| - 1] == bs[|bs| - 1];
      if Number(tail) == 0 {
        ZeroIs(tail);
      } else {
        assert Encode(v) == [bs[0]] + Encode(Number(tail));
        assert bs == [bs[0]] + tail;
        assert Encode(v)[1..] == Encode(Number(tail));
        if |tail| == 1 {
          assert tail == Encode(Number(tail)) && tail[0] != 0;
        }
      }
    } else {
      assert bs == [bs[0]];
    }
  }

  lemma {:induction false} ZeroIs(bs: seq<Byte>)
    requires Ends(bs) && Number(bs) == 0 && Span(bs) == |bs|
    ensures bs[|bs| - 1] == 0
  {
    if bs[0] >= 128 {
      EndsTail(bs);
      ZeroIs(bs[1..]);
    }
  }

  // --- Streams ------------------------------------------------------------------

  function EncodeAll(vs: seq<Word>): (bs: seq<Byte>) {
    if vs == [] then [] else Encode(vs[0]) + EncodeAll(vs[1..])
  }

  datatype Reading = Short | Read(values: seq<Word>, bytes: nat)

  /** Read `n` values one after the other, as a caller of decode_uvarint does who moves on
    * by the byte count it reports; `Short` if the bytes give out inside a value. */
  function DecodeAll(bs: seq<Byte>, n: nat): (r: Reading) {
    if n == 0 then Read([], 0)
    else if !Ends(bs) then Short
    else
      match DecodeAll(bs[Span(bs)..], n - 1)
      case Short => Short
      case Read(vs, m) => Read([Number(bs) % WORD] + vs, Span(bs) + m)
  }

  lemma Regroup<T>(a: seq<T>, b: seq<T>, c: seq<T>)
    ensures (a + b) + c == a + (b + c)
  {
  }

  lemma EncodeAllIs(vs: seq<Word>, rest: seq<Byte>)
    ensures vs == [] ==> EncodeAll(vs) == []
    ensures vs != [] ==> |EncodeAll(vs)| == |Encode(vs[0])| + |EncodeAll(vs[1..])|
    ensures vs != [] ==> EncodeAll(vs) + rest == Encode(vs[0]) + (EncodeAll(vs[1..]) + rest)
  {
    hide Encode;
    if vs != [] {
      Regroup(Encode(vs[0]), EncodeAll(vs[1..]), rest);
    }
  }

  /** Values written back to back are read back as they were, and the reader stops at the
    * first byte after them. */
  lemma {:induction false} StreamRoundTrip(vs: seq<Word>, rest: seq<Byte>)
    ensures DecodeAll(EncodeAll(vs) + rest, |vs|) == Read(vs, |EncodeAll(vs)|)
  {
    hide Encode, Number, Ends, EncodeAll, Span;
    if vs == [] {
      EncodeAllIs(vs, rest);
    } else {
      var after := EncodeAll(vs[1..]) + rest;
      var bs := EncodeAll(vs) + rest;
      EncodeAllIs(vs, rest);
      DecodeEncode(vs[0], after);
      assert bs[Span(bs)..] == after;
      StreamRoundTrip(vs[1..], rest);
      assert vs == [vs[0]] + vs[1..];
    }
  }

  /** Two streams are the same bytes only when they are the same values. */
  lemma {:induction false} StreamInjective(vs: seq<Word>, ws: seq<Word>)
    requires EncodeAll(vs) == EncodeAll(ws)
    ensures vs == ws
  {
    if vs == [] || ws == [] {
      assert |EncodeAll(vs)| == 0 <==> vs == [];
      assert |EncodeAll(ws)| == 0 <==> ws == [];
    } else {
      DecodeEncode(vs[0], EncodeAll(vs[1..]));
      DecodeEncode(ws[0], EncodeAll(ws[1..]));
      assert EncodeAll(vs)[|Encode(vs[0])|..] == EncodeAll(vs[1..]);
      assert EncodeAll(ws)[|Encode(ws[0])|..] == EncodeAll(ws[1..]);
      StreamInjective(vs[1..], ws[1..]);
      assert vs == [vs[0]] + vs[1..] && ws == [ws[0]] + ws[1..];
    }
  }

  // --- The loops ----------------------------------------------------------------

  lemma EncodeStep(v: Word)
    ensures Encode(v) == if v / 128 != 0 then [128 + v % 128] + Encode(v / 128) else [v % 128]
  {
  }

  /** encode_uint: writes at `at`, and says how many bytes it wrote. */
  method EncodeUint(buf: array<Byte>, at: nat, value: Word) returns (i: nat)
    requires at + |Encode(value)| <= buf.Length
    modifies buf
    ensures i == |Encode(value)| && i <= 10
    ensures buf[at..at + i] == Encode(value)
    ensures forall k :: 0 <= k < at || at + i <= k < buf.Length ==> buf[k] == old(buf[k])
  {
    hide Encode;
    TenBytesAtMost(value);
    i := 0;
    var val: Word := value;
    var more := true;
    while more
      invariant at + i <= buf.Length
      invariant more ==> Encode(value) == buf[at..at + i] + Encode(val)
      invariant !more ==> Encode(value) == buf[at..at + i]
      invariant forall k :: 0 <= k < at || at + i <= k < buf.Length ==> buf[k] == old(buf[k])
      decreases more, val
    {
      var next := val % 128;
      ghost var before: Word, done, left := val, buf[at..at + i], Encode(val);
      assert at + i + |left| <= buf.Length;
      val := val / 128;
      if val != 0 {
        next := next + 128;
      }
      buf[at + i] := next;
      i := i + 1;
      more := val != 0;
      assert buf[at..at + i] == done + [next];
      EncodeStep(before);
      assert more ==> done + ([next] + Encode(val)) == done + [next] + Encode(val);
    }
  }

  /** A group of seven bits shifted to place `i`, cut off at the word's end. */
  function ShiftLeft(group: nat, i: nat): (w: Word) {
    group * Pow(i) % WORD
  }

  /** The bits of `high` start where those of `low` end. */
  ghost predicate Apart(low: Word, high: Word, i: nat) {
    low < Pow(i) && high % Pow(i) == 0
  }

  /** `low | high`. */
  function Or(low: Word, high: Word, ghost i: nat): (r: nat)
    requires Apart(low, high, i)
  {
    low + high
  }

  /** decode_uvarint: reads from `at`. The shift stays inside a word for ten bytes, and a
    * tenth byte loses all but its lowest bit. */
  method DecodeUvarint(data: seq<Byte>, at: nat) returns (val: Word, bytes: nat)
    requires at <= |data| && Ends(data[at..]) && Span(data[at..]) <= 10
    ensures bytes == Span(data[at..])
    ensures val == Number(data[at..]) % WORD
  {
    hide Number, Ends, Pow, ShiftLeft, Apart, Partial;
    var i, shift := 0, 0;
    val := 0;
    ghost var all := data[at..];
    ghost var part: nat := 0;
    PartialStart(all);
    var more := true;
    while more
      invariant i <= Span(all) && shift == 7 * i
      invariant more ==> i < Span(all) && val == part && Partial(all, i, part)
      invariant !more ==> i == Span(all) && val == Number(all) % WORD
      decreases more, |all| - i
    {
      var b := data[at + i];
      Advance(all, i, part);
      val := Or(val, ShiftLeft(b % 128, shift / 7), i);
      shift := shift + 7;
      part := With(part, b, i);
      i := i + 1;
      more := b >= 128;
    }
    bytes := i;
  }

  /** `part` is what the first `i` groups spell, and more follow. */
  ghost predicate Partial(all: seq<Byte>, i: nat, part: nat) {
    && i < |all| && Ends(all) && Ends(all[i..])
    && Span(all) == i + Span(all[i..])
    && part < Pow(i) && Number(all) == part + Pow(i) * Number(all[i..])
  }

  lemma PartialStart(all: seq<Byte>)
    requires Ends(all)
    ensures Partial(all, 0, 0)
  {
    assert all[0..] == all;
  }

  ghost function With(part: nat, b: Byte, i: nat): nat {
    part + (b % 128) * Pow(i)
  }

  lemma Advance(all: seq<Byte>, i: nat, part: nat)
    requires Ends(all) && i < Span(all) <= 10 && Partial(all, i, part)
    ensures part < WORD && Apart(part, ShiftLeft(all[i] % 128, i), i)
    ensures
      var next := With(part, all[i], i);
      && part + ShiftLeft(all[i] % 128, i) == next % WORD
      && (all[i] < 128 ==> i + 1 == Span(all) && next == Number(all))
      && (all[i] >= 128 ==> i + 1 < Span(all) && next < WORD && Partial(all, i + 1, next))
  {
    hide Ends, Pow, ShiftLeft, Apart, Partial, With;
    var b := all[i];
    PartialIs(all, i, part);
    LastGroup(i, b % 128, part);
    if b >= 128 {
      AdvanceInside(all, i, part);
      SmallGroup(i, With(part, b, i));
    } else {
      AdvanceLast(all, i, part);
    }
  }

  lemma PartialIs(all: seq<Byte>, i: nat, part: nat)
    requires Partial(all, i, part)
    ensures part < Pow(i) && With(part, all[i], i) == part + (all[i] % 128) * Pow(i)
  {
  }

  lemma AdvanceLast(all: seq<Byte>, i: nat, part: nat)
    requires Partial(all, i, part) && all[i] < 128
    ensures i + 1 == Span(all) && With(part, all[i], i) == Number(all)
  {
    hide Pow, Ends;
    assert all[i..][0] == all[i];
    assert all[i] % 128 == all[i];
  }

  lemma AdvanceInside(all: seq<Byte>, i: nat, part: nat)
    requires Partial(all, i, part) && all[i] >= 128
    requires With(part, all[i], i) < Pow(i + 1)
    ensures i + 1 < Span(all) && Partial(all, i + 1, With(part, all[i], i))
  {
    hide Ends, Pow;
    assert all[i..][0] == all[i];
    EndsTail(all[i..]);
    assert all[i..][1..] == all[i + 1..];
    PowStep(i);
    GroupStep(part, Pow(i), all[i], Number(all[i + 1..]));
  }

  lemma GroupStep(part: nat, p: nat, b: Byte, more: nat)
    requires b >= 128
    ensures part + p * (b - 128 + 128 * more) == part + (b % 128) * p + (128 * p) * more
  {
    assert b % 128 == b - 128;
    assert p * (b - 128 + 128 * more) == p * (b - 128) + p * (128 * more);
    assert p * (128 * more) == (128 * p) * more;
  }

  /** Below the tenth byte nothing is truncated. */
  lemma SmallGroup(i: nat, next: nat)
    requires i + 1 < 10
    requires next < Pow(i + 1)
    ensures next < WORD
  {
    PowGrows(i + 1, 9);
    PowTen();
  }

  lemma {:induction false} PowGrows(i: nat, j: nat)
    requires i <= j
    ensures Pow(i) <= Pow(j)
    decreases j - i
  {
    if i < j {
      PowGrows(i + 1, j);
      assert Pow(i + 1) == 128 * Pow(i);
    }
  }

  /** One group of seven bits joins those below it without touching them, truncated to a
    * word. */
  lemma LastGroup(i: nat, group: nat, part: nat)
    requires i < 10 && group < 128 && part < Pow(i)
    ensures part < WORD && Apart(part, ShiftLeft(group, i), i)
    ensures part + ShiftLeft(group, i) == (part + group * Pow(i)) % WORD
    ensures part + group * Pow(i) < Pow(i + 1)
  {
    hide Pow, Apart, ShiftLeft;
    PowGrows(i, 9);
    PowTen();
    PowStep(i);
    GroupFits(group, Pow(i));
    if i < 9 {
      PowGrows(i + 1, 9);
      LowGroup(i, group, part);
    } else {
      TopGroup(group, part);
    }
  }

  lemma GroupFits(group: nat, p: nat)
    requires group < 128
    ensures group * p + p <= 128 * p
  {
    assert (group + 1) * p <= 128 * p;
  }

  lemma LowGroup(i: nat, group: nat, part: nat)
    requires part < Pow(i) && part + group * Pow(i) < WORD
    ensures part < WORD && Apart(part, ShiftLeft(group, i), i)
    ensures part + ShiftLeft(group, i) == (part + group * Pow(i)) % WORD
  {
    hide Pow;
    MultipleOf(group, Pow(i));
    assert group * Pow(i) % WORD == group * Pow(i);
  }

  /** Of the tenth group only the lowest bit is left. */
  lemma TopGroup(group: nat, part: nat)
    requires part < Pow(9)
    ensures part < WORD && Apart(part, ShiftLeft(group, 9), 9)
    ensures part + ShiftLeft(group, 9) == (part + group * Pow(9)) % WORD
  {
    hide Pow;
    PowTen();
    assert group * HALF == (group / 2) * WORD + (group % 2) * HALF;
    assert group * HALF % WORD == (group % 2) * HALF;
  }

  lemma MultipleOf(k: nat, p: nat)
    requires p > 0
    ensures k * p % p == 0
  {
    var q, r := k * p / p, k * p % p;
    assert k * p == p * q + r;
    assert p * (k - q) == r;
    assert k - q >= 1 ==> p * (k - q) >= p;
    assert k - q <= -1 ==> p * (k - q) + p <= 0;
  }

  // --- Signed values --------------------------------------------------------------

  /** The cast to an unsigned word. */
  function ToWord(x: int): (w: Word) {
    x % WORD
  }

  /** The cast to a signed word. */
  function ToSigned(x: int): (s: Signed) {
    if x % WORD < HALF then x % WORD else x % WORD - WORD
  }

  /** A signed shift left by one, and the bitwise complement. */
  function Shift(x: Signed): (s: Signed) { ToSigned(2 * x) }

  function Flip(x: Signed): (s: Signed) { -1 - x }

  /** encode_int's word, as computed at network/coding.cc:5. */
  function Zigzag(v: Signed): (w: Word) {
    ToWord(if v < 0 then Flip(Shift(v)) else Shift(v))
  }

  /** decode_varint's value, as computed at network/coding.cc:12. */
  function Unzigzag(w: Word): (v: Signed) {
    ToSigned(if w % 2 == 1 then WORD - 1 - w / 2 else w / 2)
  }

  /** The zigzag order 0, -1, 1, -2, 2, ...: no wrap-around in the shift shows. */
  lemma ZigzagIs(v: Signed)
    ensures Zigzag(v) == if v < 0 then -2 * v - 1 else 2 * v
  {
    if v < -HALF / 2 {
      assert (2 * v) % WORD == 2 * v + WORD;
    } else if v < 0 {
      assert (2 * v) % WORD == 2 * v + WORD;
    } else if v < HALF / 2 {
      assert (2 * v) % WORD == 2 * v;
    } else {
      assert (2 * v - WORD) % WORD == 2 * v;
    }
  }

  lemma UnzigzagIs(w: Word)
    ensures Unzigzag(w) == if w % 2 == 1 then -1 - w / 2 else w / 2
  {
  }

  /** Every signed word comes back, the smallest included, and every word is the image of
    * one. */
  lemma ZigzagBijective(v: Signed, w: Word)
    ensures Unzigzag(Zigzag(v)) == v
    ensures Zigzag(Unzigzag(w)) == w
  {
    hide Zigzag, Unzigzag;
    ZigzagIs(v);
    UnzigzagIs(Zigzag(v));
    UnzigzagIs(w);
    ZigzagIs(Unzigzag(w));
  }

  /** encode_int. */
  method EncodeInt(buf: array<Byte>, at: nat, v: Signed) returns (i: nat)
    requires at + |Encode(Zigzag(v))| <= buf.Length
    modifies buf
    ensures i == |Encode(Zigzag(v))| && i <= 10
    ensures buf[at..at + i] == Encode(Zigzag(v))
    ensures forall k :: 0 <= k < at || at + i <= k < buf.Length ==> buf[k] == old(buf[k])
  {
    i := EncodeUint(buf, at, Zigzag(v));
  }

  /** decode_varint. */
  method DecodeVarint(data: seq<Byte>, at: nat) returns (v: Signed, bytes: nat)
    requires at <= |data| && Ends(data[at..]) && Span(data[at..]) <= 10
    ensures bytes == Span(data[at..])
    ensures Zigzag(v) == Number(data[at..]) % WORD
  {
    var w: Word;
    w, bytes := DecodeUvarint(data, at);
    v := Unzigzag(w);
    ZigzagBijective(v, w);
  }

  /** Signed values survive, and `k` bytes carry exactly the signed numbers of 7k bits. */
  lemma SignedRoundTrip(v: Signed, rest: seq<Byte>, k: nat)
    requires k > 0
    ensures Ends(Encode(Zigzag(v)) + rest)
    ensures Span(Encode(Zigzag(v)) + rest) == |Encode(Zigzag(v))| <= 10
    ensures Unzigzag(Number(Encode(Zigzag(v)) + rest) % WORD) == v
    ensures |Encode(Zigzag(v))| <= k <==> 0 <= 2 * v + Pow(k) < 2 * Pow(k)
  {
    hide Encode, Number, Ends, Zigzag, Unzigzag;
    DecodeEncode(Zigzag(v), rest);
    TenBytesAtMost(Zigzag(v));
    ZigzagBijective(v, 0);
    ZigzagIs(v);
    LengthIs(Zigzag(v), k);
    assert Pow(k) % 2 == 0 by { assert Pow(k) == 128 * Pow(k - 1); }
  }
}
