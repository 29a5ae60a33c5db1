/** Byte-level building blocks of the shard format: concatenated parts, little-endian
    fixed-width fields, and unsigned LEB128 (internal/shard/varint.go). */
module Codec {
  import opened Bytes

  // ---- concatenation ----

  function Cat(parts: seq<Bytes>): (r: Bytes) {
    if |parts| == 0 then [] else Cat(parts[..|parts| - 1]) + parts[|parts| - 1]
  }

  /** Offset of part `i` within the concatenation. */
  function Start(parts: seq<Bytes>, i: nat): (r: nat)
    requires i <= |parts|
  {
    |Cat(parts[..i])|
  }

  /** `b` stands in `data` at offset `pos`. */
  predicate At(data: Bytes, pos: nat, b: Bytes) {
    pos + |b| <= |data| && data[pos..pos + |b|] == b
  }

  lemma CatSnoc(parts: seq<Bytes>, p: Bytes)
    ensures Cat(parts + [p]) == Cat(parts) + p
  {
    assert (parts + [p])[..|parts|] == parts;
  }

  /** Every part is found at its offset, and the next one follows it. */
  lemma {:induction false} CatAt(parts: seq<Bytes>, i: nat)
    requires i < |parts|
    ensures Start(parts, i + 1) == Start(parts, i) + |parts[i]| <= |Cat(parts)|
    ensures At(Cat(parts), Start(parts, i), parts[i])
  {
    var n := |parts| - 1;
    assert parts[..i + 1] == parts[..i] + [parts[i]];
    CatSnoc(parts[..i], parts[i]);
    if i < n {
      CatAt(parts[..n], i);
      assert parts[..n][..i] == parts[..i] && parts[..n][..i + 1] == parts[..i + 1];
      AtExtend(Cat(parts[..n]), parts[n], Start(parts, i), parts[i]);
    } else {
      assert parts[..n + 1] == parts;
    }
  }

  lemma AtExtend(data: Bytes, more: Bytes, pos: nat, b: Bytes)
    requires At(data, pos, b)
    ensures At(data + more, pos, b)
  {
    assert (data + more)[pos..pos + |b|] == data[pos..pos + |b|];
  }

  lemma {:induction false} CatFixed(parts: seq<Bytes>, w: nat, i: nat)
    requires i <= |parts| && forall k :: 0 <= k < |parts| ==> |parts[k]| == w
    ensures Start(parts, i) == w * i
  {
    if i > 0 {
      CatAt(parts, i - 1);
      CatFixed(parts, w, i - 1);
    }
  }

  lemma StartEnd(parts: seq<Bytes>)
    ensures Start(parts, |parts|) == |Cat(parts)| && Start(parts, 0) == 0
  {
    assert parts[..|parts|] == parts;
  }

  /** Looking up within a part is looking up within the whole. */
  lemma AtWithin(data: Bytes, pos: nat, part: Bytes, off: nat, b: Bytes)
    requires At(data, pos, part) && At(part, off, b)
    ensures At(data, pos + off, b)
  {
    forall k | 0 <= k < |b| ensures data[pos + off + k] == b[k] {
      assert part[off + k] == part[off..off + |b|][k];
      assert data[pos + (off + k)] == data[pos..pos + |part|][off + k];
    }
  }

  lemma AtPieces(data: Bytes, pos: nat, a: Bytes, b: Bytes)
    ensures At(data, pos, a + b) <==> At(data, pos, a) && At(data, pos + |a|, b)
  {
    if pos + |a| + |b| <= |data| {
      var w := data[pos..pos + |a| + |b|];
      assert w[..|a|] == data[pos..pos + |a|] && w[|a|..] == data[pos + |a|..pos + |a| + |b|];
      assert w == w[..|a|] + w[|a|..];
      assert (a + b)[..|a|] == a && (a + b)[|a|..] == b;
    }
  }

  // ---- little-endian fields ----

  function Pow256(n: nat): (r: nat)
    ensures r > 0
  {
    if n == 0 then 1 else 256 * Pow256(n - 1)
  }

  /** The low `n` bytes of `v`, least significant first; higher bytes are cut off. */
  function LE(v: nat, n: nat): (r: Bytes)
    ensures |r| == n
  {
    if n == 0 then [] else [v % 256] + LE(v / 256, n - 1)
  }

  function FromLE(b: Bytes): nat {
    if |b| == 0 then 0 else b[0] + 256 * FromLE(b[1..])
  }

  lemma {:induction false} LERoundTrip(v: nat, n: nat)
    requires v < Pow256(n)
    ensures FromLE(LE(v, n)) == v
  {
    if n > 0 {
      LERoundTrip(v / 256, n - 1);
      assert LE(v, n)[1..] == LE(v / 256, n - 1);
    }
  }

  /** The byte at `k` is the one that counts for 256 to the `k`. */
  lemma {:induction false} LEByte(v: nat, n: nat, k: nat)
    requires k < n
    ensures LE(v, n)[k] == v / Pow256(k) % 256
  {
    if k > 0 {
      LEByte(v / 256, n - 1, k - 1);
      DivTwice(v, Pow256(k - 1));
    }
  }

  lemma DivTwice(v: nat, p: nat)
    requires p > 0
    ensures v / 256 / p == v / (256 * p)
  {
    var q, r := v / 256 / p, v / 256 % p;
    var rest := 256 * r + v % 256;
    assert v / 256 == q * p + r;
    assert v == 256 * (v / 256) + v % 256;
    assert v == q * (256 * p) + rest;
    assert 0 <= rest < 256 * p by { assert r <= p - 1; }
    DivUnique(v, 256 * p, q, rest);
  }

  lemma DivUnique(v: nat, d: nat, q: nat, r: nat)
    requires d > 0 && r < d && v == q * d + r
    ensures v / d == q
  {
    var q', r' := v / d, v % d;
    assert v == q' * d + r';
    NotAbove(q', r', q, r, d);
    NotAbove(q, r, q', r', d);
  }

  lemma NotAbove(q: nat, r: nat, q': nat, r': nat, d: nat)
    requires r < d && q * d + r == q' * d + r'
    ensures q' <= q
  {
    if q < q' { MulLess(q, q', d); }
  }

  lemma MulLess(a: nat, b: nat, d: nat)
    requires a < b
    ensures a * d + d <= b * d
  {
    var more := b - a - 1;
    assert b * d == a * d + d + more * d;
    assert 0 <= more * d;
  }

  /** The fixed-width field of `n` bytes at `off`. */
  function Field(data: Bytes, off: nat, n: nat): nat
    requires off + n <= |data|
  {
    FromLE(data[off..off + n])
  }

  lemma FieldAt(data: Bytes, off: nat, v: nat, n: nat)
    requires At(data, off, LE(v, n)) && v < Pow256(n)
    ensures Field(data, off, n) == v
  {
    LERoundTrip(v, n);
  }

  lemma Widths()
    ensures Pow256(2) == 0x1_0000 && Pow256(4) == 0x1_0000_0000 && Pow256(8) == 0x1_0000_0000_0000_0000
  {
    assert Pow256(2) == 256 * 256;
    assert Pow256(3) == 256 * 256 * 256;
    assert Pow256(4) == 0x1_0000_0000;
    assert Pow256(6) == 0x1_0000_0000 * 0x1_0000;
    assert Pow256(7) == 256 * Pow256(6);
  }

  const U16: nat := 0x1_0000
  const U32: nat := 0x1_0000_0000
  const U64: nat := 0x1_0000_0000_0000_0000

  predicate IsInt64(x: int) { -0x8000_0000_0000_0000 <= x < 0x8000_0000_0000_0000 }

  /** Two's complement of an int64, and back. */
  function Unsigned(x: int): (r: nat)
    requires IsInt64(x)
    ensures r < U64
  {
    if x >= 0 then x else x + U64
  }

  function Signed(v: nat): (x: int) {
    if v >= 0x8000_0000_0000_0000 then v - U64 else v
  }

  lemma UnsignedIsModulo(x: int)
    requires IsInt64(x)
    ensures Unsigned(x) == x % U64
  {
  }

  // ---- unsigned LEB128 ----

  /** Seven bits per byte, least significant first, high bit set on all but the last. */
  function Uv(x: nat): (r: Bytes)
    ensures |r| >= 1
  {
    if x < 128 then [x] else [x % 128 + 128] + Uv(x / 128)
  }

  function Pow128(n: nat): (r: nat)
    ensures r > 0
  {
    if n == 0 then 1 else 128 * Pow128(n - 1)
  }

  const MAX_VARINT_LEN: nat := 10

  lemma {:induction false} UvLength(x: nat, n: nat)
    requires n > 0 && x < Pow128(n)
    ensures |Uv(x)| <= n
  {
    if x >= 128 {
      assert Pow128(1) == 128;
      UvLength(x / 128, n - 1);
    }
  }

  lemma Pow128Ten()
    ensures Pow128(9) == 0x8000_0000_0000_0000 && Pow128(10) >= U64
  {
    assert Pow128(2) == 128 * 128;
    assert Pow128(3) == 128 * Pow128(2);
    assert Pow128(4) == 128 * Pow128(3);
    assert Pow128(5) == 128 * Pow128(4);
    assert Pow128(6) == 128 * Pow128(5);
    assert Pow128(7) == 128 * Pow128(6);
    assert Pow128(8) == 128 * Pow128(7);
  }

  /** Appends the encoding of a uint64, built in a ten-byte buffer. */
  method AppendUvarint(b: Bytes, x: nat) returns (r: Bytes)
    requires x < U64
    ensures r == b + Uv(x)
  {
    Pow128Ten();
    UvLength(x, 10);
    var buf := new byte[MAX_VARINT_LEN](_ => 0);
    var i, v := 0, x;
    while v >= 128
      invariant 0 <= i && i + |Uv(v)| == |Uv(x)| <= buf.Length
      invariant buf[..i] + Uv(v) == Uv(x)
      decreases v
    {
      ghost var done := buf[..i];
      buf[i] := v % 128 + 128;
      assert buf[..i + 1] == done + [v % 128 + 128];
      assert done + ([v % 128 + 128] + Uv(v / 128)) == (done + [v % 128 + 128]) + Uv(v / 128);
      v := v / 128;
      i := i + 1;
    }
    ghost var done := buf[..i];
    buf[i] := v;
    assert buf[..i + 1] == done + [v];
    r := b + buf[..i + 1];
  }

  /** Reading in progress: `i` bytes of the encoding of `x` are read, worth `read`,
      and the encoding of `r` is still to come. */
  ghost predicate Reading(data: Bytes, pos: nat, x: nat, i: nat, read: nat, m: nat, r: nat) {
    && x < U64 && i < MAX_VARINT_LEN && m == Pow128(i)
    && At(data, pos + i, Uv(r))
    && x == read + m * r && i + |Uv(r)| == |Uv(x)|
  }

  lemma MulSwap(m: nat, q: nat)
    ensures (128 * m) * q == m * (128 * q)
  {
  }

  lemma ValueStep(read: nat, m: nat, r: nat)
    ensures (read + (r % 128) * m) + (128 * m) * (r / 128) == read + m * r
  {
    var q, d := r / 128, r % 128;
    assert r == 128 * q + d;
    MulSwap(m, q);
    assert m * (128 * q + d) == m * (128 * q) + m * d;
  }

  /** Products below 2^64 leave room for a tenth byte of at most 1, and no eleventh. */
  lemma TenthByte(i: nat, m: nat, read: nat, r: nat)
    requires i == 9 && m == Pow128(i) && read + m * r < U64
    ensures r <= 1
  {
    Pow128Ten();
  }

  lemma ReadingStep(data: Bytes, pos: nat, x: nat, i: nat, read: nat, m: nat, r: nat)
    requires Reading(data, pos, x, i, read, m, r)
    ensures pos + i < |data|
    ensures var b := data[pos + i];
      if b < 128 then x == read + b * m && i + 1 == |Uv(x)| && (i == 9 ==> b <= 1)
      else Reading(data, pos, x, i + 1, read + (b - 128) * m, 128 * m, r / 128)
  {
    if i == 9 { TenthByte(i, m, read, r); }
    ValueStep(read, m, r);
    assert data[pos + i] == data[pos + i..pos + i + |Uv(r)|][0];
    if r >= 128 { AtPieces(data, pos + i, [r % 128 + 128], Uv(r / 128)); }
  }

  /** The first `n` bytes at `pos` all say that more follow. */
  predicate GoesOn(data: Bytes, pos: nat, n: nat)
    requires pos + n <= |data|
  {
    forall k :: pos <= k < pos + n ==> data[k] >= 128
  }

  /** What the first `n` bytes at `pos` are worth, seven bits each. */
  function Worth(data: Bytes, pos: nat, n: nat): nat
    requires pos + n <= |data|
  {
    if n == 0 then 0 else Worth(data, pos, n - 1) + data[pos + n - 1] % 128 * Pow128(n - 1)
  }

  /** An encoding of `n` bytes at `pos` that a uint64 can hold; it may be longer than needed. */
  predicate Encoded(data: Bytes, pos: nat, n: nat) {
    && 0 < n <= MAX_VARINT_LEN && pos + n <= |data|
    && GoesOn(data, pos, n - 1) && data[pos + n - 1] < 128 && (n == MAX_VARINT_LEN ==> data[pos + n - 1] <= 1)
  }

  lemma OneMoreByte(data: Bytes, pos: nat, i: nat)
    requires pos + i < |data|
    ensures var b := data[pos + i]; Worth(data, pos, i + 1) == Worth(data, pos, i) + (if b < 128 then b else b - 128) * Pow128(i)
    ensures Pow128(i + 1) == 128 * Pow128(i)
    ensures GoesOn(data, pos, i + 1) <==> GoesOn(data, pos, i) && data[pos + i] >= 128
  {
    hide Pow128;
    var b := data[pos + i];
    assert b % 128 == if b < 128 then b else b - 128;
    NextPower(i);
  }

  lemma NextPower(i: nat)
    ensures Pow128(i + 1) == 128 * Pow128(i)
  {
  }

  lemma NothingRead(data: Bytes, pos: nat)
    requires pos <= |data|
    ensures Pow128(0) == 1 && Worth(data, pos, 0) == 0 && GoesOn(data, pos, 0)
  {
  }

  /** Past the ninth byte: what there is to say of the first ten. */
  lemma TooLong(data: Bytes, pos: nat, i: nat)
    requires MAX_VARINT_LEN - 1 <= i <= MAX_VARINT_LEN && pos + i < |data| && GoesOn(data, pos, i)
    ensures GoesOn(data, pos, MAX_VARINT_LEN - 1)
    ensures i == MAX_VARINT_LEN ==> data[pos + MAX_VARINT_LEN - 1] >= 128
  {
  }

  /** binary.Uvarint at `pos`: the worth of the encoding there, shortest or not, and the
      place just past it. If the data ends first, zero and `pos`; if a uint64 cannot hold
      it, zero and a place before `pos`. In particular what was written is read back. */
  method ReadUvarint(data: Bytes, pos: nat, ghost x: nat) returns (v: nat, next: int)
    requires pos <= |data|
    ensures x < U64 && At(data, pos, Uv(x)) ==> v == x && next == pos + |Uv(x)|
    ensures next > pos ==> Encoded(data, pos, next - pos) && v == Worth(data, pos, next - pos)
    ensures next == pos ==> v == 0 && |data| - pos <= MAX_VARINT_LEN && GoesOn(data, pos, |data| - pos)
    ensures next < pos ==> v == 0 && |data| - pos >= MAX_VARINT_LEN && GoesOn(data, pos, MAX_VARINT_LEN - 1) && data[pos + MAX_VARINT_LEN - 1] > 1
    ensures next < pos ==> next == pos - (if data[pos + MAX_VARINT_LEN - 1] < 128 then MAX_VARINT_LEN else MAX_VARINT_LEN + 1)
  {
    ghost var ok := x < U64 && At(data, pos, Uv(x));
    ghost var r := x;
    var i: nat, read: nat, m: nat := 0, 0, 1;
    assert ok ==> Reading(data, pos, x, 0, 0, 1, x);
    hide Reading, At, Uv, Worth, Pow128, GoesOn;
    NothingRead(data, pos);
    while pos + i < |data|
      invariant 0 <= i <= MAX_VARINT_LEN && pos + i <= |data|
      invariant ok ==> i < MAX_VARINT_LEN && Reading(data, pos, x, i, read, m, r)
      invariant m == Pow128(i) && read == Worth(data, pos, i) && GoesOn(data, pos, i)
      decreases |data| - i
    {
      if i >= MAX_VARINT_LEN - 1 { TooLong(data, pos, i); }
      if i == MAX_VARINT_LEN { return 0, pos - (i + 1); }
      var b := data[pos + i];
      OneMoreByte(data, pos, i);
      if ok { ReadingStep(data, pos, x, i, read, m, r); }
      if b < 128 {
        if i == MAX_VARINT_LEN - 1 && b > 1 { return 0, pos - (i + 1); }
        return read + b * m, pos + i + 1;
      }
      if ok { ReadingMore(data, pos, x, i + 1, read + (b - 128) * m, 128 * m, r / 128); }
      read, m, r, i := read + (b - 128) * m, 128 * m, r / 128, i + 1;
    }
    if ok { ReadingMore(data, pos, x, i, read, m, r); }
    return 0, pos;
  }

  lemma ReadingMore(data: Bytes, pos: nat, x: nat, i: nat, read: nat, m: nat, r: nat)
    requires Reading(data, pos, x, i, read, m, r)
    ensures i < MAX_VARINT_LEN && pos + i < |data|
  {
  }
}
