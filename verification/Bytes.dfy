/** Bytes, ASCII case folding, trigrams and byte-wise path order: the vocabulary
    shared by the index, the shards and the matchers. */
module Bytes {
  type byte = b: int | 0 <= b < 256
  type Bytes = seq<byte>

  const NEWLINE: byte := 10
  const SLASH: byte := 47
  const SPACE: byte := 32

  /** ASCII lower-casing of one byte; every other byte is left alone. */
  function Lower(b: byte): (r: byte) {
    if 65 <= b <= 90 then b + 32 else b
  }

  function LowerAll(s: Bytes): (r: Bytes)
    ensures |r| == |s| && forall i :: 0 <= i < |s| ==> r[i] == Lower(s[i])
  {
    seq(|s|, i requires 0 <= i < |s| => Lower(s[i]))
  }

  /** Equality of two bytes, up to ASCII case when `fold` is set. */
  predicate Same(a: byte, b: byte, fold: bool) {
    if fold then Lower(a) == Lower(b) else a == b
  }

  /** `lit` is found in `s` at offset `p`. */
  predicate OccursAt(s: Bytes, lit: Bytes, p: int, fold: bool) {
    0 <= p && p + |lit| <= |s| && forall k :: 0 <= k < |lit| ==> Same(s[p + k], lit[k], fold)
  }

  ghost predicate Occurs(s: Bytes, lit: Bytes, fold: bool) {
    exists p :: OccursAt(s, lit, p, fold)
  }

  /** `p` is `dir` itself or lies below it. */
  predicate Under(dir: Bytes, p: Bytes) {
    p == dir || dir + [SLASH] <= p
  }

  lemma UnderSplits(dir: Bytes, p: Bytes)
    ensures Under(dir, p) <==> p == dir || exists rest :: p == dir + [SLASH] + rest
  {
    var d := dir + [SLASH];
    if d <= p { assert p == d + p[|d|..]; }
  }

  // ---- trigrams ----

  /** The key of the three bytes at `i`, lower-cased. */
  function TriKey(s: Bytes, i: nat): (k: nat)
    requires i + 3 <= |s|
    ensures k < 0x100_0000
  {
    Lower(s[i]) * 65536 + Lower(s[i + 1]) * 256 + Lower(s[i + 2])
  }

  ghost predicate HasTri(s: Bytes, k: nat) {
    exists i: nat :: i + 3 <= |s| && TriKey(s, i) == k
  }

  function Tris(s: Bytes): (r: set<nat>)
    ensures forall k :: k in r <==> HasTri(s, k)
  {
    set i: nat | 0 <= i < |s| - 2 :: TriKey(s, i)
  }

  /** Two keys are the same exactly if the bytes are, up to case. */
  lemma KeysTellApart(s: Bytes, i: nat, t: Bytes, j: nat)
    requires i + 3 <= |s| && j + 3 <= |t|
    ensures TriKey(s, i) == TriKey(t, j) <==>
      Same(s[i], t[j], true) && Same(s[i + 1], t[j + 1], true) && Same(s[i + 2], t[j + 2], true)
  {
  }

  lemma SameTri(s: Bytes, lit: Bytes, p: int, fold: bool, i: nat)
    requires OccursAt(s, lit, p, fold) && i + 3 <= |lit|
    ensures TriKey(LowerAll(lit), i) == TriKey(lit, i) == TriKey(s, p + i)
  {
    assert Same(s[p + i], lit[i], fold) && Same(s[p + (i + 1)], lit[i + 1], fold) && Same(s[p + (i + 2)], lit[i + 2], fold);
  }

  /** A literal found anywhere in `s`, in either case mode, lends `s` all of its
      trigrams: trigram pruning can only drop files without a match. */
  lemma OccurrenceHasTris(s: Bytes, lit: Bytes, p: int, fold: bool)
    requires OccursAt(s, lit, p, fold)
    ensures Tris(lit) <= Tris(s)
    ensures Tris(LowerAll(lit)) <= Tris(s)
  {
    forall k | k in Tris(LowerAll(lit)) || k in Tris(lit)
      ensures k in Tris(s)
    {
      hide Tris;
      var i: nat :| i + 3 <= |lit| && (TriKey(lit, i) == k || TriKey(LowerAll(lit), i) == k);
      SameTri(s, lit, p, fold, i);
    }
  }

  // ---- byte-wise order of paths ----

  /** Strict lexicographic order, as Go compares strings. */
  predicate Less(a: Bytes, b: Bytes) {
    if |a| == 0 then |b| > 0
    else if |b| == 0 then false
    else a[0] < b[0] || (a[0] == b[0] && Less(a[1..], b[1..]))
  }

  predicate LessEq(a: Bytes, b: Bytes) {
    a == b || Less(a, b)
  }

  lemma {:induction false} LessIrreflexive(a: Bytes)
    ensures !Less(a, a)
  {
    if |a| > 0 { LessIrreflexive(a[1..]); }
  }

  lemma {:induction false} LessTransitive(a: Bytes, b: Bytes, c: Bytes)
    requires Less(a, b) && Less(b, c)
    ensures Less(a, c)
  {
    if |a| > 0 && a[0] == b[0] == c[0] { LessTransitive(a[1..], b[1..], c[1..]); }
  }

  lemma {:induction false} LessTotal(a: Bytes, b: Bytes)
    ensures a == b || Less(a, b) || Less(b, a)
  {
    if |a| > 0 && |b| > 0 && a[0] == b[0] {
      LessTotal(a[1..], b[1..]);
      if a[1..] == b[1..] { assert a == [a[0]] + a[1..] == b; }
    }
  }

  lemma LessEqTransitive(a: Bytes, b: Bytes, c: Bytes)
    requires LessEq(a, b) && LessEq(b, c)
    ensures LessEq(a, c)
    ensures Less(a, b) || Less(b, c) ==> Less(a, c)
  {
    if Less(a, b) && Less(b, c) { LessTransitive(a, b, c); }
  }

  /** The order is strict and total: of `a < b` and `b <= a` exactly one holds. */
  lemma LessOrGeq(a: Bytes, b: Bytes)
    ensures Less(a, b) <==> !LessEq(b, a)
  {
    LessTotal(a, b);
    LessIrreflexive(a);
    if Less(a, b) && Less(b, a) { LessTransitive(a, b, a); }
  }

  /** A string never sorts before its own prefix. */
  lemma {:induction false} PrefixLessEq(p: Bytes, s: Bytes)
    requires p <= s
    ensures LessEq(p, s)
  {
    if |p| > 0 { PrefixLessEq(p[1..], s[1..]); }
    else if |s| == 0 { assert p == s; }
  }

  /** Strings sharing a prefix form an interval: whatever sorts after the prefix
      without having it sorts after every string that has it. */
  lemma {:induction false} PastPrefix(p: Bytes, a: Bytes, s: Bytes)
    requires p <= s && Less(p, a) && !(p <= a)
    ensures Less(s, a)
  {
    if |p| > 0 && p[0] == a[0] {
      assert p[1..] <= a[1..] ==> p <= a;
      PastPrefix(p[1..], a[1..], s[1..]);
    }
  }
}
