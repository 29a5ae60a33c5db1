/** Literal search (internal/index/literal.go) and the per-line matcher built on
    it (internal/index/matcher.go). */
module Literal {
  import opened Prelude
  import opened Bytes

  /** A match as a half-open range of byte offsets. */
  datatype Loc = Loc(start: nat, end: nat)

  // ---- specification: least occurrence, leftmost non-overlapping sequence ----

  /** The least offset at or after `from` where `lit` occurs, or -1. */
  function First(s: Bytes, lit: Bytes, fold: bool, from: nat): (r: int)
    ensures r == -1 || (from <= r && OccursAt(s, lit, r, fold))
    ensures forall q :: from <= q && (r == -1 || q < r) ==> !OccursAt(s, lit, q, fold)
    decreases |s| - from
  {
    if from + |lit| > |s| then -1
    else if OccursAt(s, lit, from, fold) then from
    else First(s, lit, fold, from + 1)
  }

  /** `First` is pinned down by what it promises. */
  lemma FirstUnique(s: Bytes, lit: Bytes, fold: bool, from: nat, r: int)
    requires r == -1 || (from <= r && OccursAt(s, lit, r, fold))
    requires forall q :: from <= q && (r == -1 || q < r) ==> !OccursAt(s, lit, q, fold)
    ensures r == First(s, lit, fold, from)
  {
    var f := First(s, lit, fold, from);
    if f != -1 { assert OccursAt(s, lit, f, fold); }
  }

  function FindAll(s: Bytes, lit: Bytes, fold: bool, from: nat): (r: seq<Loc>)
    requires |lit| > 0
    decreases |s| - from
  {
    var i := First(s, lit, fold, from);
    if i < 0 then [] else [Loc(i, i + |lit|)] + FindAll(s, lit, fold, i + |lit|)
  }

  /** Match `k` is an occurrence that does not overlap the one before it. */
  ghost predicate LocOk(s: Bytes, lit: Bytes, fold: bool, from: nat, locs: seq<Loc>, k: nat)
    requires k < |locs|
  {
    && OccursAt(s, lit, locs[k].start, fold)
    && locs[k].end == locs[k].start + |lit|
    && (if k == 0 then from else locs[k - 1].end) <= locs[k].start
  }

  ghost predicate Inside(locs: seq<Loc>, p: nat) {
    exists k :: 0 <= k < |locs| && locs[k].start <= p < locs[k].end
  }

  /** The matches reported from `from` on: each is an occurrence, none overlaps
      the one before, and every occurrence starts inside a reported match. */
  ghost predicate Leftmost(s: Bytes, lit: Bytes, fold: bool, from: nat, locs: seq<Loc>) {
    && (forall k :: 0 <= k < |locs| ==> LocOk(s, lit, fold, from, locs, k))
    && (forall p: nat :: from <= p && OccursAt(s, lit, p, fold) ==> Inside(locs, p))
  }

  lemma InsideCons(l: Loc, locs: seq<Loc>, p: nat)
    ensures Inside([l] + locs, p) <==> l.start <= p < l.end || Inside(locs, p)
  {
    var all := [l] + locs;
    if l.start <= p < l.end { assert all[0] == l; }
    if Inside(locs, p) {
      var k :| 0 <= k < |locs| && locs[k].start <= p < locs[k].end;
      assert all[k + 1] == locs[k];
    }
    if Inside(all, p) {
      var k :| 0 <= k < |all| && all[k].start <= p < all[k].end;
      assert k > 0 ==> locs[k - 1] == all[k];
    }
  }

  /** One more match in front. */
  lemma LeftmostCons(s: Bytes, lit: Bytes, fold: bool, from: nat, l: Loc, rest: seq<Loc>)
    requires |lit| > 0 && l == Loc(l.start, l.start + |lit|)
    requires l.start == First(s, lit, fold, from)
    ensures Leftmost(s, lit, fold, from, [l] + rest) <==> Leftmost(s, lit, fold, l.end, rest)
  {
    var all := [l] + rest;
    forall k | 0 <= k < |rest|
      ensures LocOk(s, lit, fold, from, all, k + 1) <==> LocOk(s, lit, fold, l.end, rest, k)
    {
      assert all[k + 1] == rest[k] && (k > 0 ==> all[k] == rest[k - 1]);
    }
    forall p: nat ensures Inside(all, p) <==> l.start <= p < l.end || Inside(rest, p) { InsideCons(l, rest, p); }
    assert LocOk(s, lit, fold, from, all, 0);
    if Leftmost(s, lit, fold, l.end, rest) {
      forall k | 0 <= k < |all| ensures LocOk(s, lit, fold, from, all, k) {
        if k > 0 { assert LocOk(s, lit, fold, l.end, rest, k - 1); }
      }
    }
    if Leftmost(s, lit, fold, from, all) {
      forall k | 0 <= k < |rest| ensures LocOk(s, lit, fold, l.end, rest, k) { assert LocOk(s, lit, fold, from, all, k + 1); }
    }
  }

  lemma {:induction false} FindAllIsLeftmost(s: Bytes, lit: Bytes, fold: bool, from: nat)
    requires |lit| > 0
    ensures Leftmost(s, lit, fold, from, FindAll(s, lit, fold, from))
    decreases |s| - from
  {
    hide LocOk, OccursAt;
    var i := First(s, lit, fold, from);
    if i >= 0 {
      FindAllIsLeftmost(s, lit, fold, i + |lit|);
      hide Leftmost;
      LeftmostCons(s, lit, fold, from, Loc(i, i + |lit|), FindAll(s, lit, fold, i + |lit|));
    }
  }

  /** Only one sequence has these properties, so the leftmost non-overlapping
      sequence is well defined and `FindAll` is it. */
  lemma {:induction false} LeftmostUnique(s: Bytes, lit: Bytes, fold: bool, from: nat, locs: seq<Loc>)
    requires |lit| > 0 && Leftmost(s, lit, fold, from, locs)
    ensures locs == FindAll(s, lit, fold, from)
    decreases |locs|
  {
    hide First, OccursAt, Leftmost;
    var i := First(s, lit, fold, from);
    if locs == [] {
      NoneLeft(s, lit, fold, from);
    } else {
      FirstIsFirst(s, lit, fold, from, locs);
      assert locs == [locs[0]] + locs[1..];
      LeftmostCons(s, lit, fold, from, locs[0], locs[1..]);
      LeftmostUnique(s, lit, fold, i + |lit|, locs[1..]);
    }
  }

  lemma NoneLeft(s: Bytes, lit: Bytes, fold: bool, from: nat)
    requires Leftmost(s, lit, fold, from, [])
    ensures First(s, lit, fold, from) == -1
  {
    var i := First(s, lit, fold, from);
    assert i >= 0 ==> Inside([], i);
  }

  lemma FirstIsFirst(s: Bytes, lit: Bytes, fold: bool, from: nat, locs: seq<Loc>)
    requires |lit| > 0 && locs != [] && Leftmost(s, lit, fold, from, locs)
    ensures locs[0].start == First(s, lit, fold, from) && locs[0].end == locs[0].start + |lit|
  {
    var i := First(s, lit, fold, from);
    assert LocOk(s, lit, fold, from, locs, 0);
    StartsInOrder(s, lit, fold, from, locs);
    assert Inside(locs, i);
  }

  lemma {:induction false} StartsInOrder(s: Bytes, lit: Bytes, fold: bool, from: nat, locs: seq<Loc>)
    requires |locs| > 0 && forall k :: 0 <= k < |locs| ==> LocOk(s, lit, fold, from, locs, k)
    ensures forall k :: 0 <= k < |locs| ==> locs[0].start <= locs[k].start
  {
    for n := 1 to |locs|
      invariant forall k :: 0 <= k < n ==> locs[0].start <= locs[k].start
    {
      assert LocOk(s, lit, fold, from, locs, n) && LocOk(s, lit, fold, from, locs, n - 1);
    }
  }

  lemma OccursByte(s: Bytes, lit: Bytes, q: int, fold: bool, k: nat)
    requires k < |lit|
    ensures OccursAt(s, lit, q, fold) ==> 0 <= q + k < |s| && Same(s[q + k], lit[k], fold)
  {
  }

  // ---- the searches themselves ----

  // Go hands these searches a slice `s[from:]`; here they take the whole of `s` and
  // the offset, and answer with an offset into `s`.

  /** bytes.IndexByte. */
  function IndexByte(s: Bytes, c: byte, from: nat): (r: int)
    requires from <= |s|
    ensures r == -1 || (from <= r < |s| && s[r] == c)
    ensures forall k :: from <= k < (if r < 0 then |s| else r) ==> s[k] != c
    decreases |s| - from
  {
    if from == |s| then -1 else if s[from] == c then from else IndexByte(s, c, from + 1)
  }

  /** The folded compare of two equally long slices. */
  method FoldEqual(a: Bytes, b: Bytes) returns (eq: bool)
    requires |a| == |b|
    ensures eq <==> LowerAll(a) == LowerAll(b)
  {
    for i := 0 to |b|
      invariant forall k :: 0 <= k < i ==> Lower(a[k]) == Lower(b[k])
    {
      if Lower(a[i]) != Lower(b[i]) {
        assert LowerAll(a)[i] != LowerAll(b)[i];
        return false;
      }
    }
    return true;
  }

  /** The next byte equal to `c1` or `c2`. */
  method IndexEither(s: Bytes, c1: byte, c2: byte, from: nat) returns (r: int)
    requires from <= |s|
    ensures r == -1 || (from <= r < |s| && (s[r] == c1 || s[r] == c2))
    ensures forall k :: from <= k < (if r < 0 then |s| else r) ==> s[k] != c1 && s[k] != c2
  {
    r := IndexByte(s, c1, from);
    if c2 != c1 {
      var i2 := IndexByte(s, c2, from);
      if i2 >= 0 && (r < 0 || i2 < r) { r := i2; }
    }
  }

  /** Jumps on both case variants of the first byte, then compares folded. */
  method FoldIndex(s: Bytes, lit: Bytes, from: nat) returns (r: int)
    requires |lit| > 0 && from <= |s|
    ensures r == First(s, lit, true, from)
  {
    var c1 := Lower(lit[0]);
    var c2: byte := c1;
    if 97 <= c1 <= 122 { c2 := c1 - 32; }
    var off := from;
    while off + |lit| <= |s|
      invariant from <= off <= |s|
      invariant forall q :: from <= q < off ==> !OccursAt(s, lit, q, true)
    {
      var pos := IndexEither(s, c1, c2, off);
      NoFirstByte(s, lit, c1, c2, off, pos);
      if pos < 0 || pos + |lit| > |s| {
        FirstUnique(s, lit, true, from, -1);
        return -1;
      }
      var eq := FoldEqual(s[pos..pos + |lit|], lit);
      FoldedSlice(s, lit, pos);
      if eq {
        FirstUnique(s, lit, true, from, pos);
        return pos;
      }
      off := pos + 1;
    }
    FirstUnique(s, lit, true, from, -1);
    return -1;
  }

  lemma NoFirstByte(s: Bytes, lit: Bytes, c1: byte, c2: byte, off: nat, pos: int)
    requires |lit| > 0 && c1 == Lower(lit[0]) && c2 == (if 97 <= c1 <= 122 then c1 - 32 else c1)
    requires pos < |s| && forall k :: off <= k < (if pos < 0 then |s| else pos) ==> s[k] != c1 && s[k] != c2
    ensures forall q :: off <= q < (if pos < 0 then |s| else pos) ==> !OccursAt(s, lit, q, true)
  {
    forall q | off <= q < (if pos < 0 then |s| else pos) ensures !OccursAt(s, lit, q, true) {
      OccursByte(s, lit, q, true, 0);
      assert s[q] != c1 && s[q] != c2;
    }
  }

  lemma FoldedSlice(s: Bytes, lit: Bytes, pos: nat)
    requires pos + |lit| <= |s|
    ensures LowerAll(s[pos..pos + |lit|]) == LowerAll(lit) <==> OccursAt(s, lit, pos, true)
  {
    var a := s[pos..pos + |lit|];
    assert forall k :: 0 <= k < |lit| ==> LowerAll(a)[k] == Lower(s[pos + k]) && LowerAll(lit)[k] == Lower(lit[k]);
    if LowerAll(a) == LowerAll(lit) {
      forall k | 0 <= k < |lit| ensures Same(s[pos + k], lit[k], true) { assert LowerAll(a)[k] == LowerAll(lit)[k]; }
    }
  }

  /** bytes.Index, the library's least-offset search, or the folded search. */
  method Index(s: Bytes, lit: Bytes, fold: bool, from: nat) returns (r: int)
    requires |lit| > 0 && from <= |s|
    ensures r == First(s, lit, fold, from)
  {
    if fold { r := FoldIndex(s, lit, from); } else { r := First(s, lit, false, from); }
  }

  /** All matches of `lit`, as regexp.FindAllIndex would list them. */
  method LiteralFindAll(content: Bytes, lit: Bytes, fold: bool) returns (locs: seq<Loc>)
    ensures locs == if |lit| == 0 then [] else FindAll(content, lit, fold, 0)
  {
    locs := [];
    if |lit| == 0 { return; }
    hide FindAll, First;
    var off := 0;
    while true
      invariant 0 <= off <= |content|
      invariant locs + FindAll(content, lit, fold, off) == FindAll(content, lit, fold, 0)
      decreases |content| - off
    {
      var start := Index(content, lit, fold, off);
      if start < 0 {
        FindAllDone(content, lit, fold, off);
        return;
      }
      FindAllStep(content, lit, fold, off, start, locs);
      locs := locs + [Loc(start, start + |lit|)];
      off := start + |lit|;
    }
  }

  lemma FindAllDone(s: Bytes, lit: Bytes, fold: bool, off: nat)
    requires |lit| > 0 && First(s, lit, fold, off) < 0
    ensures FindAll(s, lit, fold, off) == []
  {
  }

  lemma FindAllStep(s: Bytes, lit: Bytes, fold: bool, off: nat, start: nat, locs: seq<Loc>)
    requires |lit| > 0 && start == First(s, lit, fold, off)
    ensures start + |lit| <= |s|
    ensures locs + FindAll(s, lit, fold, off) == (locs + [Loc(start, start + |lit|)]) + FindAll(s, lit, fold, start + |lit|)
  {
    assert OccursAt(s, lit, start, fold);
    MoveCons(locs, Loc(start, start + |lit|), FindAll(s, lit, fold, start + |lit|));
  }

  lemma MoveCons<T>(a: seq<T>, x: T, b: seq<T>)
    ensures a + ([x] + b) == (a + [x]) + b
  {
  }

  // ---- matcher.go ----

  /** Position of the first match in a line, or -1: what a compiled pattern offers. */
  type Finder = Bytes -> int

  /** A matcher: a plain literal searched directly, or else the compiled pattern. */
  datatype Matcher = Matcher(plain: Bytes, fold: bool, rare: Option<byte>, re: Bytes -> Option<Loc>)

  function LiteralFinder(lit: Bytes, fold: bool): Finder {
    (line: Bytes) => First(line, lit, fold, 0)
  }

  /** Approximate byte frequency in source code; lower is rarer. */
  function FreqRank(b: byte): nat {
    if b in [32, 9, 10, 13] then 255
    else if 97 <= b <= 122 then 200
    else if 65 <= b <= 90 then 180
    else if 48 <= b <= 57 then 160
    else if b in [40, 41, 123, 125, 91, 93, 59, 44, 46, 95, 61, 45, 43, 42, 47, 60, 62, 38, 124, 33, 58, 34, 39, 92, 35] then 140
    else 50
  }

  method PickRareByte(lit: Bytes) returns (best: Option<byte>)
    ensures best.None? <==> lit == []
    ensures best.Some? ==> best.value in lit && forall k :: 0 <= k < |lit| ==> FreqRank(best.value) <= FreqRank(lit[k])
  {
    hide FreqRank;
    if |lit| == 0 { return None; }
    var b := lit[0];
    for i := 1 to |lit|
      invariant b in lit
      invariant forall k :: 0 <= k < i ==> FreqRank(b) <= FreqRank(lit[k])
    {
      if FreqRank(lit[i]) < FreqRank(b) { b := lit[i]; }
    }
    return Some(b);
  }

  predicate IsLetter(b: int) { 97 <= b <= 122 || 65 <= b <= 90 }

  /** The byte with the ASCII case bit flipped (xor 0x20). */
  function FlipCase(b: byte): (r: byte) {
    if (b / 32) % 2 == 0 then b + 32 else b - 32
  }

  /** Two bytes fold together exactly when they are equal or opposite-case letters. */
  lemma FoldClass(a: byte, b: byte)
    ensures Lower(a) == Lower(b) <==> a == b || (a == FlipCase(b) && IsLetter(a))
  {
  }

  /** First match in a line. The rare byte, a byte of the literal, only screens
      lines that cannot match: the answer is that of the plain search. */
  method FindFirst(m: Matcher, line: Bytes) returns (r: Option<Loc>)
    requires m.rare.Some? ==> m.rare.value in m.plain
    ensures m.plain == [] ==> r == m.re(line)
    ensures m.plain != [] ==>
      var i := First(line, m.plain, m.fold, 0);
      r == if i < 0 then None else Some(Loc(i, i + |m.plain|))
  {
    if m.plain != [] {
      if m.rare.Some? && IndexByte(line, m.rare.value, 0) < 0 {
        ghost var k :| 0 <= k < |m.plain| && m.plain[k] == m.rare.value;
        if !m.fold {
          NoRareNoMatch(line, m.plain, false, k);
          return None;
        }
        var alt := FlipCase(m.rare.value);
        if IsLetter(alt) && IndexByte(line, alt, 0) < 0 {
          forall q | 0 <= q < |line| ensures Lower(line[q]) != Lower(m.rare.value) { FoldClass(line[q], m.rare.value); }
          NoRareNoMatch(line, m.plain, true, k);
          return None;
        }
      }
      var i := Index(line, m.plain, m.fold, 0);
      if i < 0 { return None; }
      return Some(Loc(i, i + |m.plain|));
    }
    return m.re(line);
  }

  lemma NoRareNoMatch(line: Bytes, lit: Bytes, fold: bool, k: nat)
    requires k < |lit|
    requires forall q :: 0 <= q < |line| ==> !Same(line[q], lit[k], fold)
    ensures First(line, lit, fold, 0) == -1
  {
    forall q | 0 <= q ensures !OccursAt(line, lit, q, fold) {
      OccursByte(line, lit, q, fold, k);
    }
    FirstUnique(line, lit, fold, 0, -1);
  }
}
