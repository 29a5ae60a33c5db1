/** Pruning regexp searches on the disk engine, which matches line by line. */
module Pruning {
  import opened Prelude
  import opened Bytes
  import opened Literal
  import opened Lines
  import opened EngineSpec
  import Q = Query

  /** The library finds a match in a line only where the pattern accepts one. */
  ghost predicate FindsOnly(find: Bytes -> Option<Loc>, re: Q.Re, nocase: bool) {
    forall line :: find(line).Some? ==> exists i: nat, j: nat :: i <= j <= |line| && Q.Accepts(re, line, i, j, nocase)
  }

  /** A file with a line to report has a line the finder accepts. */
  lemma {:induction false} SomeLineMatches(path: Bytes, c: Bytes, st: nat, n: nat, find: Finder, maxCols: int) returns (b: nat, e: nat)
    requires ScanLines(path, c, st, n, find, maxCols) != []
    ensures b <= e <= |c| && find(c[b..e]) >= 0
    decreases |c| - st
  {
    b, e := st, LineEnd(c, st);
    if FindIn(c, st, e, find) < 0 { b, e := SomeLineMatches(path, c, e + 1, n + 1, find, maxCols); }
  }

  /** A match within a line lends the file the trigrams of the required literal. */
  lemma LineHasLiteral(c: Bytes, b: nat, e: nat, re: Q.Re, i: nat, j: nat, nocase: bool)
    requires b <= e <= |c| && i <= j <= e - b && Q.Accepts(re, c[b..e], i, j, nocase)
    ensures Tris(Q.Usable(Q.ReqLit(re))) <= Tris(c) || (Q.CanHide(re, nocase) && Q.HasOdd(c))
  {
    hide Tris, Q.Accepts, Q.ReqLit, Q.Usable, Q.CanHide, Q.HasOdd;
    Q.MatchHasTris(re, c[b..e], i, j, nocase);
    SliceTris(c, b, e);
    SliceOdd(c, b, e);
  }

  lemma SliceTris(c: Bytes, b: nat, e: nat)
    requires b <= e <= |c|
    ensures Tris(c[b..e]) <= Tris(c)
  {
    forall k | k in Tris(c[b..e]) ensures k in Tris(c) {
      var i: nat :| i + 3 <= |c[b..e]| && TriKey(c[b..e], i) == k;
      assert TriKey(c, b + i) == k;
    }
  }

  lemma SliceStands(c: Bytes, b: nat, e: nat, w: Bytes, p: nat)
    requires b <= e <= |c| && Q.StandsAt(c[b..e], w, p)
    ensures Q.StandsAt(c, w, b + p)
  {
    var x, y := c[b..e][p..p + |w|], c[b + p..b + p + |w|];
    forall k | 0 <= k < |w| ensures x[k] == y[k] { assert x[k] == c[b..e][p + k] == c[b + p + k]; }
    assert x == y;
  }

  lemma SliceOdd(c: Bytes, b: nat, e: nat)
    requires b <= e <= |c|
    ensures Q.HasOdd(c[b..e]) ==> Q.HasOdd(c)
  {
    hide Q.StandsAt;
    if Q.HasOdd(c[b..e]) {
      var p: nat :| Q.StandsAt(c[b..e], Q.KELVIN, p) || Q.StandsAt(c[b..e], Q.LONG_S, p);
      if Q.StandsAt(c[b..e], Q.KELVIN, p) { SliceStands(c, b, e, Q.KELVIN, p); } else { SliceStands(c, b, e, Q.LONG_S, p); }
    }
  }

  /** A file with a line to report keeps its trigrams through pruning by the extracted
      literal, unless case folding can hide that literal and the file has one of the odd
      characters. */
  lemma ReportedHasTris(q: EngineSpec.Query, re: Q.Re, nocase: bool, p: Bytes, c: Bytes)
    requires q.m.plain == [] && FindsOnly(q.m.re, re, nocase) && FileLines(q, p, c) != []
    ensures Tris(Q.Usable(Q.ReqLit(re))) <= Tris(c) || (Q.CanHide(re, nocase) && Q.HasOdd(c))
  {
    hide Tris, Q.Accepts, Q.ReqLit, Q.Usable, Q.CanHide, Q.HasOdd, ScanLines, IsBinary;
    var b, e := SomeLineMatches(p, c, 0, 0, FinderOf(q.m), q.maxCols);
    assert q.m.re(c[b..e]).Some?;
    var i: nat, j: nat :| i <= j <= |c[b..e]| && Q.Accepts(re, c[b..e], i, j, nocase);
    LineHasLiteral(c, b, e, re, i, j, nocase);
  }

  /** Pruning a regexp search by its extracted literal never drops a file with a line to
      report, unless case folding can hide that literal. */
  lemma RegexpPrunes(q: EngineSpec.Query, re: Q.Re, nocase: bool)
    requires q.m.plain == [] && q.m.rare == None && FindsOnly(q.m.re, re, nocase)
    requires q.literal == Q.Usable(Q.ReqLit(re)) && !Q.CanHide(re, nocase)
    ensures PruningOk(q)
  {
    hide Tris, Q.Accepts, Q.ReqLit, Q.Usable, Q.CanHide, Q.HasOdd, FileLines;
    forall p, c | FileLines(q, p, c) != [] ensures Tris(q.literal) <= Tris(c) { ReportedHasTris(q, re, nocase, p, c); }
  }
}
