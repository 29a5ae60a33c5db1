/** Strictly ascending lists of ids, and their intersection
    (internal/index/index.go, internal/shard/shard.go). */
module Sorted {
  predicate Ascending(ids: seq<nat>) {
    forall j, k :: 0 <= j < k < |ids| ==> ids[j] < ids[k]
  }

  lemma AscendingAppend(ids: seq<nat>, x: nat)
    requires Ascending(ids) && forall y :: y in ids ==> y < x
    ensures Ascending(ids + [x])
  {
    assert forall j :: 0 <= j < |ids| ==> ids[j] in ids;
  }

  /** The rest of an ascending list lies above its head. */
  lemma HeadIsLeast(a: seq<nat>)
    requires Ascending(a) && |a| > 0
    ensures var rest := a[1..];
      Ascending(rest) && (forall x :: x in a <==> x == a[0] || x in rest) && (forall x :: x in rest ==> a[0] < x)
  {
    assert a == [a[0]] + a[1..];
  }

  /** `out` holds the common ids of `a` and `b` before the unread parts `ra`, `rb`. */
  ghost predicate Merged(a: seq<nat>, b: seq<nat>, ra: seq<nat>, rb: seq<nat>, out: seq<nat>) {
    && Ascending(out) && Ascending(ra) && Ascending(rb)
    && (forall x :: x in a && x in b <==> x in out || (x in ra && x in rb))
    && (forall x, y :: x in out && (y in ra || y in rb) ==> x < y)
  }

  lemma MergeStep(a: seq<nat>, b: seq<nat>, ra: seq<nat>, rb: seq<nat>, out: seq<nat>)
    requires |ra| > 0 && |rb| > 0 && Merged(a, b, ra, rb, out)
    ensures ra[0] < rb[0] ==> Merged(a, b, ra[1..], rb, out)
    ensures ra[0] > rb[0] ==> Merged(a, b, ra, rb[1..], out)
    ensures ra[0] == rb[0] ==> Merged(a, b, ra[1..], rb[1..], out + [ra[0]])
  {
    HeadIsLeast(ra);
    HeadIsLeast(rb);
    assert ra[0] in ra;
    if ra[0] == rb[0] { AscendingAppend(out, ra[0]); }
  }

  /** Intersection by stepping through both lists. */
  method Intersect(a: seq<nat>, b: seq<nat>) returns (out: seq<nat>)
    requires Ascending(a) && Ascending(b)
    ensures Ascending(out)
    ensures forall x :: x in out <==> x in a && x in b
  {
    out := [];
    var i, j := 0, 0;
    while i < |a| && j < |b|
      invariant 0 <= i <= |a| && 0 <= j <= |b|
      invariant Merged(a, b, a[i..], b[j..], out)
    {
      MergeStep(a, b, a[i..], b[j..], out);
      if a[i] < b[j] {
        i := i + 1;
      } else if a[i] > b[j] {
        j := j + 1;
      } else {
        out := out + [a[i]];
        i, j := i + 1, j + 1;
      }
    }
  }
}
