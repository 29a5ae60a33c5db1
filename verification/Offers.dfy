/** The required literal is the longest there is to have (internal/index/query.go): of all
    the literal text that a pattern has in a row, wherever captures and repetitions put
    it, the scan over concatenations finds a longest one and passes over none. */
module Offers {
  import opened Bytes
  import opened Literal
  import opened Query

  /** Literals that do not fold, and their text side by side. */
  predicate AllRaw(res: seq<Re>) {
    forall k :: 0 <= k < |res| ==> res[k].Lit? && !res[k].foldCase
  }

  function Joined(res: seq<Re>): Bytes {
    if |res| == 0 || !res[0].Lit? then [] else res[0].runes + Joined(res[1..])
  }

  /** A literal that the pattern has in a row: below captures, repetitions that take one at
      least and parts of concatenations it is a literal or, side by side in a
      concatenation, several that do not fold. */
  ghost predicate Has(re: Re, f: Found)
    decreases re, 0
  {
    match re
    case Lit(runes, foldCase) => f == Found(if foldCase then LowerAll(runes) else runes, foldCase)
    case Capture(sub) => Has(sub, f)
    case Plus(sub) => Has(sub, f)
    case Concat(subs) => HasIn(subs, f)
    case _ => false
  }

  ghost predicate HasIn(subs: seq<Re>, f: Found)
    decreases subs, 0
  {
    (exists k :: 0 <= k < |subs| && Has(subs[k], f)) || HasRun(subs, f)
  }

  ghost predicate HasRun(subs: seq<Re>, f: Found) {
    exists a: nat, b: nat :: a <= b <= |subs| && IsRun(subs, a, b, f)
  }

  predicate IsRun(subs: seq<Re>, a: nat, b: nat, f: Found)
    requires a <= b <= |subs|
  {
    AllRaw(subs[a..b]) && f == Found(Joined(subs[a..b]), false)
  }

  /** The run so far, and the raw literals that come next. */
  ghost predicate RunsOn(subs: seq<Re>, run: Bytes, f: Found) {
    exists b: nat :: b <= |subs| && RunsBy(subs, run, b, f)
  }

  predicate RunsBy(subs: seq<Re>, run: Bytes, b: nat, f: Found)
    requires b <= |subs|
  {
    AllRaw(subs[..b]) && f == Found(run + Joined(subs[..b]), false)
  }

  lemma RunsHere(subs: seq<Re>, run: Bytes)
    ensures RunsOn(subs, run, Found(run, false))
  {
    assert subs[..0] == [] && run + [] == run;
    assert RunsBy(subs, run, 0, Found(run, false));
  }

  /** A run that begins here is a run. */
  lemma RunsAreRuns(subs: seq<Re>, f: Found)
    requires RunsOn(subs, [], f)
    ensures HasRun(subs, f)
  {
    var b: nat :| b <= |subs| && RunsBy(subs, [], b, f);
    assert subs[0..b] == subs[..b] && [] + Joined(subs[..b]) == Joined(subs[..b]);
    assert IsRun(subs, 0, b, f);
  }

  /** A run begins here or later. */
  lemma RunOfRest(subs: seq<Re>, f: Found)
    requires |subs| > 0
    ensures HasRun(subs, f) <==> HasRun(subs[1..], f) || RunsOn(subs, [], f)
  {
    var later := subs[1..];
    if a: nat, b: nat :| a <= b <= |subs| && IsRun(subs, a, b, f) {
      if a > 0 {
        assert subs[a..b] == later[a - 1..b - 1];
        assert IsRun(later, a - 1, b - 1, f);
      } else {
        assert subs[0..b] == subs[..b] && [] + Joined(subs[..b]) == Joined(subs[..b]);
        assert RunsBy(subs, [], b, f);
      }
    }
    if a: nat, b: nat :| a <= b <= |later| && IsRun(later, a, b, f) {
      assert subs[a + 1..b + 1] == later[a..b];
      assert IsRun(subs, a + 1, b + 1, f);
    }
    if RunsOn(subs, [], f) { RunsAreRuns(subs, f); }
  }

  lemma HasInRest(subs: seq<Re>, f: Found)
    requires |subs| > 0
    ensures HasIn(subs, f) <==> Has(subs[0], f) || HasIn(subs[1..], f) || RunsOn(subs, [], f)
  {
    hide Has, HasRun, RunsOn;
    var later := subs[1..];
    RunOfRest(subs, f);
    if k :| 0 <= k < |later| && Has(later[k], f) { assert subs[k + 1] == later[k]; }
    if k :| 0 <= k < |subs| && Has(subs[k], f) { assert k > 0 ==> subs[k] == later[k - 1]; }
  }

  lemma RawFirst(subs: seq<Re>, b: nat)
    requires 0 < b <= |subs|
    ensures AllRaw(subs[..b]) <==> subs[0].Lit? && !subs[0].foldCase && AllRaw(subs[1..][..b - 1])
    ensures subs[0].Lit? ==> Joined(subs[..b]) == subs[0].runes + Joined(subs[1..][..b - 1])
  {
    var s, u := subs[..b], subs[1..][..b - 1];
    assert s[0] == subs[0] && s[1..] == u;
    assert forall k :: 0 <= k < b - 1 ==> u[k] == s[k + 1];
    assert forall k :: 0 < k < b ==> s[k] == u[k - 1];
  }

  /** With a raw literal next, the run goes on through it. */
  lemma RunsThrough(subs: seq<Re>, run: Bytes, f: Found)
    requires |subs| > 0 && subs[0].Lit? && !subs[0].foldCase
    ensures RunsOn(subs, run, f) <==> f == Found(run, false) || RunsOn(subs[1..], run + subs[0].runes, f)
  {
    hide AllRaw, Joined;
    var later, t := subs[1..], subs[0].runes;
    RunsHere(subs, run);
    if b: nat :| b <= |subs| && RunsBy(subs, run, b, f) {
      if b > 0 {
        RawFirst(subs, b);
        assert run + (t + Joined(later[..b - 1])) == (run + t) + Joined(later[..b - 1]);
        assert RunsBy(later, run + t, b - 1, f);
      } else {
        NoneJoined(subs, run);
      }
    }
    if b: nat :| b <= |later| && RunsBy(later, run + t, b, f) {
      RawFirst(subs, b + 1);
      assert run + (t + Joined(later[..b])) == (run + t) + Joined(later[..b]);
      assert RunsBy(subs, run, b + 1, f);
    }
  }

  lemma NoneJoined(subs: seq<Re>, run: Bytes)
    ensures run + Joined(subs[..0]) == run
  {
  }

  /** With anything else next, or nothing, it is over. */
  lemma RunsStop(subs: seq<Re>, run: Bytes, f: Found)
    requires |subs| > 0 ==> !subs[0].Lit? || subs[0].foldCase
    ensures RunsOn(subs, run, f) <==> f == Found(run, false)
  {
    RunsHere(subs, run);
    if b: nat :| b <= |subs| && RunsBy(subs, run, b, f) {
      if b > 0 { RawFirst(subs, b); } else { NoneJoined(subs, run); }
    }
  }

  /** A run that goes on from more is longer by as much. */
  lemma LongerRun(subs: seq<Re>, before: Bytes, run: Bytes, f: Found)
    requires RunsOn(subs, run, f)
    ensures RunsOn(subs, before + run, Found(before + f.lit, false))
  {
    var b: nat :| b <= |subs| && RunsBy(subs, run, b, f);
    assert before + (run + Joined(subs[..b])) == (before + run) + Joined(subs[..b]);
    assert RunsBy(subs, before + run, b, Found(before + f.lit, false));
  }

  /** What the scan can still come to. */
  ghost predicate OnOffer(subs: seq<Re>, run: Bytes, best: Found, f: Found) {
    f == best || RunsOn(subs, run, f) || HasIn(subs, f)
  }

  ghost predicate Longest(subs: seq<Re>, run: Bytes, best: Found, f: Found) {
    OnOffer(subs, run, best, f) && forall g :: OnOffer(subs, run, best, g) ==> |g.lit| <= |f.lit|
  }

  lemma NoneIn(f: Found)
    ensures HasIn([], f) ==> f.lit == []
  {
  }

  lemma {:induction false} ScanIsLongest(subs: seq<Re>, run: Bytes, best: Found)
    ensures Longest(subs, run, best, RequiredOf(subs, run, best))
    decreases subs, 0
  {
    hide Has, HasIn, RunsOn, Required;
    var f := RequiredOf(subs, run, best);
    if |subs| == 0 {
      forall g { RunsStop(subs, run, g); }
      forall g { NoneIn(g); }
    } else if subs[0].Lit? && !subs[0].foldCase {
      ScanIsLongest(subs[1..], run + subs[0].runes, best);
      ThroughLiteral(subs, run, best, f);
    } else {
      var next := Longer(Required(subs[0]), Longer(Found(run, false), best));
      RequiredIsLongest(subs[0]);
      ScanIsLongest(subs[1..], [], next);
      PastOther(subs, run, best, next, f);
    }
  }

  lemma ThroughLiteral(subs: seq<Re>, run: Bytes, best: Found, f: Found)
    requires |subs| > 0 && subs[0].Lit? && !subs[0].foldCase
    requires Longest(subs[1..], run + subs[0].runes, best, f)
    ensures Longest(subs, run, best, f)
  {
    hide HasIn, RunsOn;
    var later, t := subs[1..], subs[0].runes;
    RunsThrough(subs, run, f);
    HasInRest(subs, f);
    RunsHere(later, run + t);
    assert OnOffer(later, run + t, best, Found(run + t, false));
    forall g | OnOffer(subs, run, best, g) ensures |g.lit| <= |f.lit| {
      RunsThrough(subs, run, g);
      RunsThrough(subs, [], g);
      HasInRest(subs, g);
      assert [] + t == t;
      if RunsOn(later, t, g) {
        LongerRun(later, run, t, g);
        assert OnOffer(later, run + t, best, Found(run + g.lit, false));
      }
    }
  }

  lemma PastOther(subs: seq<Re>, run: Bytes, best: Found, next: Found, f: Found)
    requires |subs| > 0 && (!subs[0].Lit? || subs[0].foldCase)
    requires next == Longer(Required(subs[0]), Longer(Found(run, false), best))
    requires IsLongest(subs[0], Required(subs[0])) && Longest(subs[1..], [], next, f)
    ensures Longest(subs, run, best, f)
  {
    hide Has, HasIn, RunsOn, Required;
    var later := subs[1..];
    RunsStop(subs, run, f);
    RunsStop(subs, run, Found(run, false));
    HasInRest(subs, f);
    if RunsOn(later, [], f) { RunIn(later, f); }
    assert OnOffer(subs, run, best, f);
    assert OnOffer(later, [], next, next);
    forall g | OnOffer(subs, run, best, g) ensures |g.lit| <= |f.lit| {
      RunsStop(subs, run, g);
      RunsStop(subs, [], g);
      HasInRest(subs, g);
    }
  }

  lemma RunIn(subs: seq<Re>, f: Found)
    requires RunsOn(subs, [], f)
    ensures HasIn(subs, f)
  {
    RunsAreRuns(subs, f);
  }

  /** In the pattern, unless there is none, and no other literal in it is longer. */
  ghost predicate IsLongest(re: Re, f: Found) {
    (f == NONE || Has(re, f)) && forall g :: Has(re, g) ==> |g.lit| <= |f.lit|
  }

  /** The required literal is a longest one in the pattern. */
  lemma {:induction false} RequiredIsLongest(re: Re)
    ensures IsLongest(re, Required(re))
    decreases re, 1
  {
    match re
    case Capture(sub) => RequiredIsLongest(sub);
    case Plus(sub) => RequiredIsLongest(sub);
    case Concat(subs) => {
      ScanIsLongest(subs, [], NONE);
      ScanFromStart(subs, RequiredOf(subs, [], NONE));
    }
    case _ =>
  }

  lemma ScanFromStart(subs: seq<Re>, f: Found)
    requires Longest(subs, [], NONE, f)
    ensures IsLongest(Concat(subs), f)
  {
    hide HasIn, RunsOn;
    if RunsOn(subs, [], f) { RunIn(subs, f); }
    forall g | Has(Concat(subs), g) ensures |g.lit| <= |f.lit| { assert OnOffer(subs, [], NONE, g); }
  }

  /** What is handed to the index has a trigram, unless the literal has none, and occurs
      up to case just where the literal does. */
  lemma UsableMeans(lit: Bytes)
    ensures Usable(lit) == [] <==> Tris(lit) == {}
    ensures Usable(lit) != [] ==> forall s, p :: OccursAt(s, Usable(lit), p, true) <==> OccursAt(s, lit, p, true)
    ensures Usable(lit) == LowerAll(Usable(lit))
  {
    hide Tris;
    TrisOfLength(lit);
    forall s, p | Usable(lit) != [] ensures OccursAt(s, Usable(lit), p, true) <==> OccursAt(s, lit, p, true) {
      assert forall k :: 0 <= k < |lit| ==> Usable(lit)[k] == Lower(lit[k]);
      assert OccursAt(s, lit, p, true) ==> forall k :: 0 <= k < |lit| ==> Same(s[p + k], lit[k], true);
    }
  }

  lemma TrisOfLength(lit: Bytes)
    ensures Tris(lit) == {} <==> |lit| < 3
  {
    if |lit| >= 3 { assert HasTri(lit, TriKey(lit, 0)); }
  }
}
