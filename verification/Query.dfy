/** The required literal of a pattern, and when pruning by it loses nothing. */
module Query {
  // internal/index/query.go. Patterns are syntax trees as the parser's simplifier leaves
  // them, with no counted repetition and ASCII literals; the text they match is bytes, of
  // which a character takes one to four. A class is the set of its characters in UTF-8.

  import opened Prelude
  import opened Bytes
  import opened Literal
  import opened Lines
  import opened MemIndex

  datatype Anchor = BeginText | EndText | BeginLine | EndLine | WordBoundary | NoWordBoundary

  datatype Re =
    | NoMatch
    | Empty
    | Lit(runes: Bytes, foldCase: bool)
    | Class(chars: set<Bytes>)
    | AnyChar
    | AnyCharNotNL
    | At(anchor: Anchor)
    | Capture(sub: Re)
    | Star(sub: Re)
    | Plus(sub: Re)
    | Quest(sub: Re)
    | Concat(subs: seq<Re>)
    | Alternate(subs: seq<Re>)

  // ---- meaning ----

  predicate IsWord(b: byte) {
    48 <= b <= 57 || 65 <= b <= 90 || b == 95 || 97 <= b <= 122
  }

  /** A zero-width assertion holds between bytes `i - 1` and `i`. */
  predicate Holds(a: Anchor, s: Bytes, i: nat)
    requires i <= |s|
  {
    var boundary := (i > 0 && IsWord(s[i - 1])) != (i < |s| && IsWord(s[i]));
    match a
    case BeginText => i == 0
    case EndText => i == |s|
    case BeginLine => i == 0 || s[i - 1] == NEWLINE
    case EndLine => i == |s| || s[i] == NEWLINE
    case WordBoundary => boundary
    case NoWordBoundary => !boundary
  }

  /** The two characters outside ASCII that case folding takes for ASCII letters, in UTF-8:
      U+212A for k, and U+017F for s. */
  const KELVIN: Bytes := [0xE2, 0x84, 0xAA]
  const LONG_S: Bytes := [0xC5, 0xBF]

  /** `c` is at offset `i` of `s`. */
  predicate StandsAt(s: Bytes, c: Bytes, i: nat) {
    i + |c| <= |s| && s[i..i + |c|] == c
  }

  /** `s[i..j]` spells `lit`, which with `fold` may also be in the other case or with the
      two odd characters. */
  predicate Spells(s: Bytes, lit: Bytes, i: nat, j: nat, fold: bool)
    decreases |lit|
  {
    if |lit| == 0 then i == j
    else
      || (i < |s| && Same(s[i], lit[0], fold) && Spells(s, lit[1..], i + 1, j, fold))
      || (fold && Lower(lit[0]) == 107 && StandsAt(s, KELVIN, i) && Spells(s, lit[1..], i + 3, j, fold))
      || (fold && Lower(lit[0]) == 115 && StandsAt(s, LONG_S, i) && Spells(s, lit[1..], i + 2, j, fold))
  }

  /** U+FFFD, which the library reads where a byte is not UTF-8. */
  const REPLACEMENT: Bytes := [0xEF, 0xBF, 0xBD]

  /** With (?i), `w` may pass for the character `c`: ASCII letters in either case, the odd
      characters for k and s, and letters outside ASCII for each other, unspecified. */
  predicate Folded(c: Bytes, w: Bytes) {
    || (|c| == 1 && |w| == 1 && Same(w[0], c[0], true))
    || (|c| == 1 && ((Lower(c[0]) == 107 && w == KELVIN) || (Lower(c[0]) == 115 && w == LONG_S)))
    || (|w| == 1 && ((Lower(w[0]) == 107 && c == KELVIN) || (Lower(w[0]) == 115 && c == LONG_S)))
    || (|c| > 1 && |w| > 1)
  }

  /** The bytes `w` are a character of the class. */
  predicate InClass(chars: set<Bytes>, w: Bytes, nocase: bool) {
    || w in chars
    || (nocase && exists c :: c in chars && Folded(c, w))
    || (|w| == 1 && w[0] >= 128 && REPLACEMENT in chars)
  }

  /** `re` may match `s[i..j]` within `s`; `nocase` is the (?i) flag on the whole. */
  ghost predicate Accepts(re: Re, s: Bytes, i: nat, j: nat, nocase: bool)
    requires i <= j <= |s|
    decreases re, 0
  {
    match re
    case NoMatch => false
    case Empty => i == j
    case Lit(runes, foldCase) => Spells(s, runes, i, j, foldCase || nocase)
    case Class(chars) => i < j <= i + 4 && InClass(chars, s[i..j], nocase)
    case AnyChar => i < j <= i + 4
    case AnyCharNotNL => i < j <= i + 4 && NoNewline(s, i, j)
    case At(anchor) => i == j && Holds(anchor, s, i)
    case Capture(sub) => Accepts(sub, s, i, j, nocase)
    case Star(sub) => exists n: nat :: Repeats(sub, n, s, i, j, nocase)
    case Plus(sub) => exists n: nat :: n > 0 && Repeats(sub, n, s, i, j, nocase)
    case Quest(sub) => i == j || Accepts(sub, s, i, j, nocase)
    case Concat(subs) => AcceptsAll(subs, s, i, j, nocase)
    case Alternate(subs) => exists k :: 0 <= k < |subs| && Accepts(subs[k], s, i, j, nocase)
  }

  ghost predicate Repeats(re: Re, n: nat, s: Bytes, i: nat, j: nat, nocase: bool)
    requires i <= j <= |s|
    decreases re, n + 1
  {
    if n == 0 then i == j
    else exists m: nat :: i <= m <= j && Accepts(re, s, i, m, nocase) && Repeats(re, n - 1, s, m, j, nocase)
  }

  ghost predicate AcceptsAll(res: seq<Re>, s: Bytes, i: nat, j: nat, nocase: bool)
    requires i <= j <= |s|
    decreases res, 0
  {
    if |res| == 0 then i == j
    else exists m: nat :: i <= m <= j && Accepts(res[0], s, i, m, nocase) && AcceptsAll(res[1..], s, m, j, nocase)
  }

  // ---- the required literal ----

  /** A literal found, and whether it stands for all its case variants by itself. */
  datatype Found = Found(lit: Bytes, folded: bool)

  const NONE: Found := Found([], false)

  function Longer(a: Found, b: Found): Found {
    if |a.lit| > |b.lit| then a else b
  }

  function Required(re: Re): Found
    decreases re, 0
  {
    match re
    case Lit(runes, foldCase) => Found(if foldCase then LowerAll(runes) else runes, foldCase)
    case Capture(sub) => Required(sub)
    case Plus(sub) => Required(sub)
    case Concat(subs) => RequiredOf(subs, [], NONE)
    case _ => NONE
  }

  /** `run` is the literal text ending here, `best` the longest find so far. */
  function RequiredOf(subs: seq<Re>, run: Bytes, best: Found): Found
    decreases subs, 0
  {
    if |subs| == 0 then Longer(Found(run, false), best)
    else if subs[0].Lit? && !subs[0].foldCase then RequiredOf(subs[1..], run + subs[0].runes, best)
    else RequiredOf(subs[1..], [], Longer(Required(subs[0]), Longer(Found(run, false), best)))
  }

  function ReqLit(re: Re): Bytes { Required(re).lit }

  method RequiredLiteral(re: Re) returns (lit: Bytes)
    ensures lit == ReqLit(re)
    decreases re
  {
    match re {
      case Lit(runes, foldCase) => lit := if foldCase then LowerAll(runes) else runes;
      case Capture(sub) => lit := RequiredLiteral(sub);
      case Plus(sub) => lit := RequiredLiteral(sub);
      case Concat(subs) =>
        var run: Bytes, best: Bytes := [], [];
        ghost var found := NONE;
        for i := 0 to |subs|
          invariant best == found.lit && RequiredOf(subs[i..], run, found) == RequiredOf(subs, [], NONE)
        {
          assert subs[i..][0] == subs[i] && subs[i..][1..] == subs[i + 1..];
          if subs[i].Lit? && !subs[i].foldCase {
            run := run + subs[i].runes;
          } else {
            if |run| > |best| { best := run; }
            found, run := Longer(Found(run, false), found), [];
            var s := RequiredLiteral(subs[i]);
            if |s| > |best| { best := s; }
            found := Longer(Required(subs[i]), found);
          }
        }
        lit := if |run| > |best| then run else best;
      case _ => lit := [];
    }
  }

  function Usable(lit: Bytes): Bytes {
    if |lit| < 3 then [] else LowerAll(lit)
  }

  /** The literal handed to the index: the pattern itself if it is fixed, none if it does
      not parse, else the required one; lower-cased, and dropped when it is too short to
      have a trigram. */
  method ExtractLiteral(pattern: Bytes, fixed: bool, parsed: Option<Re>) returns (lit: Bytes)
    ensures lit == if fixed then Usable(pattern) else if parsed.None? then [] else Usable(ReqLit(parsed.value))
  {
    if fixed {
      lit := pattern;
    } else {
      if parsed.None? { return []; }
      lit := RequiredLiteral(parsed.value);
    }
    if |lit| < 3 { return []; }
    lit := LowerAll(lit);
  }

  // ---- what every match contains ----

  /** `lit` occurs, up to ASCII case, within `s[i..j]`. */
  ghost predicate Within(s: Bytes, lit: Bytes, i: nat, j: nat) {
    exists p: nat :: i <= p && p + |lit| <= j && OccursAt(s, lit, p, true)
  }

  predicate IsKS(b: byte) {
    Lower(b) == 107 || Lower(b) == 115
  }

  /** The literal has a letter that an odd character can stand for. */
  predicate HasKS(lit: Bytes) {
    exists b :: b in lit && IsKS(b)
  }

  /** One of the odd characters is in `s`. */
  ghost predicate HasOdd(s: Bytes) {
    exists p: nat :: StandsAt(s, KELVIN, p) || StandsAt(s, LONG_S, p)
  }

  /** `lit` is within `s[i..j]`, unless an odd character may stand for one of its letters. */
  ghost predicate Held(s: Bytes, lit: Bytes, i: nat, j: nat, folds: bool) {
    Within(s, lit, i, j) || (folds && HasKS(lit) && HasOdd(s))
  }

  /** So for a literal found in a pattern. */
  ghost predicate FoundHeld(s: Bytes, f: Found, i: nat, j: nat, nocase: bool) {
    Held(s, f.lit, i, j, nocase || f.folded)
  }

  lemma WithinWiden(s: Bytes, lit: Bytes, i: nat, j: nat, i': nat, j': nat)
    requires Within(s, lit, i, j) && i' <= i && j <= j'
    ensures Within(s, lit, i', j')
  {
    var p: nat :| i <= p && p + |lit| <= j && OccursAt(s, lit, p, true);
    assert i' <= p && p + |lit| <= j';
  }

  lemma HeldWiden(s: Bytes, lit: Bytes, i: nat, j: nat, i': nat, j': nat, folds: bool)
    requires Held(s, lit, i, j, folds) && i' <= i && j <= j'
    ensures Held(s, lit, i', j', folds)
  {
    hide Within, HasOdd, HasKS;
    if Within(s, lit, i, j) { WithinWiden(s, lit, i, j, i', j'); }
  }

  lemma FoundWiden(s: Bytes, f: Found, i: nat, j: nat, i': nat, j': nat, nocase: bool)
    requires FoundHeld(s, f, i, j, nocase) && i' <= i && j <= j'
    ensures FoundHeld(s, f, i', j', nocase)
  {
    hide Held;
    HeldWiden(s, f.lit, i, j, i', j', nocase || f.folded);
  }

  lemma NoneHeld(s: Bytes, i: nat, j: nat, nocase: bool)
    requires i <= j <= |s|
    ensures FoundHeld(s, NONE, i, j, nocase)
  {
    assert OccursAt(s, [], i, true);
  }

  lemma LongerHeld(s: Bytes, a: Found, b: Found, i: nat, j: nat, nocase: bool)
    requires FoundHeld(s, a, i, j, nocase) && FoundHeld(s, b, i, j, nocase)
    ensures FoundHeld(s, Longer(a, b), i, j, nocase)
  {
    hide FoundHeld;
  }

  lemma LowerHeld(s: Bytes, lit: Bytes, i: nat, j: nat, folds: bool)
    requires Held(s, lit, i, j, folds)
    ensures Held(s, LowerAll(lit), i, j, folds)
  {
    if p: nat :| i <= p && p + |lit| <= j && OccursAt(s, lit, p, true) {
      assert forall k :: 0 <= k < |lit| ==> Same(s[p + k], lit[k], true);
      assert OccursAt(s, LowerAll(lit), p, true);
    }
    if b :| b in lit && IsKS(b) {
      var k :| 0 <= k < |lit| && lit[k] == b;
      assert LowerAll(lit)[k] in LowerAll(lit);
    }
  }

  /** A literal spelled is there as it is, or with an odd character for one of its letters. */
  lemma {:induction false} SpelledHeld(s: Bytes, lit: Bytes, i: nat, j: nat, fold: bool)
    requires i <= |s| && Spells(s, lit, i, j, fold)
    ensures (j == i + |lit| && OccursAt(s, lit, i, true)) || (fold && HasKS(lit) && HasOdd(s))
    ensures i + |lit| <= j <= |s|
    decreases |lit|
  {
    hide HasOdd;
    if |lit| > 0 {
      assert lit == [lit[0]] + lit[1..];
      assert lit[0] in lit;
      if i < |s| && Same(s[i], lit[0], fold) && Spells(s, lit[1..], i + 1, j, fold) {
        SpelledHeld(s, lit[1..], i + 1, j, fold);
        OneMoreByte(s, lit, i, j, fold);
      } else if fold && Lower(lit[0]) == 107 && StandsAt(s, KELVIN, i) && Spells(s, lit[1..], i + 3, j, fold) {
        SpelledHeld(s, lit[1..], i + 3, j, fold);
        OddThere(s, i);
      } else {
        SpelledHeld(s, lit[1..], i + 2, j, fold);
        OddThere(s, i);
      }
    }
  }

  lemma OddThere(s: Bytes, i: nat)
    requires StandsAt(s, KELVIN, i) || StandsAt(s, LONG_S, i)
    ensures HasOdd(s)
  {
  }

  lemma OneMoreByte(s: Bytes, lit: Bytes, i: nat, j: nat, fold: bool)
    requires |lit| > 0 && i < |s| && Same(s[i], lit[0], fold)
    ensures OccursAt(s, lit[1..], i + 1, true) ==> OccursAt(s, lit, i, true)
    ensures HasKS(lit[1..]) ==> HasKS(lit)
  {
    if OccursAt(s, lit[1..], i + 1, true) {
      forall k | 0 <= k < |lit| ensures Same(s[i + k], lit[k], true) {
        if k > 0 { assert Same(s[i + 1 + (k - 1)], lit[1..][k - 1], true); }
      }
    }
  }

  lemma JoinRuns(s: Bytes, a: Bytes, b: Bytes, p: nat)
    requires OccursAt(s, a, p, true) && OccursAt(s, b, p + |a|, true)
    ensures OccursAt(s, a + b, p, true)
  {
    forall k | 0 <= k < |a + b| ensures Same(s[p + k], (a + b)[k], true) {
      if k >= |a| { assert Same(s[p + |a| + (k - |a|)], b[k - |a|], true); }
    }
  }

  lemma FirstRound(re: Re, n: nat, s: Bytes, i: nat, j: nat, nocase: bool) returns (m: nat)
    requires n > 0 && i <= j <= |s| && Repeats(re, n, s, i, j, nocase)
    ensures i <= m <= j && Accepts(re, s, i, m, nocase)
  {
    m :| i <= m <= j && Accepts(re, s, i, m, nocase) && Repeats(re, n - 1, s, m, j, nocase);
  }

  lemma LitHeld(s: Bytes, runes: Bytes, foldCase: bool, i: nat, j: nat, nocase: bool)
    requires i <= j <= |s| && Spells(s, runes, i, j, foldCase || nocase)
    ensures Held(s, if foldCase then LowerAll(runes) else runes, i, j, nocase || foldCase)
  {
    hide Spells, HasOdd, HasKS, OccursAt;
    SpelledHeld(s, runes, i, j, foldCase || nocase);
    if foldCase { LowerHeld(s, runes, i, j, nocase || foldCase); }
  }

  /** Every match contains the required literal up to ASCII case, unless case is folded
      where the literal comes from, the literal has a k or an s, and the text has one of
      the odd characters. */
  lemma {:induction false} RequiredIsRequired(re: Re, s: Bytes, i: nat, j: nat, nocase: bool)
    requires i <= j <= |s| && Accepts(re, s, i, j, nocase)
    ensures FoundHeld(s, Required(re), i, j, nocase)
    decreases re, 0
  {
    hide Held, Spells, OccursAt, InClass;
    match re {
      case Lit(runes, foldCase) => LitHeld(s, runes, foldCase, i, j, nocase);
      case Capture(sub) => RequiredIsRequired(sub, s, i, j, nocase);
      case Plus(sub) =>
        var n: nat :| n > 0 && Repeats(sub, n, s, i, j, nocase);
        var m := FirstRound(sub, n, s, i, j, nocase);
        RequiredIsRequired(sub, s, i, m, nocase);
        FoundWiden(s, Required(sub), i, m, i, j, nocase);
      case Concat(subs) =>
        NoneHeld(s, i, i, nocase);
        RunEmpty(s, i, nocase);
        ConcatIsRequired(subs, [], NONE, s, i, i, j, nocase);
      case _ => NoneHeld(s, i, j, nocase);
    }
  }

  /** The literal text ending at `i`, unless odd characters may be in it. */
  ghost predicate Runs(s: Bytes, run: Bytes, i0: nat, i: nat, nocase: bool) {
    || (i0 + |run| <= i && OccursAt(s, run, i - |run|, true))
    || (nocase && HasKS(run) && HasOdd(s))
  }

  lemma RunEmpty(s: Bytes, i: nat, nocase: bool)
    requires i <= |s|
    ensures Runs(s, [], i, i, nocase)
  {
  }

  lemma RunHeld(s: Bytes, run: Bytes, i0: nat, i: nat, nocase: bool)
    requires Runs(s, run, i0, i, nocase)
    ensures FoundHeld(s, Found(run, false), i0, i, nocase)
  {
    hide OccursAt, HasKS, HasOdd;
  }

  lemma RunLater(s: Bytes, i0: nat, i: nat, m: nat, nocase: bool)
    requires i0 <= i <= m <= |s|
    ensures Runs(s, [], i0, m, nocase)
  {
  }

  lemma KSOfParts(a: Bytes, b: Bytes)
    ensures HasKS(a + b) <==> HasKS(a) || HasKS(b)
  {
  }

  lemma RunGrows(s: Bytes, run: Bytes, runes: Bytes, i0: nat, i: nat, m: nat, nocase: bool)
    requires i <= m <= |s| && Runs(s, run, i0, i, nocase) && Spells(s, runes, i, m, nocase)
    ensures Runs(s, run + runes, i0, m, nocase)
  {
    hide HasOdd, HasKS, Spells;
    SpelledHeld(s, runes, i, m, nocase);
    KSOfParts(run, runes);
    if OccursAt(s, runes, i, true) && m == i + |runes| && i0 + |run| <= i && OccursAt(s, run, i - |run|, true) {
      JoinRuns(s, run, runes, i - |run|);
    }
  }

  /** The scan over a concatenation: `run` ends at `i`, `best` lies before it. */
  lemma {:induction false} ConcatIsRequired(subs: seq<Re>, run: Bytes, best: Found, s: Bytes, i0: nat, i: nat, j: nat, nocase: bool)
    requires i0 <= i <= j <= |s| && AcceptsAll(subs, s, i, j, nocase)
    requires Runs(s, run, i0, i, nocase) && FoundHeld(s, best, i0, i, nocase)
    ensures FoundHeld(s, RequiredOf(subs, run, best), i0, j, nocase)
    decreases subs, 0
  {
    hide FoundHeld, Runs, Spells, Longer;
    var ran := Found(run, false);
    RunHeld(s, run, i0, i, nocase);
    if |subs| == 0 {
      LongerHeld(s, ran, best, i0, i, nocase);
    } else {
      var m: nat :| i <= m <= j && Accepts(subs[0], s, i, m, nocase) && AcceptsAll(subs[1..], s, m, j, nocase);
      FoundWiden(s, best, i0, i, i0, m, nocase);
      if subs[0].Lit? && !subs[0].foldCase {
        RunGrows(s, run, subs[0].runes, i0, i, m, nocase);
        ConcatIsRequired(subs[1..], run + subs[0].runes, best, s, i0, m, j, nocase);
      } else {
        RequiredIsRequired(subs[0], s, i, m, nocase);
        FoundWiden(s, Required(subs[0]), i, m, i0, m, nocase);
        FoundWiden(s, ran, i0, i, i0, m, nocase);
        LongerHeld(s, ran, best, i0, m, nocase);
        LongerHeld(s, Required(subs[0]), Longer(ran, best), i0, m, nocase);
        RunLater(s, i0, i, m, nocase);
        ConcatIsRequired(subs[1..], [], Longer(Required(subs[0]), Longer(ran, best)), s, i0, m, j, nocase);
      }
    }
  }

  // ---- pruning ----

  /** The regexp library finds a match only where the pattern may match. */
  ghost predicate Implements(find: Bytes -> seq<Loc>, re: Re, nocase: bool) {
    forall c :: Ordered(c, find(c)) && (find(c) != [] ==> exists i: nat, j: nat :: i <= j <= |c| && Accepts(re, c, i, j, nocase))
  }

  /** Case folding can hide the required literal behind an odd character: it comes from a
      place where case is folded, and has a k or an s. */
  predicate CanHide(re: Re, nocase: bool) {
    (nocase || Required(re).folded) && HasKS(ReqLit(re))
  }

  lemma HeldHasTris(s: Bytes, lit: Bytes, i: nat, j: nat, folds: bool)
    requires Held(s, lit, i, j, folds)
    ensures Tris(Usable(lit)) <= Tris(s) || (folds && HasKS(lit) && HasOdd(s))
  {
    hide Tris, OccursAt, HasKS, HasOdd;
    if p: nat :| i <= p && p + |lit| <= j && OccursAt(s, lit, p, true) {
      OccurrenceHasTris(s, lit, p, true);
      NoTris();
    }
  }

  lemma NoTris()
    ensures Tris([]) == {}
  {
  }

  /** A text with a match keeps its trigrams through pruning, unless case folding can hide
      the required literal and the text has one of the odd characters. */
  lemma MatchHasTris(re: Re, s: Bytes, i: nat, j: nat, nocase: bool)
    requires i <= j <= |s| && Accepts(re, s, i, j, nocase)
    ensures Tris(Usable(ReqLit(re))) <= Tris(s) || (CanHide(re, nocase) && HasOdd(s))
  {
    hide Tris, Accepts, Required, Held, HasKS, HasOdd, Usable;
    RequiredIsRequired(re, s, i, j, nocase);
    HeldHasTris(s, ReqLit(re), i, j, nocase || Required(re).folded);
  }

  /** Pruning a regexp query by its extracted literal loses nothing, unless case folding
      can hide that literal. */
  lemma RegexpIsSound(q: Query, re: Re, nocase: bool)
    requires q.plain == [] && Implements(q.re, re, nocase) && q.literal == Usable(ReqLit(re))
    requires !CanHide(re, nocase)
    ensures Sound(q)
  {
    forall c | Locs(q, c) != [] ensures |q.literal| >= 3 ==> Tris(q.literal) <= Tris(c) {
      hide Tris, Accepts, CanHide, HasOdd;
      assert Ordered(c, q.re(c));
      var i: nat, j: nat :| i <= j <= |c| && Accepts(re, c, i, j, nocase);
      MatchHasTris(re, c, i, j, nocase);
    }
    assert forall c :: Ordered(c, q.re(c));
  }
}
