/** Where pruning by the required literal does lose files. */
module Hidden {
  // Two characters outside ASCII match k and s when case is folded. A pattern that may be
  // spelled with them matches a text without the letters, which lacks the trigrams.

  import opened Prelude
  import opened Bytes
  import opened Literal
  import opened Lines
  import opened MemIndex
  import opened Query

  // ---- odd spellings ----

  /** `lit` with the odd characters for its letters. */
  function Oddly(lit: Bytes): Bytes {
    if |lit| == 0 then []
    else (if Lower(lit[0]) == 107 then KELVIN else if Lower(lit[0]) == 115 then LONG_S else [lit[0]]) + Oddly(lit[1..])
  }

  lemma {:induction false} OddlySpells(a: Bytes, lit: Bytes)
    ensures Spells(a + Oddly(lit), lit, |a|, |a| + |Oddly(lit)|, true)
    decreases |lit|
  {
    if |lit| > 0 {
      var o := if Lower(lit[0]) == 107 then KELVIN else if Lower(lit[0]) == 115 then LONG_S else [lit[0]];
      var s := a + Oddly(lit);
      assert s == a + o + Oddly(lit[1..]);
      assert s[|a|..|a| + |o|] == o;
      OddlySpells(a + o, lit[1..]);
    }
  }

  lemma {:induction false} OddlyHasNone(lit: Bytes)
    ensures forall k :: 0 <= k < |Oddly(lit)| ==> !IsKS(Oddly(lit)[k])
  {
    if |lit| > 0 { OddlyHasNone(lit[1..]); }
  }

  lemma KeyBytes(s: Bytes, i: nat, t: Bytes, k: nat)
    requires i + 3 <= |s| && k + 3 <= |t| && TriKey(s, i) == TriKey(t, k)
    ensures Lower(s[i]) == Lower(t[k]) && Lower(s[i + 1]) == Lower(t[k + 1]) && Lower(s[i + 2]) == Lower(t[k + 2])
  {
  }

  lemma KeysDiffer(s: Bytes, i: nat, t: Bytes, k: nat)
    requires i + 3 <= |s| && k + 3 <= |t| && (IsKS(s[i]) || IsKS(s[i + 1]) || IsKS(s[i + 2]))
    requires !IsKS(t[k]) && !IsKS(t[k + 1]) && !IsKS(t[k + 2])
    ensures TriKey(s, i) != TriKey(t, k)
  {
    hide TriKey, Lower;
    if TriKey(s, i) == TriKey(t, k) { KeyBytes(s, i, t, k); }
  }

  /** A text without k and s lacks a trigram of a literal that has one of them. */
  lemma WithoutKSLoses(lit: Bytes, s: Bytes)
    requires |lit| >= 3 && HasKS(lit) && !HasKS(s)
    ensures !(Tris(Usable(lit)) <= Tris(s))
  {
    var b :| b in lit && IsKS(b);
    var x :| 0 <= x < |lit| && lit[x] == b;
    var i := if x + 3 <= |lit| then x else |lit| - 3;
    var low := LowerAll(lit);
    forall k: nat | k + 3 <= |s| ensures TriKey(s, k) != TriKey(low, i) {
      assert s[k] in s && s[k + 1] in s && s[k + 2] in s;
      KeysDiffer(low, i, s, k);
    }
    assert HasTri(low, TriKey(low, i));
    assert TriKey(low, i) in Tris(low) && TriKey(low, i) !in Tris(s);
  }

  lemma LowerTwice(lit: Bytes)
    ensures Usable(LowerAll(lit)) == Usable(lit) && (HasKS(LowerAll(lit)) <==> HasKS(lit))
  {
    var low := LowerAll(lit);
    assert LowerAll(low) == low;
    if b :| b in lit && IsKS(b) {
      var k :| 0 <= k < |lit| && lit[k] == b;
      assert low[k] in low;
    }
    if b :| b in low && IsKS(b) {
      var k :| 0 <= k < |low| && low[k] == b;
      assert lit[k] in lit;
    }
  }

  lemma {:induction false} PlainSpells(s: Bytes, lit: Bytes, i: nat)
    requires StandsAt(s, lit, i)
    ensures Spells(s, lit, i, i + |lit|, false)
    decreases |lit|
  {
    if |lit| > 0 {
      assert s[i..i + |lit|][0] == lit[0];
      assert s[i + 1..i + 1 + |lit[1..]|] == s[i..i + |lit|][1..];
      PlainSpells(s, lit[1..], i + 1);
    }
  }

  /** What is spelled stays so when more text follows. */
  lemma {:induction false} SpellsOn(s: Bytes, b: Bytes, lit: Bytes, i: nat, j: nat, fold: bool)
    requires Spells(s, lit, i, j, fold)
    ensures Spells(s + b, lit, i, j, fold)
    decreases |lit|
  {
    if |lit| > 0 {
      StandsOn(s, b, KELVIN, i);
      StandsOn(s, b, LONG_S, i);
      if i < |s| && Same(s[i], lit[0], fold) && Spells(s, lit[1..], i + 1, j, fold) {
        SpellsOn(s, b, lit[1..], i + 1, j, fold);
      } else if fold && Lower(lit[0]) == 107 && StandsAt(s, KELVIN, i) && Spells(s, lit[1..], i + 3, j, fold) {
        SpellsOn(s, b, lit[1..], i + 3, j, fold);
      } else {
        SpellsOn(s, b, lit[1..], i + 2, j, fold);
      }
    }
  }

  lemma StandsOn(s: Bytes, b: Bytes, c: Bytes, i: nat)
    ensures StandsAt(s, c, i) ==> StandsAt(s + b, c, i)
  {
    if StandsAt(s, c, i) { assert (s + b)[i..i + |c|] == s[i..i + |c|]; }
  }

  lemma {:induction false} OddlyPlain(lit: Bytes)
    ensures !HasKS(lit) ==> Oddly(lit) == lit
  {
    if |lit| > 0 {
      OddlyPlain(lit[1..]);
      if !HasKS(lit) {
        assert lit[0] in lit;
        assert forall b :: b in lit[1..] ==> b in lit;
        assert lit == [lit[0]] + lit[1..];
      }
    }
  }

  // ---- patterns that can be spelled so ----

  /** A character as UTF-8 has it: one byte in ASCII, or two to four outside. */
  predicate Proper(c: Bytes) {
    (|c| == 1 && c[0] < 128) || (2 <= |c| <= 4 && forall b :: b in c ==> b >= 128)
  }

  /** No assertion looks at what is around a match, and where the pattern has a k or an s,
      case is folded. With (?i) on the whole, the second is so everywhere. */
  ghost predicate Free(re: Re, nocase: bool)
    decreases re
  {
    match re
    case Lit(runes, foldCase) => foldCase || nocase || !HasKS(runes)
    case Class(chars) =>
      && (forall c :: c in chars ==> Proper(c))
      && (chars != {} && !nocase ==> exists c :: c in chars && !HasKS(c))
    case At(_) => false
    case Capture(sub) => Free(sub, nocase)
    case Star(sub) => Free(sub, nocase)
    case Plus(sub) => Free(sub, nocase)
    case Quest(sub) => Free(sub, nocase)
    case Concat(subs) => forall k :: 0 <= k < |subs| ==> Free(subs[k], nocase)
    case Alternate(subs) => forall k :: 0 <= k < |subs| ==> Free(subs[k], nocase)
    case _ => true
  }

  /** The pattern matches something. */
  ghost predicate Able(re: Re)
    decreases re
  {
    match re
    case NoMatch => false
    case Class(chars) => chars != {}
    case Capture(sub) => Able(sub)
    case Plus(sub) => Able(sub)
    case Concat(subs) => forall k :: 0 <= k < |subs| ==> Able(subs[k])
    case Alternate(subs) => exists k :: 0 <= k < |subs| && Able(subs[k])
    case _ => true
  }

  lemma {:induction false} AcceptsIsAble(re: Re, s: Bytes, i: nat, j: nat, nocase: bool)
    requires i <= j <= |s| && Accepts(re, s, i, j, nocase)
    ensures Able(re)
    decreases re, 0
  {
    hide Spells, Folded;
    match re {
      case Capture(sub) => AcceptsIsAble(sub, s, i, j, nocase);
      case Plus(sub) =>
        var n: nat :| n > 0 && Repeats(sub, n, s, i, j, nocase);
        var m := FirstRound(sub, n, s, i, j, nocase);
        AcceptsIsAble(sub, s, i, m, nocase);
      case Concat(subs) => AllAreAble(subs, s, i, j, nocase);
      case Alternate(subs) =>
        var k :| 0 <= k < |subs| && Accepts(subs[k], s, i, j, nocase);
        AcceptsIsAble(subs[k], s, i, j, nocase);
      case _ =>
    }
  }

  lemma {:induction false} AllAreAble(subs: seq<Re>, s: Bytes, i: nat, j: nat, nocase: bool)
    requires i <= j <= |s| && AcceptsAll(subs, s, i, j, nocase)
    ensures forall k :: 0 <= k < |subs| ==> Able(subs[k])
    decreases subs, 0
  {
    hide Accepts, Able;
    if |subs| > 0 {
      var m: nat :| i <= m <= j && Accepts(subs[0], s, i, m, nocase) && AcceptsAll(subs[1..], s, m, j, nocase);
      AcceptsIsAble(subs[0], s, i, m, nocase);
      AllAreAble(subs[1..], s, m, j, nocase);
      forall k | 0 <= k < |subs| ensures Able(subs[k]) { if k > 0 { assert subs[k] == subs[1..][k - 1]; } }
    }
  }

  // ---- a text without k and s ----

  /** The text is matched wherever it stands, and has no k and no s. */
  ghost predicate Spelled(re: Re, w: Bytes, nocase: bool) {
    !HasKS(w) && forall a: Bytes, b: Bytes :: AcceptedBetween(re, a, w, b, nocase)
  }

  ghost predicate AcceptedBetween(re: Re, a: Bytes, w: Bytes, b: Bytes, nocase: bool) {
    Accepts(re, a + w + b, |a|, |a| + |w|, nocase)
  }

  ghost predicate AllBetween(subs: seq<Re>, a: Bytes, w: Bytes, b: Bytes, nocase: bool) {
    AcceptsAll(subs, a + w + b, |a|, |a| + |w|, nocase)
  }

  lemma NoBytes()
    ensures !HasKS([])
  {
  }

  lemma LitSpelled(runes: Bytes, foldCase: bool, nocase: bool)
    requires foldCase || nocase || !HasKS(runes)
    ensures Spelled(Lit(runes, foldCase), Oddly(runes), nocase)
  {
    hide HasKS, Spells;
    var w := Oddly(runes);
    OddlyHasNone(runes);
    HasNone(w);
    OddlyPlain(runes);
    forall a: Bytes, b: Bytes ensures AcceptedBetween(Lit(runes, foldCase), a, w, b, nocase) {
      if foldCase || nocase {
        OddlySpells(a, runes);
        SpellsOn(a + w, b, runes, |a|, |a| + |w|, true);
      } else {
        assert (a + w + b)[|a|..|a| + |w|] == w;
        PlainSpells(a + w + b, runes, |a|);
      }
    }
  }

  lemma HasNone(w: Bytes)
    requires forall k :: 0 <= k < |w| ==> !IsKS(w[k])
    ensures !HasKS(w)
  {
  }

  lemma ClassSpelled(chars: set<Bytes>, nocase: bool) returns (w: Bytes)
    requires chars != {} && Free(Class(chars), nocase)
    ensures Spelled(Class(chars), w, nocase)
  {
    hide HasKS, Folded, Oddly;
    var c :| c in chars && (nocase || !HasKS(c));
    w := Oddly(c);
    OddlyHasNone(c);
    HasNone(w);
    OddlyPlain(c);
    OddChar(c);
    forall a: Bytes, b: Bytes ensures AcceptedBetween(Class(chars), a, w, b, nocase) {
      assert (a + w + b)[|a|..|a| + |w|] == w;
    }
  }

  lemma OddChar(c: Bytes)
    requires Proper(c)
    ensures 1 <= |Oddly(c)| <= 4 && (Oddly(c) == c || Folded(c, Oddly(c)))
  {
    if |c| == 1 {
      assert c[1..] == [] && Oddly(c[1..]) == [];
    } else {
      OddlyPlain(c);
    }
  }

  lemma AnySpelled(nocase: bool)
    ensures Spelled(AnyChar, [97], nocase) && Spelled(AnyCharNotNL, [97], nocase)
  {
    forall a: Bytes, b: Bytes ensures AcceptedBetween(AnyChar, a, [97], b, nocase) && AcceptedBetween(AnyCharNotNL, a, [97], b, nocase) {
      assert (a + [97] + b)[|a|] == 97;
    }
  }

  /** Patterns that match the empty text. */
  lemma EmptySpelled(re: Re, nocase: bool)
    requires re.Empty? || re.Star? || re.Quest?
    ensures Spelled(re, [], nocase)
  {
    forall a: Bytes, b: Bytes ensures AcceptedBetween(re, a, [], b, nocase) {
      if re.Star? { assert Repeats(re.sub, 0, a + [] + b, |a|, |a|, nocase); }
    }
  }

  lemma WrapSpelled(re: Re, w: Bytes, nocase: bool)
    requires (re.Capture? || re.Plus?) && Spelled(re.sub, w, nocase)
    ensures Spelled(re, w, nocase)
  {
    hide HasKS;
    forall a: Bytes, b: Bytes ensures AcceptedBetween(re, a, w, b, nocase) {
      assert AcceptedBetween(re.sub, a, w, b, nocase);
      if re.Plus? { OneRound(re.sub, a + w + b, |a|, |a| + |w|, nocase); }
    }
  }

  lemma OneRound(re: Re, s: Bytes, i: nat, j: nat, nocase: bool)
    requires i <= j <= |s| && Accepts(re, s, i, j, nocase)
    ensures Repeats(re, 1, s, i, j, nocase)
  {
    hide Accepts;
    assert Repeats(re, 0, s, j, j, nocase);
  }

  lemma BranchSpelled(subs: seq<Re>, k: nat, w: Bytes, nocase: bool)
    requires k < |subs| && Spelled(subs[k], w, nocase)
    ensures Spelled(Alternate(subs), w, nocase)
  {
    hide HasKS;
    forall a: Bytes, b: Bytes ensures AcceptedBetween(Alternate(subs), a, w, b, nocase) {
      assert AcceptedBetween(subs[k], a, w, b, nocase);
    }
  }

  /** Every such pattern that matches something matches a text without k and s. */
  lemma {:induction false} Spelling(re: Re, nocase: bool) returns (w: Bytes)
    requires Free(re, nocase) && Able(re)
    ensures Spelled(re, w, nocase)
    decreases re, 0
  {
    hide Spelled, HasKS, Oddly, Proper;
    match re {
      case Lit(runes, foldCase) =>
        w := Oddly(runes);
        LitSpelled(runes, foldCase, nocase);
      case Class(chars) => w := ClassSpelled(chars, nocase);
      case AnyChar => w := [97]; AnySpelled(nocase);
      case AnyCharNotNL => w := [97]; AnySpelled(nocase);
      case Capture(sub) => w := Spelling(sub, nocase); WrapSpelled(re, w, nocase);
      case Plus(sub) => w := Spelling(sub, nocase); WrapSpelled(re, w, nocase);
      case Concat(subs) => w := SpellingAll(subs, nocase);
        ConcatSpelled(subs, w, nocase);
      case Alternate(subs) =>
        var k :| 0 <= k < |subs| && Able(subs[k]);
        w := Spelling(subs[k], nocase);
        BranchSpelled(subs, k, w, nocase);
      case _ => w := []; EmptySpelled(re, nocase);
    }
  }

  lemma ConcatSpelled(subs: seq<Re>, w: Bytes, nocase: bool)
    requires !HasKS(w) && forall a: Bytes, b: Bytes :: AllBetween(subs, a, w, b, nocase)
    ensures Spelled(Concat(subs), w, nocase)
  {
    hide HasKS;
    forall a: Bytes, b: Bytes ensures AcceptedBetween(Concat(subs), a, w, b, nocase) { assert AllBetween(subs, a, w, b, nocase); }
  }

  lemma {:induction false} SpellingAll(subs: seq<Re>, nocase: bool) returns (w: Bytes)
    requires forall k :: 0 <= k < |subs| ==> Free(subs[k], nocase) && Able(subs[k])
    ensures !HasKS(w) && forall a: Bytes, b: Bytes :: AllBetween(subs, a, w, b, nocase)
    decreases subs, 0
  {
    hide HasKS, Accepts, Free, Able, Spelled;
    if |subs| == 0 {
      w := [];
      NoBytes();
    } else {
      var head := Spelling(subs[0], nocase);
      assert forall k :: 0 <= k < |subs[1..]| ==> subs[1..][k] == subs[k + 1];
      var rest := SpellingAll(subs[1..], nocase);
      w := head + rest;
      KSOfParts(head, rest);
      SpelledPlain(subs[0], head, nocase);
      forall a: Bytes, b: Bytes ensures AllBetween(subs, a, w, b, nocase) { JoinBetween(subs, a, head, rest, b, nocase); }
    }
  }

  lemma SpelledPlain(re: Re, w: Bytes, nocase: bool)
    requires Spelled(re, w, nocase)
    ensures !HasKS(w)
  {
    hide HasKS;
  }

  lemma JoinBetween(subs: seq<Re>, a: Bytes, head: Bytes, rest: Bytes, b: Bytes, nocase: bool)
    requires |subs| > 0 && Spelled(subs[0], head, nocase)
    requires forall a: Bytes, b: Bytes :: AllBetween(subs[1..], a, rest, b, nocase)
    ensures AllBetween(subs, a, head + rest, b, nocase)
  {
    hide HasKS, Accepts;
    var s := a + (head + rest) + b;
    assert s == a + head + (rest + b) && s == (a + head) + rest + b;
    assert AcceptedBetween(subs[0], a, head, rest + b, nocase);
    assert AllBetween(subs[1..], a + head, rest, b, nocase);
    assert |a| <= |a + head| <= |a| + |head + rest|;
  }

  // ---- exactly where pruning loses ----

  /** Pruning loses a text with a match in it. */
  ghost predicate Loses(re: Re, nocase: bool) {
    exists s: Bytes, i: nat, j: nat :: i <= j <= |s| && Accepts(re, s, i, j, nocase) && !(Tris(Usable(ReqLit(re))) <= Tris(s))
  }

  /** Some text is matched. */
  ghost predicate Matches(re: Re, nocase: bool) {
    exists s: Bytes, i: nat, j: nat :: i <= j <= |s| && Accepts(re, s, i, j, nocase)
  }

  /** A pattern without assertions that folds case wherever it has a k or an s loses a text
      by its required literal exactly if that literal is long enough to be used and has
      one of the two. */
  lemma LosesExactly(re: Re, nocase: bool)
    requires Free(re, nocase) && Matches(re, nocase)
    ensures Loses(re, nocase) <==> |ReqLit(re)| >= 3 && HasKS(ReqLit(re))
  {
    hide Accepts, Tris, HasKS, HasOdd, Usable, Required, Free, Able, Spelled;
    var s0: Bytes, i: nat, j: nat :| i <= j <= |s0| && Accepts(re, s0, i, j, nocase);
    AcceptsIsAble(re, s0, i, j, nocase);
    var w := Spelling(re, nocase);
    SpelledWhole(re, w, nocase);
    if |ReqLit(re)| >= 3 && HasKS(ReqLit(re)) {
      WithoutKSLoses(ReqLit(re), w);
    }
    forall s: Bytes, i: nat, j: nat | i <= j <= |s| && Accepts(re, s, i, j, nocase)
      ensures Tris(Usable(ReqLit(re))) <= Tris(s) || (|ReqLit(re)| >= 3 && HasKS(ReqLit(re)))
    {
      MatchHasTris(re, s, i, j, nocase);
      TooShort(ReqLit(re));
    }
  }

  lemma TooShort(lit: Bytes)
    ensures |lit| < 3 ==> Tris(Usable(lit)) == {}
  {
    NoTris();
  }

  lemma SpelledWhole(re: Re, w: Bytes, nocase: bool)
    requires Spelled(re, w, nocase)
    ensures Accepts(re, w, 0, |w|, nocase) && !HasKS(w)
  {
    hide HasKS, Accepts;
    assert AcceptedBetween(re, [], w, [], nocase);
    assert [] + w + [] == w;
  }

  /** With (?i) on the whole, a pattern is held back only by assertions, and by classes of
      what are no characters. */
  ghost predicate Plain(re: Re)
    decreases re
  {
    match re
    case Class(chars) => forall c :: c in chars ==> Proper(c)
    case At(_) => false
    case Capture(sub) => Plain(sub)
    case Star(sub) => Plain(sub)
    case Plus(sub) => Plain(sub)
    case Quest(sub) => Plain(sub)
    case Concat(subs) => forall k :: 0 <= k < |subs| ==> Plain(subs[k])
    case Alternate(subs) => forall k :: 0 <= k < |subs| ==> Plain(subs[k])
    case _ => true
  }

  lemma {:induction false} PlainIsFree(re: Re)
    requires Plain(re)
    ensures Free(re, true)
    decreases re
  {
    hide Proper, HasKS;
    match re {
      case Capture(sub) => PlainIsFree(sub);
      case Star(sub) => PlainIsFree(sub);
      case Plus(sub) => PlainIsFree(sub);
      case Quest(sub) => PlainIsFree(sub);
      case Concat(subs) => forall k | 0 <= k < |subs| ensures Free(subs[k], true) { PlainIsFree(subs[k]); }
      case Alternate(subs) => forall k | 0 <= k < |subs| ensures Free(subs[k], true) { PlainIsFree(subs[k]); }
      case _ =>
    }
  }

  /** Searching without regard to case, pruning by the required literal loses a text
      exactly if the literal has a k or an s. */
  lemma NoCaseLoses(re: Re)
    requires Plain(re) && Matches(re, true) && |ReqLit(re)| >= 3
    ensures Loses(re, true) <==> HasKS(ReqLit(re))
  {
    hide Plain, Matches, Loses, HasKS, Required;
    PlainIsFree(re);
    LosesExactly(re, true);
  }

  /** The regexp library finds a match exactly where the pattern matches. */
  ghost predicate FindsAll(find: Bytes -> seq<Loc>, re: Re, nocase: bool) {
    forall c :: Ordered(c, find(c)) && (find(c) != [] <==> exists i: nat, j: nat :: i <= j <= |c| && Accepts(re, c, i, j, nocase))
  }

  /** So a regexp query is pruned soundly exactly if its literal is too short to be used,
      or has neither. */
  lemma SoundExactly(q: MemIndex.Query, re: Re, nocase: bool)
    requires q.plain == [] && FindsAll(q.re, re, nocase) && q.literal == Usable(ReqLit(re))
    requires Free(re, nocase) && Matches(re, nocase)
    ensures Sound(q) <==> |ReqLit(re)| < 3 || !HasKS(ReqLit(re))
  {
    hide Tris, Accepts, Required, HasKS, Free, Matches;
    LosesExactly(re, nocase);
    assert forall c :: Ordered(c, q.re(c));
    if Loses(re, nocase) {
      var s: Bytes, i: nat, j: nat :| i <= j <= |s| && Accepts(re, s, i, j, nocase) && !(Tris(Usable(ReqLit(re))) <= Tris(s));
      assert Locs(q, s) != [];
    }
    forall c | Locs(q, c) != [] ensures Tris(q.literal) <= Tris(c) || Loses(re, nocase) {
      assert Ordered(c, q.re(c));
      var i: nat, j: nat :| i <= j <= |c| && Accepts(re, c, i, j, nocase);
    }
  }

  /** Pruning a case-folded literal loses a text with a match exactly if it has a k or an s. */
  lemma FoldedLiteralLoses(lit: Bytes)
    requires |lit| >= 3
    ensures Loses(Lit(lit, true), false) <==> HasKS(lit)
  {
    hide HasKS, Loses;
    var w := Oddly(lit);
    LitSpelled(lit, true, false);
    SpelledWhole(Lit(lit, true), w, false);
    LowerTwice(lit);
    LosesExactly(Lit(lit, true), false);
  }

  /** (?i)kit matches a text of a Kelvin sign and the letters it, and does not prune to it. */
  lemma KelvinExample() returns (re: Re, s: Bytes)
    ensures re == Lit([107, 105, 116], true) && s == KELVIN + [105, 116]
    ensures Accepts(re, s, 0, |s|, false) && !(Tris(Usable(ReqLit(re))) <= Tris(s))
  {
    hide Tris, Usable;
    re, s := Lit([107, 105, 116], true), KELVIN + [105, 116];
    var lit: Bytes := [107, 105, 116];
    assert lit[1..] == [105, 116] && lit[1..][1..] == [116] && lit[1..][1..][1..] == [];
    assert Oddly(lit) == s;
    OddlySpells([], lit);
    assert [] + s == s;
    assert lit[0] in lit;
    OddlyHasNone(lit);
    HasNone(s);
    WithoutKSLoses(lit, s);
    LowerTwice(lit);
  }

  // ---- with assertions it need not ----

  const KIT: Bytes := [107, 105, 116]

  function AnchoredKit(): Re { Concat([At(BeginText), At(WordBoundary), Lit(KIT, true)]) }

  /** What a list of patterns matches, its first does and then the rest. */
  lemma Unfold(subs: seq<Re>, s: Bytes, i: nat, j: nat, nocase: bool) returns (m: nat)
    requires |subs| > 0 && i <= j <= |s| && AcceptsAll(subs, s, i, j, nocase)
    ensures i <= m <= j && Accepts(subs[0], s, i, m, nocase) && AcceptsAll(subs[1..], s, m, j, nocase)
  {
    m :| i <= m <= j && Accepts(subs[0], s, i, m, nocase) && AcceptsAll(subs[1..], s, m, j, nocase);
  }

  lemma KitLiteral()
    ensures Required(AnchoredKit()) == Found(KIT, true) && LowerAll(KIT) == KIT
  {
    hide Longer, RequiredOf;
    var b, w, l := At(BeginText), At(WordBoundary), Lit(KIT, true);
    assert LowerAll(KIT) == KIT;
    assert [b, w, l][1..] == [w, l] && [w, l][1..] == [l] && [l][1..] == [];
    var none: seq<Re> := [];
    StepOver([b, w, l], NONE);
    StepOver([w, l], NONE);
    StepOver([l], NONE);
    EndOf(Found(KIT, true));
  }

  lemma StepOver(subs: seq<Re>, best: Found)
    requires |subs| > 0 && (subs[0].At? || (subs[0].Lit? && subs[0].foldCase)) && |best.lit| == 0
    ensures RequiredOf(subs, [], best) == RequiredOf(subs[1..], [], if subs[0].Lit? && |subs[0].runes| > 0 then Required(subs[0]) else best)
  {
  }

  lemma EndOf(f: Found)
    requires |f.lit| > 0
    ensures RequiredOf([], [], f) == f
  {
  }

  lemma FirstByte(s: Bytes, c: Bytes)
    ensures |c| > 0 && StandsAt(s, c, 0) ==> s[0] == c[0]
  {
    if |c| > 0 && StandsAt(s, c, 0) { assert s[0..|c|][0] == c[0]; }
  }

  /** A word character at the start is a k in either case, and the rest has no k or s. */
  lemma KitThere(s: Bytes, j: nat)
    requires |s| > 0 && IsWord(s[0]) && Spells(s, KIT, 0, j, true)
    ensures OccursAt(s, KIT, 0, true)
  {
    hide HasOdd, StandsAt;
    assert KIT[1..] == [105, 116];
    FirstByte(s, KELVIN);
    SpelledHeld(s, KIT[1..], 1, j, true);
    OneMoreByte(s, KIT, 0, j, true);
  }

  lemma KitBegins(s: Bytes, i: nat, j: nat)
    requires i <= j <= |s| && Accepts(AnchoredKit(), s, i, j, false)
    ensures |s| > 0 && IsWord(s[0]) && Spells(s, KIT, 0, j, true)
  {
    hide Spells, IsWord;
    var b, w, l := At(BeginText), At(WordBoundary), Lit(KIT, true);
    assert [b, w, l][1..] == [w, l] && [w, l][1..] == [l] && [l][1..] == [];
    var m := Unfold([b, w, l], s, i, j, false);
    var n := Unfold([w, l], s, m, j, false);
    var e := Unfold([l], s, n, j, false);
  }

  lemma KitKept(s: Bytes, i: nat, j: nat)
    requires i <= j <= |s|
    ensures Accepts(AnchoredKit(), s, i, j, false) ==> Tris(Usable(KIT)) <= Tris(s)
  {
    hide Tris, Spells, OccursAt, Usable, Accepts;
    if Accepts(AnchoredKit(), s, i, j, false) {
      KitBegins(s, i, j);
      KitThere(s, j);
      OccurrenceHasTris(s, KIT, 0, true);
      KitUsable();
    }
  }

  lemma KitUsable()
    ensures Usable(KIT) == LowerAll(KIT) && HasKS(KIT)
  {
    assert KIT[0] in KIT;
  }

  lemma KitMatches()
    ensures Accepts(AnchoredKit(), KIT, 0, 3, false)
  {
    var b, w, l := At(BeginText), At(WordBoundary), Lit(KIT, true);
    assert [b, w, l][1..] == [w, l] && [w, l][1..] == [l] && [l][1..] == [];
    assert KIT[1..] == [105, 116] && KIT[1..][1..] == [116] && KIT[1..][1..][1..] == [];
    assert Accepts(l, KIT, 0, 3, false);
    assert AcceptsAll([], KIT, 3, 3, false);
    assert AcceptsAll([l], KIT, 0, 3, false);
    assert Accepts(w, KIT, 0, 0, false) && Accepts(b, KIT, 0, 0, false);
    assert AcceptsAll([w, l], KIT, 0, 3, false);
    assert AcceptsAll([b, w, l], KIT, 0, 3, false);
  }

  /** \A\b(?i:kit) has to begin with a letter, which the odd character for k is not: it
      loses nothing, although its literal has a k. */
  lemma AnchoredKeeps() returns (re: Re)
    ensures re == Concat([At(BeginText), At(WordBoundary), Lit([107, 105, 116], true)])
    ensures CanHide(re, false) && Matches(re, false) && !Loses(re, false)
  {
    hide Tris, Accepts, HasKS, Usable, Required;
    re := AnchoredKit();
    KitLiteral();
    KitUsable();
    KitMatches();
    forall s: Bytes, i: nat, j: nat | i <= j <= |s| ensures Accepts(re, s, i, j, false) ==> Tris(Usable(KIT)) <= Tris(s) {
      KitKept(s, i, j);
    }
  }
}
