/** Exclusion rules (internal/ignore/ignore.go, gitignore.go): patterns compiled to
    regular expressions, their meaning on paths, and why an ignored directory may be
    skipped whole. */
module Ignore {
  /** A path relative to the root, as the regular expressions see it: characters. */
  type Text = seq<nat>

  const SLASH: nat := 47
  const NEWLINE: nat := 10

  /** One piece of a compiled pattern: any directories, anything, anything within a name,
      one character of a name, or that character. */
  datatype Token = AnyDirs | AnyPath | AnyName | AnyChar | Char(c: nat)

  datatype Rule = Rule(anchored: bool, dirOnly: bool, tokens: seq<Token>)

  // ---- compiling ----

  /** The first token of a pattern, and how many of its characters it takes. */
  function Head(pat: Text): (r: (Token, nat))
    requires |pat| > 0
    ensures 0 < r.1 <= |pat|
  {
    if [42, 42, 47] <= pat then (AnyDirs, 3)
    else if [42, 42] <= pat then (AnyPath, 2)
    else if pat[0] == 42 then (AnyName, 1)
    else if pat[0] == 63 then (AnyChar, 1)
    else (Char(pat[0]), 1)
  }

  function Tokens(pat: Text): seq<Token> {
    if |pat| == 0 then [] else [Head(pat).0] + Tokens(pat[Head(pat).1..])
  }

  function TrimEnd(pat: Text): Text {
    if |pat| > 0 && pat[|pat| - 1] == SLASH then pat[..|pat| - 1] else pat
  }

  function TrimStart(pat: Text): Text {
    if |pat| > 0 && pat[0] == SLASH then pat[1..] else pat
  }

  /** Translates one pattern. Bytes of the pattern stand for the characters of the same
      number. */
  method Compile(line: Text) returns (r: Rule)
    ensures r.dirOnly == (TrimEnd(line) != line)
    ensures r.anchored == (SLASH in TrimEnd(line))
    ensures r.tokens == Tokens(TrimStart(TrimEnd(line)))
    ensures MeansItsWildcards(r, line)
  {
    hide MeansItsWildcards;
    var pat := line;
    var dirOnly := false;
    if |pat| > 0 && pat[|pat| - 1] == SLASH {
      dirOnly := true;
      pat := pat[..|pat| - 1];
    }
    var anchored := (|pat| > 0 && pat[0] == SLASH) || SLASH in pat;
    if |pat| > 0 && pat[0] == SLASH { pat := pat[1..]; }
    var tokens := Tokenize(pat);
    r := Rule(anchored, dirOnly, tokens);
    WildcardsMean(r, line);
  }

  method Tokenize(pat: Text) returns (tokens: seq<Token>)
    ensures tokens == Tokens(pat)
  {
    hide Head, Tokens;
    tokens := [];
    NoTokens();
    var i := 0;
    assert pat[0..] == pat && [] + Tokens(pat) == Tokens(pat);
    while i < |pat|
      invariant 0 <= i <= |pat| && tokens + Tokens(pat[i..]) == Tokens(pat)
    {
      NextToken(pat, i);
      var t, w := NextPiece(pat, i);
      tokens := tokens + [t];
      i := i + w;
    }
    assert pat[|pat|..] == [] && tokens + [] == tokens;
  }

  lemma NoTokens()
    ensures Tokens([]) == []
  {
  }

  lemma NextToken(pat: Text, i: nat)
    requires i < |pat|
    ensures Tokens(pat[i..]) == [Head(pat[i..]).0] + Tokens(pat[i + Head(pat[i..]).1..])
  {
    var w := Head(pat[i..]).1;
    assert pat[i..][w..] == pat[i + w..];
  }

  /** The switch over what the pattern goes on with. */
  method NextPiece(pat: Text, i: nat) returns (t: Token, w: nat)
    requires i < |pat|
    ensures (t, w) == Head(pat[i..])
  {
    var rest := pat[i..];
    if [42, 42, 47] <= rest { return AnyDirs, 3; }
    if [42, 42] <= rest { return AnyPath, 2; }
    if pat[i] == 42 { return AnyName, 1; }
    if pat[i] == 63 { return AnyChar, 1; }
    return Char(pat[i]), 1;
  }

  // ---- what the expressions match ----

  /** Characters `from` to `to` are what `.*` can match. */
  predicate OneLine(s: Text, from: nat, to: nat) {
    from <= to <= |s| && forall k :: from <= k < to ==> s[k] != NEWLINE
  }

  predicate NoSlash(s: Text, from: nat, to: nat) {
    from <= to <= |s| && forall k :: from <= k < to ==> s[k] != SLASH
  }

  /** One token matches from `i` to `j`. */
  predicate TokenSpans(t: Token, s: Text, i: nat, j: nat) {
    match t
    case AnyDirs => i == j <= |s| || (i < j <= |s| && OneLine(s, i, j - 1) && s[j - 1] == SLASH)
    case AnyPath => OneLine(s, i, j)
    case AnyName => NoSlash(s, i, j)
    case AnyChar => j == i + 1 <= |s| && s[i] != SLASH
    case Char(c) => j == i + 1 <= |s| && s[i] == c
  }

  /** The tokens match from `i` to `j`, one after the other. */
  predicate Spans(ts: seq<Token>, s: Text, i: nat, j: nat) {
    if |ts| == 0 then i == j <= |s|
    else exists k: nat | i <= k <= j :: TokenSpans(ts[0], s, i, k) && Spans(ts[1..], s, k, j)
  }

  /** Where a match may begin: at the front, or for patterns without a slash after any. */
  predicate MayStart(r: Rule, s: Text, i: nat) {
    i == 0 || (!r.anchored && StartsName(s, i))
  }

  predicate StartsName(s: Text, i: nat) {
    i == 0 || (i <= |s| && s[i - 1] == SLASH)
  }

  /** The expression matched against the whole path. */
  predicate Exact(r: Rule, s: Text) {
    exists i: nat | 0 <= i <= |s| :: MayStart(r, s, i) && Spans(r.tokens, s, i, |s|)
  }

  /** The one that finds the pattern with a slash after it. */
  predicate Prefix(r: Rule, s: Text) {
    exists i: nat, j: nat | 0 <= i <= |s| && 0 <= j < |s| :: MayStart(r, s, i) && Spans(r.tokens, s, i, j) && s[j] == SLASH
  }

  // ---- an expression looks no further than its match ----

  lemma TokenLocal(t: Token, s: Text, u: Text, i: nat, j: nat)
    requires j <= |s| && j <= |u| && s[..j] == u[..j]
    ensures TokenSpans(t, s, i, j) <==> TokenSpans(t, u, i, j)
  {
    assert forall k :: 0 <= k < j ==> s[k] == s[..j][k] == u[..j][k] == u[k];
  }

  lemma {:induction false} SpansLocal(ts: seq<Token>, s: Text, u: Text, i: nat, j: nat)
    requires j <= |s| && j <= |u| && s[..j] == u[..j] && Spans(ts, s, i, j)
    ensures Spans(ts, u, i, j)
  {
    hide TokenSpans;
    if |ts| > 0 {
      var k: nat :| i <= k <= j && TokenSpans(ts[0], s, i, k) && Spans(ts[1..], s, k, j);
      assert s[..k] == s[..j][..k] == u[..j][..k] == u[..k];
      TokenLocal(ts[0], s, u, i, k);
      SpansLocal(ts[1..], s, u, k, j);
    }
  }

  /** Paths strictly above `s`: what stands before one of its slashes. */
  predicate Ancestor(a: Text, s: Text) {
    |a| < |s| && a == s[..|a|] && s[|a|] == SLASH
  }

  /** The prefix expression matches a path exactly when the exact one matches a proper
      ancestor of it. */
  lemma PrefixIsAncestor(r: Rule, s: Text)
    ensures Prefix(r, s) <==> exists a :: Ancestor(a, s) && Exact(r, a)
  {
    hide Spans;
    if Prefix(r, s) {
      var i: nat, j: nat :| 0 <= i <= |s| && 0 <= j < |s| && MayStart(r, s, i) && Spans(r.tokens, s, i, j) && s[j] == SLASH;
      var a := s[..j];
      SpansBounds(r.tokens, s, i, j);
      SpansLocal(r.tokens, s, a, i, j);
      assert MayStart(r, a, i);
      assert Ancestor(a, s) && Exact(r, a);
    }
    if a :| Ancestor(a, s) && Exact(r, a) {
      var i: nat :| 0 <= i <= |a| && MayStart(r, a, i) && Spans(r.tokens, a, i, |a|);
      SpansBounds(r.tokens, a, i, |a|);
      SpansLocal(r.tokens, a, s, i, |a|);
      assert MayStart(r, s, i);
    }
  }

  lemma {:induction false} SpansBounds(ts: seq<Token>, s: Text, i: nat, j: nat)
    requires Spans(ts, s, i, j)
    ensures i <= j
  {
  }

  // ---- what a rule ignores ----

  predicate RuleIgnores(r: Rule, s: Text, isDir: bool) {
    Prefix(r, s) || (Exact(r, s) && (isDir || !r.dirOnly))
  }

  function Child(d: Text, name: Text): Text { d + [SLASH] + name }

  lemma ChildHasAncestor(d: Text, name: Text)
    ensures Ancestor(d, Child(d, name))
    ensures forall a :: Ancestor(a, d) ==> Ancestor(a, Child(d, name))
  {
    var s := Child(d, name);
    forall a | Ancestor(a, d) ensures Ancestor(a, s) {
      assert a == d[..|a|] == s[..|a|];
    }
  }

  /** What a rule ignores as a directory, it ignores with all that is below. */
  lemma RuleClosed(r: Rule, d: Text, name: Text, isDir: bool)
    requires RuleIgnores(r, d, true)
    ensures RuleIgnores(r, Child(d, name), isDir)
  {
    hide Prefix, Exact, Ancestor, Child;
    PrefixIsAncestor(r, d);
    PrefixIsAncestor(r, Child(d, name));
    ChildHasAncestor(d, name);
  }

  // ---- .git ----

  function DotGit(): Text { [46, 103, 105, 116] }

  predicate EndsWith(s: Text, t: Text) {
    |t| <= |s| && s[|s| - |t|..] == t
  }

  predicate HasAt(s: Text, t: Text, i: nat) {
    i + |t| <= |s| && s[i..i + |t|] == t
  }

  predicate Contains(s: Text, t: Text) {
    exists i | 0 <= i <= |s| :: HasAt(s, t, i)
  }

  predicate IsGit(s: Text) {
    s == DotGit() || DotGit() + [SLASH] <= s || Contains(s, [SLASH] + DotGit() + [SLASH]) || EndsWith(s, [SLASH] + DotGit())
  }

  lemma GitClosed(d: Text, name: Text)
    requires IsGit(d)
    ensures IsGit(Child(d, name))
  {
    var s := Child(d, name);
    var t := [SLASH] + DotGit() + [SLASH];
    assert s[..|d|] == d && s[|d|] == SLASH;
    if d == DotGit() {
      assert DotGit() + [SLASH] <= s;
    } else if DotGit() + [SLASH] <= d {
      assert DotGit() + [SLASH] <= s;
    } else if Contains(d, t) {
      var i :| 0 <= i <= |d| && HasAt(d, t, i);
      assert s[i..i + |t|] == d[i..i + |t|];
      assert HasAt(s, t, i);
    } else {
      var i := |d| - |[SLASH] + DotGit()|;
      assert s[i..i + |t|] == d[i..] + [SLASH] == t;
      assert HasAt(s, t, i);
    }
  }

  /** The text stands at `i` as a whole name of the path. */
  predicate NameStands(s: Text, name: Text, i: nat) {
    HasAt(s, name, i) && StartsName(s, i) && (i + |name| == |s| || s[i + |name|] == SLASH)
  }

  /** Of the four tests each sees the name in another place; together they see it anywhere. */
  lemma GitMeans(s: Text)
    ensures IsGit(s) <==> exists i: nat :: NameStands(s, DotGit(), i)
  {
    var g := DotGit();
    if IsGit(s) {
      if s == g { assert NameStands(s, g, 0); }
      else if g + [SLASH] <= s {
        assert s[0..4] == s[..5][..4] == g && s[4] == s[..5][4];
        assert NameStands(s, g, 0);
      } else if Contains(s, [SLASH] + g + [SLASH]) {
        var i: nat :| 0 <= i <= |s| && HasAt(s, [SLASH] + g + [SLASH], i);
        GitInside(s, i);
      } else {
        var i := |s| - 5;
        assert s[i + 1..] == s[i..][1..] == g && s[i] == s[i..][0];
        assert NameStands(s, g, i + 1);
      }
    }
    if i: nat :| NameStands(s, g, i) {
      assert s[i..i + 4] == g;
      if i == 0 {
        if |s| == 4 { assert s == s[0..4]; } else { assert s[..5] == s[0..4] + [SLASH]; }
      } else if i + 4 == |s| {
        assert s[i - 1..] == [SLASH] + s[i..i + 4];
      } else {
        assert s[i - 1..i + 5] == [SLASH] + s[i..i + 4] + [SLASH];
        assert HasAt(s, [SLASH] + g + [SLASH], i - 1);
      }
    }
  }

  lemma GitInside(s: Text, i: nat)
    requires HasAt(s, [SLASH] + DotGit() + [SLASH], i)
    ensures NameStands(s, DotGit(), i + 1)
  {
    var u := s[i..i + 6];
    assert s[i + 1..i + 5] == u[1..5] == DotGit();
    assert s[i] == u[0] && s[i + 5] == u[5];
  }

  // ---- a matcher ----

  predicate SomeIgnores(rules: seq<Rule>, s: Text, isDir: bool) {
    exists k | 0 <= k < |rules| :: RuleIgnores(rules[k], s, isDir)
  }

  predicate Ignored(rules: seq<Rule>, s: Text, isDir: bool) {
    IsGit(s) || SomeIgnores(rules, s, isDir)
  }

  /** The loop over the rules. */
  method CheckRules(rules: seq<Rule>, s: Text, isDir: bool) returns (ignored: bool)
    ensures ignored == SomeIgnores(rules, s, isDir)
  {
    hide Prefix, Exact;
    for k := 0 to |rules|
      invariant forall j :: 0 <= j < k ==> !RuleIgnores(rules[j], s, isDir)
    {
      if Prefix(rules[k], s) { return true; }
      if Exact(rules[k], s) && (isDir || !rules[k].dirOnly) { return true; }
    }
    return false;
  }

  method CheckIgnored(rules: seq<Rule>, s: Text, isDir: bool) returns (ignored: bool)
    ensures ignored == Ignored(rules, s, isDir)
  {
    hide IsGit, SomeIgnores;
    if IsGit(s) { return true; }
    ignored := CheckRules(rules, s, isDir);
  }

  lemma SomeClosed(rules: seq<Rule>, d: Text, name: Text, isDir: bool)
    requires SomeIgnores(rules, d, true)
    ensures SomeIgnores(rules, Child(d, name), isDir)
  {
    hide RuleIgnores, Child;
    var k :| 0 <= k < |rules| && RuleIgnores(rules[k], d, true);
    RuleClosed(rules[k], d, name, isDir);
  }

  lemma IgnoredClosed(rules: seq<Rule>, d: Text, name: Text, isDir: bool)
    requires Ignored(rules, d, true)
    ensures Ignored(rules, Child(d, name), isDir)
  {
    hide SomeIgnores, IsGit, Child;
    if IsGit(d) { GitClosed(d, name); } else { SomeClosed(rules, d, name, isDir); }
  }

  // ---- a tree of .gitignore files ----

  /** The directory part before the name starting at `o`; the root is a dot. */
  function DirAt(s: Text, o: nat): Text
    requires o <= |s|
  {
    if o == 0 then [46] else s[..o - 1]
  }

  predicate IgnoredAt(load: Text -> seq<Rule>, s: Text, o: nat, isDir: bool)
    requires o <= |s|
  {
    StartsName(s, o) && SomeIgnores(load(DirAt(s, o)), s[o..], isDir)
  }

  /** Some directory on the way has a rule for what follows it. */
  predicate TreeIgnored(load: Text -> seq<Rule>, s: Text, isDir: bool) {
    exists o: nat | 0 <= o <= |s| :: IgnoredAt(load, s, o, isDir)
  }

  /** The root's rules see the path, those of a directory above it the rest of it. */
  lemma TreeMeans(load: Text -> seq<Rule>, s: Text, isDir: bool)
    ensures TreeIgnored(load, s, isDir) <==>
      || SomeIgnores(load([46]), s, isDir)
      || exists d :: Ancestor(d, s) && SomeIgnores(load(d), s[|d| + 1..], isDir)
  {
    hide SomeIgnores;
    assert s[0..] == s;
    if o: nat :| 0 <= o <= |s| && IgnoredAt(load, s, o, isDir) {
      if o > 0 { assert Ancestor(s[..o - 1], s) && s[|s[..o - 1]| + 1..] == s[o..]; }
    }
    if SomeIgnores(load([46]), s, isDir) { assert IgnoredAt(load, s, 0, isDir); }
    if d :| Ancestor(d, s) && SomeIgnores(load(d), s[|d| + 1..], isDir) {
      assert s[..|d| + 1 - 1] == d;
      assert IgnoredAt(load, s, |d| + 1, isDir);
    }
  }

  lemma TreeClosed(load: Text -> seq<Rule>, d: Text, name: Text, isDir: bool)
    requires TreeIgnored(load, d, true)
    ensures TreeIgnored(load, Child(d, name), isDir)
  {
    hide SomeIgnores;
    var o: nat :| 0 <= o <= |d| && IgnoredAt(load, d, o, true);
    var s := Child(d, name);
    assert s[..|d|] == d;
    if o > 0 { assert s[..o - 1] == d[..o - 1] && s[o - 1] == d[o - 1]; }
    assert s[o..] == Child(d[o..], name);
    SomeClosed(load(DirAt(d, o)), d[o..], name, isDir);
    assert IgnoredAt(load, s, o, isDir);
  }

  /** Rules are read from a directory's file once, and kept. */
  class GitignoreTree {
    const load: Text -> seq<Rule>
    var dirs: map<Text, seq<Rule>>

    ghost predicate Valid()
      reads this
    {
      forall d :: d in dirs ==> dirs[d] == load(d)
    }

    constructor (load: Text -> seq<Rule>)
      ensures Valid() && this.load == load
    {
      this.load := load;
      dirs := map[];
    }

    method LoadDir(dir: Text) returns (rules: seq<Rule>)
      requires Valid()
      modifies this`dirs
      ensures Valid() && rules == load(dir)
    {
      if dir in dirs { return dirs[dir]; }
      rules := load(dir);
      dirs := dirs[dir := rules];
    }

    /** Checks the rules of each directory on the way against the rest of the path. */
    method Ignored(rel: Text, isDir: bool) returns (ignored: bool)
      requires Valid()
      modifies this`dirs
      ensures Valid() && ignored == TreeIgnored(load, rel, isDir)
    {
      hide SomeIgnores;
      for o := 0 to |rel| + 1
        invariant Valid() && forall k: nat :: k < o ==> !IgnoredAt(load, rel, k, isDir)
      {
        if !(o == 0 || rel[o - 1] == SLASH) { continue; }
        var rules := LoadDir(DirAt(rel, o));
        var hit := CheckRules(rules, rel[o..], isDir);
        assert hit == IgnoredAt(load, rel, o, isDir);
        if hit { return true; }
      }
      return false;
    }
  }

  // ---- what a pattern without slashes means ----

  predicate WithinName(ts: seq<Token>) {
    forall k :: 0 <= k < |ts| ==> ts[k].AnyName? || ts[k].AnyChar? || (ts[k].Char? && ts[k].c != SLASH)
  }

  lemma {:induction false} WithinNameSpans(ts: seq<Token>, s: Text, i: nat, j: nat)
    requires WithinName(ts) && Spans(ts, s, i, j)
    ensures NoSlash(s, i, j)
  {
    if |ts| > 0 {
      var k: nat :| i <= k <= j && TokenSpans(ts[0], s, i, k) && Spans(ts[1..], s, k, j);
      WithinNameSpans(ts[1..], s, k, j);
      assert NoSlash(s, i, k);
    }
  }

  /** Where the last name of a path begins. */
  function BaseStart(s: Text): (o: nat)
    ensures StartsName(s, o) && NoSlash(s, o, |s|)
    decreases |s|
  {
    if |s| == 0 || s[|s| - 1] == SLASH then |s|
    else
      var o := BaseStart(s[..|s| - 1]);
      assert forall k :: o <= k < |s| - 1 ==> s[k] == s[..|s| - 1][k];
      o
  }

  lemma NoLaterStart(s: Text, i: nat, o: nat)
    requires NoSlash(s, i, |s|) && StartsName(s, o)
    ensures o <= i
  {
  }

  /** A pattern without slashes is a pattern for the last name of the path, at any depth. */
  lemma BaseNameRule(r: Rule, s: Text)
    requires WithinName(r.tokens) && !r.anchored
    ensures Exact(r, s) <==> Spans(r.tokens, s, BaseStart(s), |s|)
  {
    hide Spans, BaseStart;
    var o := BaseStart(s);
    if i: nat :| 0 <= i <= |s| && MayStart(r, s, i) && Spans(r.tokens, s, i, |s|) {
      WithinNameSpans(r.tokens, s, i, |s|);
      NoLaterStart(s, i, o);
      NoLaterStart(s, o, i);
    }
    assert MayStart(r, s, o);
  }

  // ---- from the pattern itself ----

  predicate Ordinary(c: nat) { c != SLASH && c != 42 && c != 63 }

  predicate PlainName(pat: Text) {
    |pat| > 0 && forall k :: 0 <= k < |pat| ==> Ordinary(pat[k])
  }

  lemma {:induction false} PlainTokens(pat: Text)
    requires forall k :: 0 <= k < |pat| ==> Ordinary(pat[k])
    ensures |Tokens(pat)| == |pat| && forall k :: 0 <= k < |pat| ==> Tokens(pat)[k] == Char(pat[k])
  {
    if |pat| > 0 {
      assert Head(pat) == (Char(pat[0]), 1);
      PlainTokens(pat[1..]);
    }
  }

  lemma {:induction false} CharSpans(ts: seq<Token>, pat: Text, s: Text, i: nat)
    requires |ts| == |pat| && i <= |s| && forall k :: 0 <= k < |pat| ==> ts[k] == Char(pat[k])
    ensures Spans(ts, s, i, |s|) <==> s[i..] == pat
  {
    if |pat| > 0 {
      if i < |s| {
        CharSpans(ts[1..], pat[1..], s, i + 1);
        assert s[i..] == [s[i]] + s[i + 1..];
        assert pat == [pat[0]] + pat[1..];
      }
      assert forall k: nat :: TokenSpans(ts[0], s, i, k) ==> k == i + 1;
      if s[i..] == pat { assert TokenSpans(ts[0], s, i, i + 1); }
    }
  }

  /** A line that is just a name, perhaps with a slash after it, excludes everything of
      that name at any depth, directories only if the slash is there, and all below. */
  lemma NameRule(r: Rule, pat: Text, s: Text, isDir: bool)
    requires PlainName(pat) && !r.anchored && r.tokens == Tokens(pat)
    ensures RuleIgnores(r, s, isDir) <==>
      (s[BaseStart(s)..] == pat && (isDir || !r.dirOnly)) || exists a :: Ancestor(a, s) && a[BaseStart(a)..] == pat
  {
    hide Spans, BaseStart, Prefix, Exact, Ancestor;
    PrefixIsAncestor(r, s);
    NameMatches(r, pat, s);
    forall a ensures Exact(r, a) <==> a[BaseStart(a)..] == pat { NameMatches(r, pat, a); }
  }

  lemma NameMatches(r: Rule, pat: Text, s: Text)
    requires PlainName(pat) && !r.anchored && r.tokens == Tokens(pat)
    ensures Exact(r, s) <==> s[BaseStart(s)..] == pat
  {
    hide Spans, BaseStart, Exact, Tokens;
    PlainTokens(pat);
    BaseNameRule(r, s);
    CharSpans(r.tokens, pat, s, BaseStart(s));
  }

  // ---- what wildcards mean ----

  /** Patterns of one wildcard between literal pieces: a star or a question mark in a
      name, a star in a name right in a directory (`dir` with its slash, none for the
      root), two stars above a name, two stars below a directory. A pattern `rooted` has a
      slash in front. */
  datatype Wild =
    | Star(a: Text, b: Text)
    | Question(a: Text, b: Text)
    | StarIn(rooted: bool, dir: Text, a: Text, b: Text)
    | Anywhere(a: Text)
    | Below(rooted: bool, dir: Text)

  const WILD_STAR: nat := 42
  const WILD_ONE: nat := 63

  /** No wildcards, but perhaps slashes. */
  predicate Literal(t: Text) {
    forall k :: 0 <= k < |t| ==> t[k] != WILD_STAR && t[k] != WILD_ONE
  }

  predicate LiteralName(t: Text) {
    Literal(t) && SLASH !in t
  }

  /** Literal, and a slash at the end but none at the front. */
  predicate LiteralDir(t: Text) {
    Literal(t) && |t| > 1 && t[0] != SLASH && t[|t| - 1] == SLASH
  }

  predicate Proper(w: Wild) {
    match w
    case Star(a, b) => LiteralName(a) && LiteralName(b)
    case Question(a, b) => LiteralName(a) && LiteralName(b)
    case StarIn(rooted, dir, a, b) => LiteralName(a) && LiteralName(b) && (LiteralDir(dir) || (rooted && dir == []))
    case Anywhere(a) => LiteralName(a) && a != []
    case Below(_, dir) => LiteralDir(dir)
  }

  function Lead(rooted: bool): Text { if rooted then [SLASH] else [] }

  /** The pattern as one writes it. */
  function Written(w: Wild): Text {
    match w
    case Star(a, b) => a + [WILD_STAR] + b
    case Question(a, b) => a + [WILD_ONE] + b
    case StarIn(rooted, dir, a, b) => Lead(rooted) + dir + a + [WILD_STAR] + b
    case Anywhere(a) => [WILD_STAR, WILD_STAR, SLASH] + a
    case Below(rooted, dir) => Lead(rooted) + dir + [WILD_STAR, WILD_STAR]
  }

  /** `t` begins with `a` and ends, further on, with `b`. */
  predicate Between(t: Text, a: Text, b: Text) {
    |a| + |b| <= |t| && t[..|a|] == a && t[|t| - |b|..] == b
  }

  function LastName(s: Text): Text { s[BaseStart(s)..] }

  /** The paths the pattern is for. Two stars do not go across a line end. */
  predicate Fits(w: Wild, s: Text) {
    match w
    case Star(a, b) => Between(LastName(s), a, b)
    case Question(a, b) => |LastName(s)| == |a| + 1 + |b| && Between(LastName(s), a, b)
    case StarIn(_, dir, a, b) => dir <= s && SLASH !in s[|dir|..] && Between(s[|dir|..], a, b)
    case Anywhere(a) => LastName(s) == a && NEWLINE !in s[..BaseStart(s)]
    case Below(_, dir) => dir <= s && NEWLINE !in s[|dir|..]
  }

  /** The rule excludes the paths its pattern is for, if the line ends in a slash as
      directories only, and everything below them. */
  ghost predicate MeansItsWildcards(r: Rule, line: Text) {
    forall w, s, isDir :: Proper(w) && (line == Written(w) || line == Written(w) + [SLASH]) ==>
      (RuleIgnores(r, s, isDir) <==>
        (Fits(w, s) && (isDir || line == Written(w))) || exists d :: Ancestor(d, s) && Fits(w, d))
  }

  lemma WildcardsMean(r: Rule, line: Text)
    requires r.dirOnly == (TrimEnd(line) != line) && r.anchored == (SLASH in TrimEnd(line))
    requires r.tokens == Tokens(TrimStart(TrimEnd(line)))
    ensures MeansItsWildcards(r, line)
  {
    hide RuleIgnores, Exact, Fits, Ancestor, Proper, Written, Tokens, TrimStart;
    forall w, s, isDir | Proper(w) && (line == Written(w) || line == Written(w) + [SLASH])
      ensures RuleIgnores(r, s, isDir) <==>
        (Fits(w, s) && (isDir || line == Written(w))) || exists d :: Ancestor(d, s) && Fits(w, d)
    {
      EndOfWritten(w);
      assert (Written(w) + [SLASH])[..|Written(w)|] == Written(w);
      assert TrimEnd(line) == Written(w);
      forall t ensures Exact(r, t) <==> Fits(w, t) { ExactlyFits(r, w, t); }
      IgnoredIfFits(r, w, s, isDir);
    }
  }

  lemma EndOfWritten(w: Wild)
    requires Proper(w)
    ensures TrimEnd(Written(w)) == Written(w) && Written(w) != []
  {
    var p := Written(w);
    match w
    case Star(_, b) => assert |b| > 0 ==> p[|p| - 1] == b[|b| - 1] && b[|b| - 1] in b;
    case Question(_, b) => assert |b| > 0 ==> p[|p| - 1] == b[|b| - 1] && b[|b| - 1] in b;
    case StarIn(_, _, _, b) => assert |b| > 0 ==> p[|p| - 1] == b[|b| - 1] && b[|b| - 1] in b;
    case Anywhere(a) => assert p[|p| - 1] == a[|a| - 1] && a[|a| - 1] in a;
    case Below(_, _) =>
  }

  lemma IgnoredIfFits(r: Rule, w: Wild, s: Text, isDir: bool)
    requires forall t :: Exact(r, t) <==> Fits(w, t)
    ensures RuleIgnores(r, s, isDir) <==>
      (Fits(w, s) && (isDir || !r.dirOnly)) || exists d :: Ancestor(d, s) && Fits(w, d)
  {
    hide Exact, Prefix, Ancestor, Fits;
    PrefixIsAncestor(r, s);
  }

  /** The expression of each form, matched against a whole path. */
  lemma ExactlyFits(r: Rule, w: Wild, s: Text)
    requires Proper(w) && r.anchored == (SLASH in Written(w)) && r.tokens == Tokens(TrimStart(Written(w)))
    ensures Exact(r, s) <==> Fits(w, s)
  {
    hide Tokens, Spans, Exact, Fits, TrimStart, Written, BaseStart;
    FrontOfWritten(w);
    match w
    case Star(a, b) => StarFits(r, a, b, s);
    case Question(a, b) => QuestionFits(r, a, b, s);
    case StarIn(rooted, dir, a, b) => StarInFits(r, rooted, dir, a, b, s);
    case Anywhere(a) => AnywhereFits(r, a, s);
    case Below(rooted, dir) => BelowFits(r, rooted, dir, s);
  }

  /** The pattern without a slash in front. */
  function Bare(w: Wild): Text {
    match w
    case Star(a, b) => a + [WILD_STAR] + b
    case Question(a, b) => a + [WILD_ONE] + b
    case StarIn(_, dir, a, b) => dir + a + [WILD_STAR] + b
    case Anywhere(a) => [WILD_STAR, WILD_STAR, SLASH] + a
    case Below(_, dir) => dir + [WILD_STAR, WILD_STAR]
  }

  lemma FrontOfWritten(w: Wild)
    requires Proper(w)
    ensures TrimStart(Written(w)) == Bare(w)
    ensures SLASH in Written(w) <==> !w.Star? && !w.Question?
  {
    var p, u := Written(w), Bare(w);
    assert |u| > 0 && u[0] != SLASH by {
      match w
      case Star(a, _) => assert a != [] ==> u[0] == a[0] && a[0] in a;
      case Question(a, _) => assert a != [] ==> u[0] == a[0] && a[0] in a;
      case StarIn(_, dir, a, _) => assert dir == [] && a != [] ==> u[0] == a[0] && a[0] in a;
      case Anywhere(_) =>
      case Below(_, _) =>
    }
    match w
    case Star(_, _) =>
    case Question(_, _) =>
    case StarIn(rooted, dir, _, _) => {
      assert p == Lead(rooted) + u;
      assert dir != [] ==> SLASH in dir;
      assert rooted ==> p[1..] == u;
    }
    case Anywhere(_) => assert p[2] == SLASH;
    case Below(rooted, dir) => {
      assert p == Lead(rooted) + u;
      assert SLASH in dir;
      assert rooted ==> p[1..] == u;
    }
  }

  lemma StarFits(r: Rule, a: Text, b: Text, s: Text)
    requires Proper(Star(a, b)) && !r.anchored && r.tokens == Tokens(a + [WILD_STAR] + b)
    ensures Exact(r, s) <==> Fits(Star(a, b), s)
  {
    hide Tokens, Spans, Exact, BaseStart;
    OneWildcard(a, WILD_STAR, b);
    BaseNameRule(r, s);
    MiddleSpans(a, AnyName, b, s, BaseStart(s));
  }

  lemma QuestionFits(r: Rule, a: Text, b: Text, s: Text)
    requires Proper(Question(a, b)) && !r.anchored && r.tokens == Tokens(a + [WILD_ONE] + b)
    ensures Exact(r, s) <==> Fits(Question(a, b), s)
  {
    hide Tokens, Spans, Exact, BaseStart;
    OneWildcard(a, WILD_ONE, b);
    BaseNameRule(r, s);
    MiddleSpans(a, AnyChar, b, s, BaseStart(s));
  }

  /** Without another way to begin, the expression begins at the front. */
  lemma FromFront(r: Rule, s: Text)
    requires r.anchored
    ensures Exact(r, s) <==> Spans(r.tokens, s, 0, |s|)
  {
    hide Spans;
    assert MayStart(r, s, 0);
  }

  lemma StarInFits(r: Rule, rooted: bool, dir: Text, a: Text, b: Text, s: Text)
    requires Proper(StarIn(rooted, dir, a, b)) && r.anchored && r.tokens == Tokens(dir + a + [WILD_STAR] + b)
    ensures Exact(r, s) <==> Fits(StarIn(rooted, dir, a, b), s)
  {
    hide Tokens, Spans, Exact;
    var da := dir + a;
    OneWildcard(da, WILD_STAR, b);
    FromFront(r, s);
    MiddleSpans(da, AnyName, b, s, 0);
    assert s[0..] == s;
    InDirectory(dir, a, b, s);
  }

  lemma InDirectory(dir: Text, a: Text, b: Text, s: Text)
    requires SLASH !in a && SLASH !in b
    ensures Between(s, dir + a, b) && NoSlash(s, |dir| + |a|, |s| - |b|) <==>
      dir <= s && SLASH !in s[|dir|..] && Between(s[|dir|..], a, b)
  {
    if Between(s, dir + a, b) && NoSlash(s, |dir| + |a|, |s| - |b|) {
      var t := s[|dir|..];
      assert s[..|dir|] == (dir + a)[..|dir|] == dir;
      assert t[..|a|] == s[..|dir| + |a|][|dir|..] == a;
      assert t[|t| - |b|..] == b;
      forall k | 0 <= k < |t| ensures t[k] != SLASH {
        assert k < |a| ==> t[k] == a[k] && a[k] in a;
        assert k >= |t| - |b| ==> t[k] == b[k - (|t| - |b|)] && b[k - (|t| - |b|)] in b;
        assert |a| <= k < |t| - |b| ==> t[k] == s[|dir| + k];
      }
    }
    if dir <= s && SLASH !in s[|dir|..] && Between(s[|dir|..], a, b) {
      var t := s[|dir|..];
      assert s[..|dir| + |a|] == s[..|dir|] + t[..|a|] == dir + a;
      assert s[|s| - |b|..] == t[|t| - |b|..];
      assert forall k :: |dir| <= k < |s| ==> s[k] == t[k - |dir|] && t[k - |dir|] in t;
    }
  }

  lemma AnywhereFits(r: Rule, a: Text, s: Text)
    requires Proper(Anywhere(a)) && r.anchored && r.tokens == Tokens([WILD_STAR, WILD_STAR, SLASH] + a)
    ensures Exact(r, s) <==> Fits(Anywhere(a), s)
  {
    hide Tokens, Spans, Exact, BaseStart;
    AnyDirsFirst(a);
    FromFront(r, s);
    assert r.tokens == Chars([]) + [AnyDirs] + Chars(a);
    MiddleSpans([], AnyDirs, a, s, 0);
    assert s[0..] == s && s[..0] == [];
    AboveName(a, s);
  }

  lemma AnyDirsFirst(a: Text)
    requires Literal(a)
    ensures Tokens([WILD_STAR, WILD_STAR, SLASH] + a) == [AnyDirs] + Chars(a)
  {
    var p := [WILD_STAR, WILD_STAR, SLASH] + a;
    LiteralOnly(a);
    assert p[3..] == a && [42, 42, 47] <= p;
  }

  lemma AboveName(a: Text, s: Text)
    requires SLASH !in a
    ensures Between(s, [], a) && TokenSpans(AnyDirs, s, 0, |s| - |a|) <==>
      s[BaseStart(s)..] == a && NEWLINE !in s[..BaseStart(s)]
  {
    hide BaseStart;
    var o := BaseStart(s);
    if Between(s, [], a) && TokenSpans(AnyDirs, s, 0, |s| - |a|) {
      var k := |s| - |a|;
      assert forall i :: k <= i < |s| ==> s[i] == a[i - k] && a[i - k] in a;
      assert StartsName(s, k);
      NoLaterStart(s, k, o);
      NoLaterStart(s, o, k);
    }
    if s[o..] == a && NEWLINE !in s[..o] {
      assert forall i :: 0 <= i < o ==> s[i] == s[..o][i] && s[..o][i] in s[..o];
      assert o == |s| - |a| && s[..0] == [];
    }
  }

  lemma BelowFits(r: Rule, rooted: bool, dir: Text, s: Text)
    requires Proper(Below(rooted, dir)) && r.anchored && r.tokens == Tokens(dir + [WILD_STAR, WILD_STAR])
    ensures Exact(r, s) <==> Fits(Below(rooted, dir), s)
  {
    hide Tokens, Spans, Exact;
    AnyPathLast(dir);
    FromFront(r, s);
    assert r.tokens == Chars(dir) + [AnyPath] + Chars([]);
    MiddleSpans(dir, AnyPath, [], s, 0);
    assert s[0..] == s && s[|s|..] == [];
    if dir <= s {
      assert s[..|dir|] == dir;
      assert forall k :: |dir| <= k < |s| ==> s[k] == s[|dir|..][k - |dir|];
    }
  }

  lemma AnyPathLast(dir: Text)
    requires Literal(dir)
    ensures Tokens(dir + [WILD_STAR, WILD_STAR]) == Chars(dir) + [AnyPath]
  {
    LiteralTokens(dir, [WILD_STAR, WILD_STAR]);
    var p: Text := [WILD_STAR, WILD_STAR];
    NoTokens();
    assert p[2..] == [] && Head(p) == (AnyPath, 2);
    assert Tokens(p) == [AnyPath];
  }

  function WildToken(c: nat): Token { if c == WILD_STAR then AnyName else AnyChar }

  /** A single star or question mark between literal pieces. */
  lemma OneWildcard(a: Text, c: nat, b: Text)
    requires Literal(a) && Literal(b) && (c == WILD_STAR || c == WILD_ONE)
    ensures Literal(a + b)
    ensures Tokens(a + [c] + b) == Chars(a) + [WildToken(c)] + Chars(b)
  {
    var rest := [c] + b;
    assert a + [c] + b == a + rest;
    LiteralTokens(a, rest);
    LiteralOnly(b);
    assert rest[1..] == b;
    assert |b| > 0 ==> rest[1] == b[0];
    assert Head(rest) == (WildToken(c), 1);
    assert Tokens(rest) == [WildToken(c)] + Chars(b);
  }

  // ---- tokens and what they span, piece by piece ----

  function Chars(t: Text): seq<Token> { seq(|t|, k requires 0 <= k < |t| => Char(t[k])) }

  /** Literal text at the front gives its characters. */
  lemma {:induction false} LiteralTokens(a: Text, rest: Text)
    requires Literal(a)
    ensures Tokens(a + rest) == Chars(a) + Tokens(rest)
  {
    hide Tokens, Head;
    if |a| == 0 {
      assert a + rest == rest && Chars(a) + Tokens(rest) == Tokens(rest);
    } else {
      LiteralTokens(a[1..], rest);
      CharFirst(a[0], a[1..] + rest);
      assert a + rest == [a[0]] + (a[1..] + rest);
      assert Chars(a) == [Char(a[0])] + Chars(a[1..]);
      assert [Char(a[0])] + (Chars(a[1..]) + Tokens(rest)) == Chars(a) + Tokens(rest);
    }
  }

  lemma CharFirst(c: nat, rest: Text)
    requires c != WILD_STAR && c != WILD_ONE
    ensures Tokens([c] + rest) == [Char(c)] + Tokens(rest)
  {
    var p := [c] + rest;
    assert p[1..] == rest && p[0] == c;
    assert Head(p) == (Char(c), 1);
  }

  lemma LiteralOnly(a: Text)
    requires Literal(a)
    ensures Tokens(a) == Chars(a)
  {
    LiteralTokens(a, []);
    assert a + [] == a && Chars(a) + [] == Chars(a);
  }

  lemma {:induction false} SpansAppend(ts: seq<Token>, us: seq<Token>, s: Text, i: nat, j: nat)
    ensures Spans(ts + us, s, i, j) <==> exists k: nat :: i <= k <= j && Spans(ts, s, i, k) && Spans(us, s, k, j)
  {
    hide TokenSpans;
    if |ts| == 0 {
      assert ts + us == us;
      if Spans(us, s, i, j) {
        SpansBounds(us, s, i, j);
        SpansEnds(us, s, i, j);
        assert Spans(ts, s, i, i);
      }
    } else {
      assert (ts + us)[1..] == ts[1..] + us && (ts + us)[0] == ts[0];
      if Spans(ts + us, s, i, j) {
        var m: nat :| i <= m <= j && TokenSpans(ts[0], s, i, m) && Spans(ts[1..] + us, s, m, j);
        SpansAppend(ts[1..], us, s, m, j);
        var k: nat :| m <= k <= j && Spans(ts[1..], s, m, k) && Spans(us, s, k, j);
        assert Spans(ts, s, i, k);
      }
      if k: nat :| i <= k <= j && Spans(ts, s, i, k) && Spans(us, s, k, j) {
        var m: nat :| i <= m <= k && TokenSpans(ts[0], s, i, m) && Spans(ts[1..], s, m, k);
        assert m <= k <= j && Spans(ts[1..], s, m, k) && Spans(us, s, k, j);
        SpansAppend(ts[1..], us, s, m, j);
        assert Spans(ts[1..] + us, s, m, j);
        assert TokenSpans((ts + us)[0], s, i, m) && Spans((ts + us)[1..], s, m, j);
      }
    }
  }

  lemma {:induction false} SpansEnds(ts: seq<Token>, s: Text, i: nat, j: nat)
    requires Spans(ts, s, i, j)
    ensures j <= |s|
  {
    if |ts| > 0 {
      var k: nat :| i <= k <= j && TokenSpans(ts[0], s, i, k) && Spans(ts[1..], s, k, j);
      SpansEnds(ts[1..], s, k, j);
    }
  }

  lemma {:induction false} CharsSpan(t: Text, s: Text, i: nat, j: nat)
    ensures Spans(Chars(t), s, i, j) <==> j == i + |t| && j <= |s| && s[i..j] == t
  {
    if |t| > 0 {
      var ts := Chars(t);
      assert ts[0] == Char(t[0]) && ts[1..] == Chars(t[1..]);
      CharsSpan(t[1..], s, i + 1, j);
      if Spans(ts, s, i, j) {
        var k: nat :| i <= k <= j && TokenSpans(ts[0], s, i, k) && Spans(ts[1..], s, k, j);
        assert k == i + 1;
        assert s[i..j] == [s[i]] + s[i + 1..j] && t == [t[0]] + t[1..];
      }
      if j == i + |t| && j <= |s| && s[i..j] == t {
        assert s[i] == s[i..j][0] && s[i + 1..j] == s[i..j][1..];
        assert TokenSpans(ts[0], s, i, i + 1);
      }
    }
  }

  lemma OneSpan(t: Token, s: Text, i: nat, j: nat)
    ensures Spans([t], s, i, j) <==> i <= j <= |s| && TokenSpans(t, s, i, j)
  {
    assert [t][1..] == [];
    if i <= j <= |s| && TokenSpans(t, s, i, j) { assert Spans([t][1..], s, j, j); }
  }

  /** A token between two literal pieces. */
  lemma MiddleSpans(a: Text, t: Token, b: Text, s: Text, i: nat)
    requires i <= |s|
    ensures Spans(Chars(a) + [t] + Chars(b), s, i, |s|) <==>
      Between(s[i..], a, b) && TokenSpans(t, s, i + |a|, |s| - |b|)
  {
    hide TokenSpans, Spans;
    var n := |s|;
    LastSpans(Chars(a) + [t], b, s, i);
    if |b| <= n - i {
      FirstSpans(a, t, s, i, n - |b|);
      PartsOf(a, b, s, i);
    }
  }

  lemma LastSpans(ts: seq<Token>, b: Text, s: Text, i: nat)
    requires i <= |s|
    ensures Spans(ts + Chars(b), s, i, |s|) <==> |b| <= |s| - i && s[|s| - |b|..] == b && Spans(ts, s, i, |s| - |b|)
  {
    hide Spans;
    var n := |s|;
    SpansAppend(ts, Chars(b), s, i, n);
    forall k: nat ensures Spans(Chars(b), s, k, n) <==> n == k + |b| && s[k..n] == b { CharsSpan(b, s, k, n); }
    if |b| <= n - i && s[n - |b|..] == b && Spans(ts, s, i, n - |b|) {
      assert s[n - |b|..n] == b;
      assert Spans(Chars(b), s, n - |b|, n);
    }
  }

  lemma FirstSpans(a: Text, t: Token, s: Text, i: nat, j: nat)
    requires i <= j <= |s|
    ensures Spans(Chars(a) + [t], s, i, j) <==> |a| <= j - i && s[i..i + |a|] == a && TokenSpans(t, s, i + |a|, j)
  {
    hide Spans, TokenSpans;
    SpansAppend(Chars(a), [t], s, i, j);
    forall m: nat ensures Spans(Chars(a), s, i, m) <==> m == i + |a| && m <= |s| && s[i..m] == a { CharsSpan(a, s, i, m); }
    forall m: nat ensures Spans([t], s, m, j) <==> m <= j <= |s| && TokenSpans(t, s, m, j) { OneSpan(t, s, m, j); }
    if |a| <= j - i && s[i..i + |a|] == a && TokenSpans(t, s, i + |a|, j) {
      assert Spans(Chars(a), s, i, i + |a|) && Spans([t], s, i + |a|, j);
    }
  }

  lemma PartsOf(a: Text, b: Text, s: Text, i: nat)
    requires i + |b| <= |s|
    ensures Between(s[i..], a, b) <==> |a| + |b| <= |s| - i && s[i..i + |a|] == a && s[|s| - |b|..] == b
  {
    var u := s[i..];
    assert u[|u| - |b|..] == s[|s| - |b|..];
    assert |a| <= |u| ==> u[..|a|] == s[i..i + |a|];
  }
}
