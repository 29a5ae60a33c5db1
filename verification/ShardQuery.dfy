/** Lookups in an opened shard (internal/shard/shard.go): file table, inlined content,
    definitions, posting lists and candidate files. Each method is handed, as ghosts, the
    files and posting lists that were written, and promises to return what was put in:
    the two ends of a round trip through the bytes. The last two methods go all the way
    from the written bytes to the answers. */
module ShardQuery {
  import opened Prelude
  import opened Bytes
  import opened Codec
  import opened Sorted
  import opened Literal
  import opened IndexSpec
  import opened MemIndex
  import opened ShardFormat
  import opened ShardBuild
  import opened ShardRead

  /** The descriptor's numbers in terms of what was written. */
  lemma Unpack(s: Shard, fs: seq<BuildFile>, keys: seq<nat>, tri: Postings)
    requires Describes(s, fs, keys, tri)
    ensures Fits(fs, keys, tri) && Stamped(fs) && KeysOf(keys, tri) && s.data == Image(fs, keys, tri)
    ensures s.numFiles == |fs| && s.numTri == |keys| && s.numSyms == NumSyms(fs) && s.triKeys == keys
    ensures s.fileTbl == 64 && s.PathBlob() == 64 + |fs| * 32
    ensures var paths, posts, syms, contents := Cat(Paths(fs)), Cat(Posts(keys, tri)), Cat(Symbols(fs)), Cat(Contents(fs));
      && s.triIdx == TriIdxOff(|fs|, paths) && s.postings == PostOff(|fs|, paths, |keys|)
      && s.symbolOff == SymOff(|fs|, paths, |keys|, posts) && s.symbolOff > 0
      && s.contentOff == (if |contents| > 0 then s.symbolOff + |syms| else 0)
  {
    hide Image, Cat, NumSyms, KeysOf;
  }

  // ---- files ----

  /** The entry at `off` shows `f`, with its path in the blob. */
  ghost predicate EntryShows(data: Bytes, off: nat, pathBlob: nat, f: BuildFile) {
    && off + 32 <= |data|
    && Field(data, off + 4, 2) == |f.path| && At(data, pathBlob + Field(data, off, 4), f.path)
    && Signed(Field(data, off + 8, 8)) == f.size && Signed(Field(data, off + 16, 8)) == f.mtime
  }

  lemma EntryFacts(s: Shard, fs: seq<BuildFile>, keys: seq<nat>, tri: Postings, i: nat)
    requires Describes(s, fs, keys, tri) && i < |fs|
    ensures s.fileTbl == 64 && s.PathBlob() == 64 + |fs| * 32 && EntryShows(s.data, 64 + i * 32, 64 + |fs| * 32, fs[i])
  {
    hide Fits, Image, Cat, Start, Field, KeysOf, Stamped, At, Describes, FromLE;
    Unpack(s, fs, keys, tri);
    EntryReads(fs, keys, tri, i);
  }

  method ReadEntry(data: Bytes, off: nat, pathBlob: nat, ghost f: BuildFile) returns (fm: FileMeta)
    requires EntryShows(data, off, pathBlob, f)
    ensures fm == FileMeta(f.path, f.size, f.mtime)
  {
    hide FromLE;
    var pOff, pLen := Field(data, off, 4), Field(data, off + 4, 2);
    fm := FileMeta(data[pathBlob + pOff..pathBlob + pOff + pLen], Signed(Field(data, off + 8, 8)), Signed(Field(data, off + 16, 8)));
  }

  /** Path, size and modification time of file `i`. */
  method File(s: Shard, i: nat, ghost fs: seq<BuildFile>, ghost keys: seq<nat>, ghost tri: Postings) returns (fm: FileMeta)
    requires Describes(s, fs, keys, tri) && i < |fs|
    ensures fm == FileMeta(fs[i].path, fs[i].size, fs[i].mtime)
  {
    hide *;
    EntryFacts(s, fs, keys, tri, i);
    fm := ReadEntry(s.data, s.fileTbl + i * 32, s.PathBlob(), fs[i]);
  }

  /** The entry at `off` says where the inlined content of `f` is, if it has any. */
  ghost predicate ContentShows(data: Bytes, off: nat, base: nat, f: BuildFile) {
    && off + 32 <= |data| && Field(data, off + 28, 4) == |Inlined(f)|
    && (Inlined(f) != [] ==> Field(data, off + 24, 4) != NO_CONTENT && At(data, base + Field(data, off + 24, 4), Inlined(f)))
  }

  lemma ContentFacts(s: Shard, fs: seq<BuildFile>, keys: seq<nat>, tri: Postings, i: nat)
    requires Describes(s, fs, keys, tri) && i < |fs|
    ensures s.contentOff == 0 ==> Inlined(fs[i]) == []
    ensures s.contentOff != 0 ==> s.contentOff > 0 && s.fileTbl == 64 && ContentShows(s.data, 64 + i * 32, s.contentOff, fs[i])
  {
    hide Fits, Image, Cat, Start, Field, KeysOf, Stamped, At, Describes, ContentOff, Inlined, Header, Entries, PostOffs;
    Unpack(s, fs, keys, tri);
    EntryFits(fs, keys, tri, i);
    EntryReads(fs, keys, tri, i);
    Places(fs, keys, tri);
    if s.contentOff != 0 { PartAt(s.data, s.contentOff, Contents(fs), i); } else { NoPart(Contents(fs), i); }
  }

  lemma NoPart(parts: seq<Bytes>, i: nat)
    requires i < |parts| && |Cat(parts)| == 0
    ensures parts[i] == []
  {
    hide Cat;
    CatAt(parts, i);
  }

  lemma InlinedContent(f: BuildFile)
    ensures (if f.content == Some([]) then None else f.content) == (if Inlined(f) == [] then None else Some(Inlined(f)))
  {
  }

  method ReadContent(data: Bytes, off: nat, base: nat, ghost f: BuildFile) returns (c: Option<Bytes>)
    requires ContentShows(data, off, base, f)
    ensures c == if Inlined(f) == [] then None else Some(Inlined(f))
  {
    hide FromLE, Inlined;
    var cOff, cLen := Field(data, off + 24, 4), Field(data, off + 28, 4);
    if cOff == NO_CONTENT || cLen == 0 { return None; }
    c := Some(data[base + cOff..base + cOff + cLen]);
  }

  /** The inlined content of file `i`, or nothing. Empty content reads back as absent. */
  method FileContent(s: Shard, i: nat, ghost fs: seq<BuildFile>, ghost keys: seq<nat>, ghost tri: Postings) returns (c: Option<Bytes>)
    requires Describes(s, fs, keys, tri) && i < |fs|
    ensures c == if fs[i].content == Some([]) then None else fs[i].content
  {
    hide *;
    InlinedContent(fs[i]);
    ContentFacts(s, fs, keys, tri, i);
    if s.contentOff == 0 { return None; }
    c := ReadContent(s.data, s.fileTbl + i * 32, s.contentOff, fs[i]);
  }

  // ---- definitions ----

  /** Reads a length-prefixed string. */
  method ReadText(data: Bytes, pos: nat, ghost t: Bytes) returns (s: Bytes, next: nat)
    requires At(data, pos, Text(t)) && |t| < U64
    ensures s == t && next == pos + |Text(t)|
  {
    AtPieces(data, pos, Uv(|t|), t);
    hide Uv;
    var n, p := ReadUvarint(data, pos, |t|);
    s, next := data[p..p + n], p + n;
  }

  /** The four parts of an encoded definition, one after the other. */
  lemma DefPieces(data: Bytes, pos: nat, d: Def)
    requires At(data, pos, DefBytes(d))
    ensures At(data, pos, Text(d.name))
    ensures At(data, pos + |Text(d.name)|, Text(d.kind))
    ensures At(data, pos + |Text(d.name)| + |Text(d.kind)|, Text(d.container))
    ensures At(data, pos + |Text(d.name)| + |Text(d.kind)| + |Text(d.container)|, Uv(d.line))
    ensures |DefBytes(d)| == |Text(d.name)| + |Text(d.kind)| + |Text(d.container)| + |Uv(d.line)|
  {
    hide At, Text, Uv;
    AtPieces(data, pos, Text(d.name) + Text(d.kind) + Text(d.container), Uv(d.line));
    AtPieces(data, pos, Text(d.name) + Text(d.kind), Text(d.container));
    AtPieces(data, pos, Text(d.name), Text(d.kind));
  }

  method ReadDef(data: Bytes, pos: nat, ghost d: Def) returns (r: Def, next: nat)
    requires At(data, pos, DefBytes(d)) && DefFits(d)
    ensures r == d && next == pos + |DefBytes(d)|
  {
    DefPieces(data, pos, d);
    UvInRange(data, pos + |Text(d.name)| + |Text(d.kind)| + |Text(d.container)|, d.line);
    hide At, Text, Uv, DefBytes;
    var name, p := ReadText(data, pos, d.name);
    var kind, p2 := ReadText(data, p, d.kind);
    var container, p3 := ReadText(data, p2, d.container);
    var line, p4 := ReadUvarint(data, p3, d.line);
    r, next := Def(name, kind, container, line), p4;
  }

  lemma UvInRange(data: Bytes, pos: nat, x: nat)
    requires At(data, pos, Uv(x))
    ensures pos <= |data|
  {
  }

  method SkipText(data: Bytes, pos: nat, ghost t: Bytes) returns (next: nat)
    requires At(data, pos, Text(t)) && |t| < U64
    ensures next == pos + |Text(t)|
  {
    AtPieces(data, pos, Uv(|t|), t);
    hide Uv;
    var n, p := ReadUvarint(data, pos, |t|);
    next := p + n;
  }

  method SkipDef(data: Bytes, pos: nat, ghost d: Def) returns (next: nat)
    requires At(data, pos, DefBytes(d)) && DefFits(d)
    ensures next == pos + |DefBytes(d)|
  {
    DefPieces(data, pos, d);
    UvInRange(data, pos + |Text(d.name)| + |Text(d.kind)| + |Text(d.container)|, d.line);
    hide At, Text, Uv, DefBytes;
    var p := SkipText(data, pos, d.name);
    var p2 := SkipText(data, p, d.kind);
    var p3 := SkipText(data, p2, d.container);
    var _, p4 := ReadUvarint(data, p3, d.line);
    next := p4;
  }

  /** A definition list at `pos`: its length, then the definitions. */
  lemma DefsHead(data: Bytes, pos: nat, defs: seq<Def>)
    requires At(data, pos, DefsBytes(defs))
    ensures pos <= |data| && At(data, pos, Uv(|defs|)) && At(data, pos + |Uv(|defs|)|, Cat(DefParts(defs)))
    ensures |DefsBytes(defs)| == |Uv(|defs|)| + Start(DefParts(defs), |defs|) && Start(DefParts(defs), 0) == 0
  {
    hide At, Cat, Uv, DefParts, Start;
    AtPieces(data, pos, Uv(|defs|), Cat(DefParts(defs)));
    UvInRange(data, pos, |defs|);
    StartEnd(DefParts(defs));
  }

  lemma DefPlace(data: Bytes, pos: nat, defs: seq<Def>, j: nat)
    requires At(data, pos, Cat(DefParts(defs))) && j < |defs|
    ensures At(data, pos + Start(DefParts(defs), j), DefBytes(defs[j]))
    ensures Start(DefParts(defs), j + 1) == Start(DefParts(defs), j) + |DefBytes(defs[j])|
  {
    hide At, Cat, DefBytes, Start;
    PartAt(data, pos, DefParts(defs), j);
  }

  method ReadDefs(data: Bytes, pos: nat, ghost defs: seq<Def>) returns (r: seq<Def>)
    requires At(data, pos, DefsBytes(defs)) && |defs| < U64 && forall j :: 0 <= j < |defs| ==> DefFits(defs[j])
    ensures r == defs
  {
    hide *;
    DefsHead(data, pos, defs);
    var n, next := ReadUvarint(data, pos, |defs|);
    r := [];
    var p: nat := next;
    for j := 0 to n
      invariant n == |defs| && r == defs[..j]
      invariant p == pos + |Uv(|defs|)| + Start(DefParts(defs), j)
    {
      DefPlace(data, pos + |Uv(|defs|)|, defs, j);
      var d;
      d, p := ReadDef(data, p, defs[j]);
      r := r + [d];
    }
  }

  method SkipDefs(data: Bytes, pos: nat, ghost defs: seq<Def>) returns (next: nat)
    requires At(data, pos, DefsBytes(defs)) && |defs| < U64 && forall j :: 0 <= j < |defs| ==> DefFits(defs[j])
    ensures next == pos + |DefsBytes(defs)|
  {
    hide *;
    DefsHead(data, pos, defs);
    var n, p := ReadUvarint(data, pos, |defs|);
    next := p;
    for j := 0 to n
      invariant n == |defs|
      invariant next == pos + |Uv(|defs|)| + Start(DefParts(defs), j)
    {
      DefPlace(data, pos + |Uv(|defs|)|, defs, j);
      next := SkipDef(data, next, defs[j]);
    }
  }

  lemma SymbolSection(s: Shard, fs: seq<BuildFile>, keys: seq<nat>, tri: Postings)
    requires Describes(s, fs, keys, tri)
    ensures Fits(fs, keys, tri) && s.symbolOff > 0 && s.numSyms == NumSyms(fs) && At(s.data, s.symbolOff, Cat(Symbols(fs)))
  {
    hide Fits, Image, Cat, At, Describes, KeysOf, NumSyms, Header, Entries, PostOffs, Symbols, TriIdxOff, PostOff, SymOff;
    Unpack(s, fs, keys, tri);
    Places(fs, keys, tri);
  }

  lemma DefsFit(fs: seq<BuildFile>, keys: seq<nat>, tri: Postings, i: nat)
    requires Fits(fs, keys, tri) && i < |fs|
    ensures |fs[i].defs| <= NumSyms(fs) && |fs[i].defs| < U64 && forall j :: 0 <= j < |fs[i].defs| ==> DefFits(fs[i].defs[j])
  {
    NumSymsBound(fs, i);
    hide Image, Cat, NumSyms, KeysOf;
  }

  /** Where the definitions of file `i` are. */
  lemma SymbolPlace(s: Shard, fs: seq<BuildFile>, keys: seq<nat>, tri: Postings, i: nat)
    requires Describes(s, fs, keys, tri) && i < |fs|
    ensures s.symbolOff > 0 && s.numSyms == NumSyms(fs)
    ensures At(s.data, s.symbolOff + Start(Symbols(fs), i), DefsBytes(fs[i].defs))
    ensures Start(Symbols(fs), i + 1) == Start(Symbols(fs), i) + |DefsBytes(fs[i].defs)| && Start(Symbols(fs), 0) == 0
    ensures |fs[i].defs| <= NumSyms(fs) && |fs[i].defs| < U64 && forall j :: 0 <= j < |fs[i].defs| ==> DefFits(fs[i].defs[j])
  {
    hide Fits, Cat, Start, At, Describes, DefsBytes, DefFits, NumSyms;
    SymbolSection(s, fs, keys, tri);
    DefsFit(fs, keys, tri, i);
    PartAt(s.data, s.symbolOff, Symbols(fs), i);
    StartEnd(Symbols(fs));
  }

  /** The definitions of file `i`, walking past those of the files before it. */
  method FileDefs(s: Shard, i: nat, ghost fs: seq<BuildFile>, ghost keys: seq<nat>, ghost tri: Postings) returns (defs: seq<Def>)
    requires Describes(s, fs, keys, tri) && i < |fs|
    ensures defs == fs[i].defs
  {
    hide *;
    SymbolPlace(s, fs, keys, tri, i);
    if s.symbolOff == 0 || s.numSyms == 0 { return []; }
    SymbolPlace(s, fs, keys, tri, 0);
    var pos: nat := s.symbolOff;
    for fi := 0 to i
      invariant pos == s.symbolOff + Start(Symbols(fs), fi)
    {
      SymbolPlace(s, fs, keys, tri, fi);
      pos := SkipDefs(s.data, pos, fs[fi].defs);
    }
    defs := ReadDefs(s.data, pos, fs[i].defs);
  }

  // ---- posting lists ----

  /** Position of the first key not below `tri`, in an ascending table. */
  ghost predicate Found(keys: seq<nat>, k: nat, lo: nat) {
    lo <= |keys| && (forall i :: 0 <= i < lo ==> keys[i] < k) && (forall i :: lo <= i < |keys| ==> k <= keys[i])
  }

  lemma FoundIffPresent(keys: seq<nat>, k: nat, lo: nat)
    requires Ascending(keys) && Found(keys, k, lo)
    ensures k in keys <==> lo < |keys| && keys[lo] == k
  {
  }

  /** Binary search in the key table of the mapped data. */
  method SearchKeys(s: Shard, k: nat, ghost fs: seq<BuildFile>, ghost keys: seq<nat>, ghost tri: Postings) returns (lo: nat)
    requires Describes(s, fs, keys, tri)
    ensures Found(keys, k, lo)
  {
    hide *;
    Unpack(s, fs, keys, tri);
    KeysAscend(keys, tri);
    lo := 0;
    var hi := s.numTri;
    NoneBelow(keys, k);
    while lo < hi
      invariant lo <= hi <= |keys| && Below(keys, k, lo) && AtLeast(keys, k, hi)
    {
      var mid := lo + (hi - lo) / 2;
      HeadedKey(s, fs, keys, tri, mid);
      Narrow(keys, k, mid);
      if Field(s.data, s.triIdx + mid * 4, 4) < k { lo := mid + 1; } else { hi := mid; }
    }
    Met(keys, k, lo);
  }

  lemma KeysAscend(keys: seq<nat>, tri: Postings)
    requires KeysOf(keys, tri)
    ensures Ascending(keys) && forall k :: k in keys <==> k in tri
  {
  }

  ghost predicate Below(keys: seq<nat>, k: nat, lo: nat) {
    lo <= |keys| && forall i :: 0 <= i < lo ==> keys[i] < k
  }

  ghost predicate AtLeast(keys: seq<nat>, k: nat, hi: nat) {
    hi <= |keys| && forall i :: hi <= i < |keys| ==> k <= keys[i]
  }

  lemma NoneBelow(keys: seq<nat>, k: nat)
    ensures Below(keys, k, 0) && AtLeast(keys, k, |keys|)
  {
  }

  lemma Narrow(keys: seq<nat>, k: nat, mid: nat)
    requires Ascending(keys) && mid < |keys|
    ensures keys[mid] < k ==> Below(keys, k, mid + 1)
    ensures keys[mid] >= k ==> AtLeast(keys, k, mid)
  {
  }

  lemma Met(keys: seq<nat>, k: nat, lo: nat)
    requires Below(keys, k, lo) && AtLeast(keys, k, lo)
    ensures Found(keys, k, lo)
  {
  }

  lemma HeadedKey(s: Shard, fs: seq<BuildFile>, keys: seq<nat>, tri: Postings, i: nat)
    requires Describes(s, fs, keys, tri) && i < |keys|
    ensures s.triIdx >= 0 && s.triIdx + i * 4 + 4 <= |s.data| && Field(s.data, s.triIdx + i * 4, 4) == keys[i]
  {
    hide Headed, Field;
    KeyWord(s, fs, keys, tri, i);
  }

  /** Where the list of the key at index `i` is. */
  lemma PostPlace(s: Shard, fs: seq<BuildFile>, keys: seq<nat>, tri: Postings, i: nat)
    requires Describes(s, fs, keys, tri) && i < |keys|
    ensures keys[i] in tri && Ascending(tri[keys[i]]) && s.numTri == |keys|
    ensures |tri[keys[i]]| < U64 && forall j :: 0 <= j < |tri[keys[i]]| ==> tri[keys[i]][j] < U32
    ensures var off := s.triIdx + s.numTri * 4 + i * 4;
      off >= 0 && off + 4 <= |s.data| && s.postings >= 0 && At(s.data, s.postings + Field(s.data, off, 4), PostBytes(tri[keys[i]]))
  {
    hide Image, Cat, At, Describes, Header, Entries, Field, PostBytes, Start, TriIdxOff, PostOff, SymOff, Paths;
    Unpack(s, fs, keys, tri);
    Places(fs, keys, tri);
    KeyFits(fs, keys, tri, i);
    PartAt(s.data, s.postings, Posts(keys, tri), i);
    assert PostOffs(keys, tri)[i] < U32;
    WordAt(s.data, s.triIdx + s.numTri * 4, PostOffs(keys, tri), i);
  }

  /** Delta `j` of a posting list found at `pos`. */
  lemma DeltaPlace(data: Bytes, pos: nat, ids: seq<nat>, j: nat)
    requires Ascending(ids) && At(data, pos, Cat(Deltas(ids))) && j < |ids|
    ensures At(data, pos + Start(Deltas(ids), j), Uv(Delta(ids, j)))
    ensures Start(Deltas(ids), j + 1) == Start(Deltas(ids), j) + |Uv(Delta(ids, j))|
    ensures pos + Start(Deltas(ids), j) <= |data|
  {
    hide At, Cat, Uv, Start;
    PartAt(data, pos, Deltas(ids), j);
    UvInRange(data, pos + Start(Deltas(ids), j), Delta(ids, j));
  }

  lemma PostHead(data: Bytes, pos: nat, ids: seq<nat>)
    requires Ascending(ids) && At(data, pos, PostBytes(ids))
    ensures pos <= |data| && At(data, pos, Uv(|ids|)) && At(data, pos + |Uv(|ids|)|, Cat(Deltas(ids)))
    ensures Start(Deltas(ids), 0) == 0
  {
    hide At, Cat, Uv, Deltas, Start;
    AtPieces(data, pos, Uv(|ids|), Cat(Deltas(ids)));
    UvInRange(data, pos, |ids|);
    StartEnd(Deltas(ids));
  }

  /** Adding a distance, in 32 bits, to the id before it. */
  lemma DeltaStep(ids: seq<nat>, j: nat)
    requires Ascending(ids) && j < |ids| && ids[j] < U32
    ensures ((if j == 0 then 0 else ids[j - 1]) + Delta(ids, j) % U32) % U32 == ids[j] && Delta(ids, j) < U64
  {
  }

  /** One id: the distance is added to the id before it, in 32 bits. */
  method ReadDelta(data: Bytes, ghost base: nat, p: nat, prev: nat, j: nat, ghost want: seq<nat>) returns (id: nat, next: nat)
    requires Ascending(want) && At(data, base, Cat(Deltas(want))) && j < |want| && want[j] < U32
    requires p == base + Start(Deltas(want), j) && prev == if j == 0 then 0 else want[j - 1]
    ensures id == want[j] && next == base + Start(Deltas(want), j + 1)
  {
    DeltaPlace(data, base, want, j);
    DeltaStep(want, j);
    hide Ascending, At, Cat, Start, Deltas, Delta, Uv;
    var delta, q := ReadUvarint(data, p, Delta(want, j));
    id, next := (prev + delta % U32) % U32, q;
  }

  method ReadPosting(data: Bytes, pos: nat, ghost want: seq<nat>) returns (ids: seq<nat>)
    requires Ascending(want) && At(data, pos, PostBytes(want)) && |want| < U64 && forall j :: 0 <= j < |want| ==> want[j] < U32
    ensures ids == want
  {
    hide *;
    PostHead(data, pos, want);
    var n, next := ReadUvarint(data, pos, |want|);
    ids := [];
    ghost var base := pos + |Uv(|want|)|;
    var p: nat := next;
    var prev := 0;
    for j := 0 to n
      invariant n == |want| && ids == want[..j]
      invariant p == base + Start(Deltas(want), j)
      invariant prev == if j == 0 then 0 else want[j - 1]
    {
      prev, p := ReadDelta(data, base, p, prev, j, want);
      ids := ids + [prev];
    }
  }

  /** The posting list of a trigram, or nothing when the shard does not have it. */
  method Posting(s: Shard, k: nat, ghost fs: seq<BuildFile>, ghost keys: seq<nat>, ghost tri: Postings) returns (ids: Option<seq<nat>>)
    requires Describes(s, fs, keys, tri)
    ensures ids == if k in tri then Some(tri[k]) else None
  {
    hide *;
    Unpack(s, fs, keys, tri);
    KeysAscend(keys, tri);
    var lo := SearchKeys(s, k, fs, keys, tri);
    FoundIffPresent(keys, k, lo);
    if lo >= s.numTri { return None; }
    HeadedKey(s, fs, keys, tri, lo);
    if Field(s.data, s.triIdx + lo * 4, 4) != k { return None; }
    PostPlace(s, fs, keys, tri, lo);
    var off := Field(s.data, s.triIdx + s.numTri * 4 + lo * 4, 4);
    var list := ReadPosting(s.data, s.postings + off, tri[k]);
    ids := Some(list);
  }

  // ---- candidates ----

  /** The trigram keys of a literal in ascending order. */
  method TrigramsOfLit(lit: Bytes) returns (tris: seq<nat>)
    ensures Ascending(tris) && forall k: nat :: k in tris <==> k in Tris(lit)
  {
    var keys := TrigramKeys(lit);
    hide Tris;
    tris := [];
    for i := 0 to |keys|
      invariant Ascending(tris) && forall k: nat :: k in tris <==> k in keys[..i]
    {
      assert keys[..i + 1] == keys[..i] + [keys[i]];
      assert keys[i] !in keys[..i];
      tris := InsertKey(tris, keys[i]);
    }
    assert keys[..|keys|] == keys;
  }

  /** The ids on the lists of all of the literal's trigrams. */
  ghost predicate OnLists(ids: seq<nat>, tri: Postings, lit: Bytes) {
    Ascending(ids) && forall x :: x in ids <==> forall k :: k in Tris(lit) ==> x in Ids(tri, k)
  }

  ghost predicate OnFirst(ids: seq<nat>, tri: Postings, tris: seq<nat>, n: nat)
    requires n <= |tris|
  {
    Ascending(ids) && forall x :: x in ids <==> forall j :: 0 <= j < n ==> x in Ids(tri, tris[j])
  }

  lemma OnAll(ids: seq<nat>, tri: Postings, tris: seq<nat>, lit: Bytes)
    requires OnFirst(ids, tri, tris, |tris|) && forall k: nat :: k in tris <==> k in Tris(lit)
    ensures OnLists(ids, tri, lit)
  {
    hide Tris, Ids;
    forall x ensures x in ids <==> forall k :: k in Tris(lit) ==> x in Ids(tri, k) {
      if forall j :: 0 <= j < |tris| ==> x in Ids(tri, tris[j]) {
        forall k | k in Tris(lit) ensures x in Ids(tri, k) {
          var j :| 0 <= j < |tris| && tris[j] == k;
        }
      }
      if forall k :: k in Tris(lit) ==> x in Ids(tri, k) {
        forall j | 0 <= j < |tris| ensures x in Ids(tri, tris[j]) { assert tris[j] in tris; }
      }
    }
  }

  /** Nothing is on all lists once nothing is on the first `n`. */
  lemma NoneOnAll(tri: Postings, tris: seq<nat>, n: nat, lit: Bytes)
    requires n <= |tris| && OnFirst([], tri, tris, n) && forall k: nat :: k in tris <==> k in Tris(lit)
    ensures OnLists([], tri, lit)
  {
    hide Ids, Tris;
    var none: seq<nat> := [];
    forall x ensures x in none <==> forall j :: 0 <= j < |tris| ==> x in Ids(tri, tris[j]) {
      assert x in none <==> forall j :: 0 <= j < n ==> x in Ids(tri, tris[j]);
    }
    OnAll([], tri, tris, lit);
  }

  lemma NextList(ids: seq<nat>, next: seq<nat>, tri: Postings, tris: seq<nat>, n: nat)
    requires n < |tris| && Ascending(next) && (n > 0 ==> OnFirst(ids, tri, tris, n))
    requires forall x :: x in next <==> (n == 0 || x in ids) && x in Ids(tri, tris[n])
    ensures OnFirst(next, tri, tris, n + 1)
  {
    hide Ids, Ascending;
    forall x ensures x in next <==> forall j :: 0 <= j < n + 1 ==> x in Ids(tri, tris[j]) {
      if x in next && n > 0 { assert x in ids; }
    }
  }

  lemma AbsentList(tri: Postings, tris: seq<nat>, n: nat)
    requires n < |tris| && tris[n] !in tri
    ensures OnFirst([], tri, tris, n + 1)
  {
    var none: seq<nat> := [];
    forall x ensures x in none <==> forall j :: 0 <= j < n + 1 ==> x in Ids(tri, tris[j]) {
      assert x !in Ids(tri, tris[n]);
    }
  }

  method CandidatesOfLong(s: Shard, lit: Bytes, ghost fs: seq<BuildFile>, ghost keys: seq<nat>, ghost tri: Postings) returns (ids: seq<nat>)
    requires Describes(s, fs, keys, tri) && |lit| >= 3
    ensures OnLists(ids, tri, lit)
  {
    var tris := TrigramsOfLit(lit);
    SomeKey(lit);
    hide Describes, OnLists, OnFirst, Tris;
    ids := [];
    for i := 0 to |tris|
      invariant i > 0 ==> OnFirst(ids, tri, tris, i) && Ascending(ids)
    {
      var list := Posting(s, tris[i], fs, keys, tri);
      if list.None? {
        AbsentList(tri, tris, i);
        NoneOnAll(tri, tris, i + 1, lit);
        return [];
      }
      ListAscends(s, fs, keys, tri, tris[i]);
      var next;
      if i == 0 { next := list.value; } else { next := Intersect(ids, list.value); }
      NextList(ids, next, tri, tris, i);
      ids := next;
      if i > 0 && |ids| == 0 {
        NoneOnAll(tri, tris, i + 1, lit);
        return [];
      }
    }
    OnAll(ids, tri, tris, lit);
  }

  lemma ListAscends(s: Shard, fs: seq<BuildFile>, keys: seq<nat>, tri: Postings, k: nat)
    requires Describes(s, fs, keys, tri) && k in tri
    ensures Ascending(tri[k])
  {
    hide Describes, Fits, Image, Cat;
    Unpack(s, fs, keys, tri);
  }

  method AllIds(n: nat) returns (ids: seq<nat>)
    ensures Ascending(ids) && forall x: nat :: x in ids <==> x < n
  {
    ids := [];
    for i := 0 to n
      invariant Ascending(ids) && forall x: nat :: x in ids <==> x < i
    {
      AscendingAppend(ids, i);
      ids := ids + [i];
    }
  }

  /** The trigram tables list, for each key, exactly the entries containing it. */
  ghost predicate Indexes(tri: Postings, entries: seq<Entry>, fs: seq<BuildFile>) {
    PostingsOk(entries, tri) && |entries| == |fs|
  }

  /** Ids of the files of the shard that contain every trigram of the literal, in
      ascending order; all of them for a literal under three bytes. */
  method Candidates(s: Shard, lit: Bytes, ghost fs: seq<BuildFile>, ghost keys: seq<nat>, ghost tri: Postings, ghost entries: seq<Entry>)
    returns (ids: seq<nat>)
    requires Describes(s, fs, keys, tri) && Indexes(tri, entries, fs)
    ensures Ascending(ids)
    ensures forall x: nat :: x in ids <==> x < |entries| && (|lit| < 3 || Tris(lit) <= Tris(entries[x].content))
  {
    Unpack(s, fs, keys, tri);
    hide Describes, OnLists, PostingsOk, Tris, Fits, KeysOf;
    if |lit| < 3 {
      ids := AllIds(s.numFiles);
    } else {
      ids := CandidatesOfLong(s, lit, fs, keys, tri);
      ListsAreFiles(ids, tri, lit, entries);
    }
  }

  lemma ListsAreFiles(ids: seq<nat>, tri: Postings, lit: Bytes, entries: seq<Entry>)
    requires |lit| >= 3 && OnLists(ids, tri, lit) && PostingsOk(entries, tri)
    ensures Ascending(ids)
    ensures forall x: nat :: x in ids <==> x < |entries| && Tris(lit) <= Tris(entries[x].content)
  {
    SomeKey(lit);
    hide Tris, Ids;
    forall x: nat, k: nat ensures x in Ids(tri, k) <==> x < |entries| && k in Tris(entries[x].content) {
      assert IndexSpec.Posting(Ids(tri, k), entries, k);
    }
    forall x: nat ensures x in ids <==> x < |entries| && Tris(lit) <= Tris(entries[x].content) {
      if x in ids { assert x in Ids(tri, TriKey(lit, 0)); }
    }
  }

  /** Whether every trigram of the literal is in the key table held in memory. */
  method HasTrigrams(s: Shard, lit: Bytes, ghost fs: seq<BuildFile>, ghost keys: seq<nat>, ghost tri: Postings) returns (b: bool)
    requires Describes(s, fs, keys, tri)
    ensures b <==> |lit| < 3 || Tris(lit) <= tri.Keys
  {
    if |lit| < 3 { return true; }
    var tris := TrigramsOfLit(lit);
    Unpack(s, fs, keys, tri);
    KeysAscend(keys, tri);
    hide *;
    b := TableHas(s.triKeys, tris);
  }

  method TableHas(keys: seq<nat>, tris: seq<nat>) returns (b: bool)
    requires Ascending(keys)
    ensures b <==> forall k :: k in tris ==> k in keys
  {
    hide Ascending, Found;
    for j := 0 to |tris|
      invariant forall i :: 0 <= i < j ==> tris[i] in keys
    {
      var i := SearchTable(keys, tris[j]);
      FoundIffPresent(keys, tris[j], i);
      if i >= |keys| || keys[i] != tris[j] {
        assert tris[j] in tris;
        return false;
      }
    }
    return true;
  }

  /** sort.Search on an ascending table. */
  method SearchTable(keys: seq<nat>, k: nat) returns (lo: nat)
    requires Ascending(keys)
    ensures Found(keys, k, lo)
  {
    hide Ascending, Found, Below, AtLeast;
    NoneBelow(keys, k);
    lo := 0;
    var hi := |keys|;
    while lo < hi
      invariant lo <= hi <= |keys| && Below(keys, k, lo) && AtLeast(keys, k, hi)
    {
      var mid := (lo + hi) / 2;
      Narrow(keys, k, mid);
      if keys[mid] < k { lo := mid + 1; } else { hi := mid; }
    }
    Met(keys, k, lo);
  }

  // ---- from builder to answers ----

  /** Opens the bytes a builder wrote and asks for candidates: skipping the shard when a
      trigram is missing from its key table loses no file, and otherwise the answer is
      exactly the files whose trigrams include the literal's. */
  method OpenAndAsk(data: Bytes, lit: Bytes, ghost fs: seq<BuildFile>, ghost tri: Postings, ghost entries: seq<Entry>)
    returns (ids: seq<nat>)
    requires IsShard(data, fs, tri) && Indexes(tri, entries, fs)
    ensures Ascending(ids)
    ensures forall x: nat :: x in ids <==> x < |entries| && (|lit| < 3 || Tris(lit) <= Tris(entries[x].content))
  {
    ghost var keys := KeysOfImage(data, fs, tri);
    hide *;
    var r := Open(data, fs, keys, tri);
    var s := r.value;
    var has := HasTrigrams(s, lit, fs, keys, tri);
    if !has {
      MissingTrigram(lit, tri, entries, fs);
      return [];
    }
    ids := Candidates(s, lit, fs, keys, tri, entries);
  }

  lemma MissingTrigram(lit: Bytes, tri: Postings, entries: seq<Entry>, fs: seq<BuildFile>)
    requires Indexes(tri, entries, fs) && !(Tris(lit) <= tri.Keys)
    ensures forall x: nat :: x < |entries| ==> !(Tris(lit) <= Tris(entries[x].content))
  {
    hide Tris;
    var k :| k in Tris(lit) && k !in tri;
    assert IndexSpec.Posting(Ids(tri, k), entries, k);
    assert Ids(tri, k) == [];
    forall x: nat | x < |entries| ensures k !in Tris(entries[x].content) {
      assert x !in Ids(tri, k);
    }
  }

  datatype ReadBack = ReadBack(meta: FileMeta, content: Option<Bytes>, defs: seq<Def>)

  /** What is read back of a file: everything, except that empty inlined content is absent. */
  function AsRead(f: BuildFile): ReadBack {
    ReadBack(FileMeta(f.path, f.size, f.mtime), if f.content == Some([]) then None else f.content, f.defs)
  }

  method ReadFile(s: Shard, i: nat, ghost fs: seq<BuildFile>, ghost keys: seq<nat>, ghost tri: Postings) returns (r: ReadBack)
    requires Describes(s, fs, keys, tri) && i < |fs|
    ensures r == AsRead(fs[i])
  {
    hide Describes;
    var fm := File(s, i, fs, keys, tri);
    var c := FileContent(s, i, fs, keys, tri);
    var ds := FileDefs(s, i, fs, keys, tri);
    r := ReadBack(fm, c, ds);
  }

  /** Opens the bytes a builder wrote and reads every file back. */
  method OpenAndList(data: Bytes, ghost fs: seq<BuildFile>, ghost tri: Postings) returns (files: seq<ReadBack>)
    requires IsShard(data, fs, tri)
    ensures |files| == |fs| && forall i :: 0 <= i < |fs| ==> files[i] == AsRead(fs[i])
  {
    ghost var keys := KeysOfImage(data, fs, tri);
    hide *;
    var r := Open(data, fs, keys, tri);
    files := ReadFiles(r.value, fs, keys, tri);
  }

  method ReadFiles(s: Shard, ghost fs: seq<BuildFile>, ghost keys: seq<nat>, ghost tri: Postings) returns (files: seq<ReadBack>)
    requires Describes(s, fs, keys, tri)
    ensures |files| == |fs| && forall i :: 0 <= i < |fs| ==> files[i] == AsRead(fs[i])
  {
    hide *;
    Count(s, fs, keys, tri);
    files := [];
    for i := 0 to s.numFiles
      invariant |files| == i && forall j :: 0 <= j < i ==> files[j] == AsRead(fs[j])
    {
      var f := ReadFile(s, i, fs, keys, tri);
      files := files + [f];
    }
  }

  lemma Count(s: Shard, fs: seq<BuildFile>, keys: seq<nat>, tri: Postings)
    requires Describes(s, fs, keys, tri)
    ensures s.numFiles == |fs|
  {
    hide Describes;
    Unpack(s, fs, keys, tri);
  }

  lemma KeysOfImage(data: Bytes, fs: seq<BuildFile>, tri: Postings) returns (keys: seq<nat>)
    requires IsShard(data, fs, tri)
    ensures ImageOf(data, fs, keys, tri)
  {
    hide ImageOf;
    keys :| ImageOf(data, fs, keys, tri);
  }
}
