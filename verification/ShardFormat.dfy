/** The shard file format, version 3 (internal/shard/shard.go, internal/shard/build.go):
    what the bytes of a shard are, section by section. A header of 64 bytes is followed by
    fixed-length file entries, the paths, the sorted trigram keys, the offset of each
    key's posting list, the posting lists, the definitions and the inlined contents. The
    writer and the reader are both proved against this one description. */
module ShardFormat {
  import opened Prelude
  import opened Bytes
  import opened Codec
  import opened Sorted
  import opened Literal
  import opened IndexSpec

  const HEADER_SIZE: nat := 64
  const FILE_ENTRY_LEN: nat := 32
  const FORMAT_VERSION: nat := 3
  const NO_CONTENT: nat := 0xFFFF_FFFF
  const MAGIC: Bytes := [71, 67, 83, 72, 65, 82, 68, 49]

  datatype Def = Def(name: Bytes, kind: Bytes, container: Bytes, line: nat)

  /** A file as the builder holds it; `content` is kept only when inlined. */
  datatype BuildFile = BuildFile(path: Bytes, size: int, mtime: int, defs: seq<Def>, content: Option<Bytes>)

  // ---- sections, part by part ----

  function Paths(fs: seq<BuildFile>): (r: seq<Bytes>)
    ensures |r| == |fs|
  {
    seq(|fs|, i requires 0 <= i < |fs| => fs[i].path)
  }

  function Inlined(f: BuildFile): Bytes {
    if f.content.Some? then f.content.value else []
  }

  function Contents(fs: seq<BuildFile>): (r: seq<Bytes>)
    ensures |r| == |fs|
  {
    seq(|fs|, i requires 0 <= i < |fs| => Inlined(fs[i]))
  }

  function ContentOff(fs: seq<BuildFile>, i: nat): nat
    requires i < |fs|
  {
    if fs[i].content.Some? then Start(Contents(fs), i) else NO_CONTENT
  }

  function EntryBytes(f: BuildFile, pathOff: nat, contentOff: nat): (r: Bytes)
    requires IsInt64(f.size) && IsInt64(f.mtime)
    ensures |r| == FILE_ENTRY_LEN
  {
    LE(pathOff, 4) + LE(|f.path|, 2) + [0, 0] + LE(Unsigned(f.size), 8) + LE(Unsigned(f.mtime), 8)
    + LE(contentOff, 4) + LE(|Inlined(f)|, 4)
  }

  predicate Stamped(fs: seq<BuildFile>) {
    forall i :: 0 <= i < |fs| ==> IsInt64(fs[i].size) && IsInt64(fs[i].mtime)
  }

  function Entries(fs: seq<BuildFile>): (r: seq<Bytes>)
    requires Stamped(fs)
    ensures |r| == |fs|
  {
    seq(|fs|, i requires 0 <= i < |fs| => EntryBytes(fs[i], Start(Paths(fs), i), ContentOff(fs, i)))
  }

  function Words(vs: seq<nat>): (r: seq<Bytes>)
    ensures |r| == |vs|
  {
    seq(|vs|, i requires 0 <= i < |vs| => LE(vs[i], 4))
  }

  /** Distance to the previous id; the first id counts from zero. */
  function Delta(ids: seq<nat>, i: nat): nat
    requires Ascending(ids) && i < |ids|
  {
    if i == 0 then ids[0] else ids[i] - ids[i - 1]
  }

  function Deltas(ids: seq<nat>): (r: seq<Bytes>)
    requires Ascending(ids)
    ensures |r| == |ids|
  {
    seq(|ids|, i requires 0 <= i < |ids| => Uv(Delta(ids, i)))
  }

  function PostBytes(ids: seq<nat>): Bytes
    requires Ascending(ids)
  {
    Uv(|ids|) + Cat(Deltas(ids))
  }

  /** `keys` lists the trigrams of `tri` in ascending order; every list is ascending. */
  ghost predicate KeysOf(keys: seq<nat>, tri: Postings) {
    && Ascending(keys)
    && (forall k :: k in keys <==> k in tri)
    && (forall k :: k in tri ==> Ascending(tri[k]))
  }

  ghost function Posts(keys: seq<nat>, tri: Postings): (r: seq<Bytes>)
    requires KeysOf(keys, tri)
    ensures |r| == |keys|
  {
    seq(|keys|, i requires 0 <= i < |keys| => PostBytes(tri[keys[i]]))
  }

  ghost function PostOffs(keys: seq<nat>, tri: Postings): (r: seq<nat>)
    requires KeysOf(keys, tri)
    ensures |r| == |keys|
  {
    seq(|keys|, i requires 0 <= i < |keys| => Start(Posts(keys, tri), i))
  }

  function Text(s: Bytes): Bytes {
    Uv(|s|) + s
  }

  function DefBytes(d: Def): Bytes {
    Text(d.name) + Text(d.kind) + Text(d.container) + Uv(d.line)
  }

  function DefParts(defs: seq<Def>): (r: seq<Bytes>)
    ensures |r| == |defs|
  {
    seq(|defs|, i requires 0 <= i < |defs| => DefBytes(defs[i]))
  }

  function DefsBytes(defs: seq<Def>): Bytes {
    Uv(|defs|) + Cat(DefParts(defs))
  }

  function Symbols(fs: seq<BuildFile>): (r: seq<Bytes>)
    ensures |r| == |fs|
  {
    seq(|fs|, i requires 0 <= i < |fs| => DefsBytes(fs[i].defs))
  }

  function NumSyms(fs: seq<BuildFile>): nat {
    if |fs| == 0 then 0 else NumSyms(fs[..|fs| - 1]) + |fs[|fs| - 1].defs|
  }

  /** All definitions, file by file. */
  function AllDefs(fs: seq<BuildFile>): seq<Def> {
    if |fs| == 0 then [] else fs[0].defs + AllDefs(fs[1..])
  }

  lemma {:induction false} AllDefsSnoc(fs: seq<BuildFile>)
    requires |fs| > 0
    ensures AllDefs(fs) == AllDefs(fs[..|fs| - 1]) + fs[|fs| - 1].defs
  {
    var n := |fs| - 1;
    if n > 0 {
      assert fs[..n][1..] == fs[1..][..n - 1];
      AllDefsSnoc(fs[1..]);
    }
  }

  lemma {:induction false} NumSymsCounts(fs: seq<BuildFile>)
    ensures NumSyms(fs) == |AllDefs(fs)|
  {
    if |fs| > 0 {
      AllDefsSnoc(fs);
      NumSymsCounts(fs[..|fs| - 1]);
    }
  }

  // ---- the whole file ----

  function TriIdxOff(n: nat, paths: Bytes): nat { HEADER_SIZE + n * FILE_ENTRY_LEN + |paths| }

  function PostOff(n: nat, paths: Bytes, m: nat): nat { TriIdxOff(n, paths) + m * 4 * 2 }

  function SymOff(n: nat, paths: Bytes, m: nat, posts: Bytes): nat { PostOff(n, paths, m) + |posts| }

  function CtOff(n: nat, paths: Bytes, m: nat, posts: Bytes, syms: Bytes, contents: Bytes): nat {
    if |contents| > 0 then SymOff(n, paths, m, posts) + |syms| else 0
  }

  function Header(n: nat, m: nat, numSyms: nat, paths: Bytes, posts: Bytes, syms: Bytes, contents: Bytes): (r: Bytes)
    ensures |r| == HEADER_SIZE
  {
    MAGIC + LE(FORMAT_VERSION, 4) + LE(n, 4) + LE(m, 4) + LE(numSyms, 4) + LE(HEADER_SIZE, 8)
    + LE(TriIdxOff(n, paths), 8) + LE(PostOff(n, paths, m), 8) + LE(SymOff(n, paths, m, posts), 8)
    + LE(CtOff(n, paths, m, posts, syms, contents), 8)
  }

  ghost function Sections(fs: seq<BuildFile>, keys: seq<nat>, tri: Postings): (r: seq<Bytes>)
    requires Stamped(fs) && KeysOf(keys, tri)
    ensures |r| == 8
  {
    var paths, posts, syms, contents := Cat(Paths(fs)), Cat(Posts(keys, tri)), Cat(Symbols(fs)), Cat(Contents(fs));
    [ Header(|fs|, |keys|, NumSyms(fs), paths, posts, syms, contents),
      Cat(Entries(fs)), paths, Cat(Words(keys)), Cat(Words(PostOffs(keys, tri))), posts, syms, contents ]
  }

  ghost function Image(fs: seq<BuildFile>, keys: seq<nat>, tri: Postings): Bytes
    requires Stamped(fs) && KeysOf(keys, tri)
  {
    Cat(Sections(fs, keys, tri))
  }

  predicate DefFits(d: Def) {
    |d.name| < U64 && |d.kind| < U64 && |d.container| < U64 && d.line < U64
  }

  /** Everything stays within its field: the shard is not truncated on the way out. */
  ghost predicate Fits(fs: seq<BuildFile>, keys: seq<nat>, tri: Postings) {
    && Stamped(fs) && KeysOf(keys, tri)
    && |fs| < U32 && |keys| < 0x4000_0000 && NumSyms(fs) < U32
    && |Cat(Paths(fs))| < U32 && |Cat(Posts(keys, tri))| < U32 && |Cat(Contents(fs))| < U32
    && |Image(fs, keys, tri)| < 0x8000_0000_0000_0000
    && (forall i :: 0 <= i < |fs| ==> |fs[i].path| < U16)
    && (forall i, j :: 0 <= i < |fs| && 0 <= j < |fs[i].defs| ==> DefFits(fs[i].defs[j]))
    && (forall k :: k in tri ==> k < U32 && |tri[k]| < U64 && forall j :: 0 <= j < |tri[k]| ==> tri[k][j] < U32)
  }

  /** `data` is the shard of `fs`, nothing truncated. */
  ghost predicate ImageOf(data: Bytes, fs: seq<BuildFile>, keys: seq<nat>, tri: Postings) {
    Fits(fs, keys, tri) && data == Image(fs, keys, tri)
  }

  // ---- where things are ----

  lemma EightSections(p: seq<Bytes>)
    requires |p| == 8
    ensures Start(p, 0) == 0 && Start(p, 1) == |p[0]| && Start(p, 2) == Start(p, 1) + |p[1]| && Start(p, 3) == Start(p, 2) + |p[2]|
    ensures Start(p, 4) == Start(p, 3) + |p[3]| && Start(p, 5) == Start(p, 4) + |p[4]| && Start(p, 6) == Start(p, 5) + |p[5]|
    ensures Start(p, 7) == Start(p, 6) + |p[6]| && |Cat(p)| == Start(p, 7) + |p[7]|
    ensures At(Cat(p), Start(p, 0), p[0]) && At(Cat(p), Start(p, 1), p[1]) && At(Cat(p), Start(p, 2), p[2]) && At(Cat(p), Start(p, 3), p[3])
    ensures At(Cat(p), Start(p, 4), p[4]) && At(Cat(p), Start(p, 5), p[5]) && At(Cat(p), Start(p, 6), p[6]) && At(Cat(p), Start(p, 7), p[7])
  {
    hide *;
    StartEnd(p);
    CatAt(p, 0); CatAt(p, 1); CatAt(p, 2); CatAt(p, 3); CatAt(p, 4); CatAt(p, 5); CatAt(p, 6); CatAt(p, 7);
  }

  /** The sections follow one another without gap or overlap, at the offsets the
      header announces. */
  lemma Layout(fs: seq<BuildFile>, keys: seq<nat>, tri: Postings)
    requires Stamped(fs) && KeysOf(keys, tri)
    ensures var s := Sections(fs, keys, tri); var data := Image(fs, keys, tri);
      var paths, posts := s[2], s[5];
      && At(data, 0, s[0])
      && At(data, HEADER_SIZE, s[1]) && |s[1]| == |fs| * FILE_ENTRY_LEN
      && At(data, HEADER_SIZE + |fs| * FILE_ENTRY_LEN, s[2])
      && At(data, TriIdxOff(|fs|, paths), s[3]) && |s[3]| == |keys| * 4
      && At(data, TriIdxOff(|fs|, paths) + |keys| * 4, s[4]) && |s[4]| == |keys| * 4
      && At(data, PostOff(|fs|, paths, |keys|), s[5])
      && At(data, SymOff(|fs|, paths, |keys|, posts), s[6])
      && At(data, SymOff(|fs|, paths, |keys|, posts) + |s[6]|, s[7])
      && |data| == SymOff(|fs|, paths, |keys|, posts) + |s[6]| + |s[7]|
  {
    hide Cat, At, Start, Header, Entries, Words, Sections, Image, KeysOf, Stamped;
    SectionLengths(fs, keys, tri);
    EightSections(Sections(fs, keys, tri));
  }

  lemma SectionLengths(fs: seq<BuildFile>, keys: seq<nat>, tri: Postings)
    requires Stamped(fs) && KeysOf(keys, tri)
    ensures var s := Sections(fs, keys, tri);
      Image(fs, keys, tri) == Cat(s) && |s[0]| == HEADER_SIZE && |s[1]| == |fs| * FILE_ENTRY_LEN && |s[3]| == |keys| * 4 && |s[4]| == |keys| * 4
  {
    hide Cat, At, Header, EntryBytes, LE;
    FixedLength(Entries(fs), FILE_ENTRY_LEN);
    FixedLength(Words(keys), 4);
    FixedLength(Words(PostOffs(keys, tri)), 4);
  }

  lemma FixedLength(parts: seq<Bytes>, w: nat)
    requires forall k :: 0 <= k < |parts| ==> |parts[k]| == w
    ensures |Cat(parts)| == |parts| * w
  {
    hide Cat;
    CatFixed(parts, w, |parts|);
    StartEnd(parts);
  }
}
