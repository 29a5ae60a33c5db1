/** Reading a shard back (internal/shard/shard.go). Opening checks the length and the
    header, reads the first and the last path for the shard's range, and loads the key
    table. The reader works on offsets into the bytes alone; that these are the offsets
    at which the writer put things is what the lemmas here establish, field by field. It
    never reads out of bounds, whatever the bytes are. */
module ShardRead {
  import opened Prelude
  import opened Bytes
  import opened Codec
  import opened Sorted
  import opened Literal
  import opened IndexSpec
  import opened MemIndex
  import opened ShardFormat
  import opened ShardBuild

  datatype FileMeta = FileMeta(path: Bytes, size: int, mtime: int)

  datatype OpenError = TooSmall | BadMagic | BadVersion(version: nat) | BadPathMin | BadPathMax | BadTriKeys
  datatype Result<T> = Ok(value: T) | Err(error: OpenError)

  /** The descriptor of an opened shard together with its mapped data. */
  datatype Shard = Shard(data: Bytes, numFiles: nat, numTri: nat, numSyms: nat,
                         fileTbl: int, triIdx: int, postings: int, symbolOff: int, contentOff: int,
                         pathMin: Bytes, pathMax: Bytes, triKeys: seq<nat>)
  {
    function PathBlob(): int { fileTbl + numFiles * FILE_ENTRY_LEN }
  }

  // ---- what the header of a written shard says ----

  /** The offsets and counts recorded in `s` are those of the shard of `fs`. */
  ghost predicate HeaderOk(s: Shard, fs: seq<BuildFile>, keys: seq<nat>, tri: Postings)
    requires Stamped(fs) && KeysOf(keys, tri)
  {
    var paths, posts, syms, contents := Cat(Paths(fs)), Cat(Posts(keys, tri)), Cat(Symbols(fs)), Cat(Contents(fs));
    && s.data == Image(fs, keys, tri)
    && s.numFiles == |fs| && s.numTri == |keys| && s.numSyms == NumSyms(fs)
    && s.fileTbl == HEADER_SIZE && s.triIdx == TriIdxOff(|fs|, paths) && s.postings == PostOff(|fs|, paths, |keys|)
    && s.symbolOff == SymOff(|fs|, paths, |keys|, posts)
    && s.contentOff == CtOff(|fs|, paths, |keys|, posts, syms, contents)
  }

  /** `s` has the header of the shard of `fs`. */
  ghost predicate Headed(s: Shard, fs: seq<BuildFile>, keys: seq<nat>, tri: Postings) {
    Fits(fs, keys, tri) && HeaderOk(s, fs, keys, tri)
  }

  /** `s` is the opened shard of `fs`. */
  ghost predicate Describes(s: Shard, fs: seq<BuildFile>, keys: seq<nat>, tri: Postings) {
    && Headed(s, fs, keys, tri)
    && s.triKeys == keys
    && (fs != [] ==> s.pathMin == fs[0].path && s.pathMax == fs[|fs| - 1].path)
  }

  /** Field `b` follows `a`, which ends at `off`. */
  lemma SplitHead(data: Bytes, pos: nat, a: Bytes, off: nat, v: nat, n: nat)
    requires At(data, pos, a + LE(v, n)) && v < Pow256(n) && off == pos + |a|
    ensures At(data, pos, a) && off + n <= |data| && Field(data, off, n) == v
  {
    AtPieces(data, pos, a, LE(v, n));
    FieldAt(data, off, v, n);
  }

  /** The fields of a header, one after the other, from the end. */
  lemma HeaderTail(data: Bytes, h: Bytes, fileTbl: nat, t: nat, p: nat, s: nat, c: nat)
    requires |h| == 24 && At(data, 0, h + LE(fileTbl, 8) + LE(t, 8) + LE(p, 8) + LE(s, 8) + LE(c, 8))
    requires fileTbl < Pow256(8) && t < Pow256(8) && p < Pow256(8) && s < Pow256(8) && c < Pow256(8)
    ensures At(data, 0, h) && |data| >= 64
    ensures Field(data, 24, 8) == fileTbl && Field(data, 32, 8) == t && Field(data, 40, 8) == p
    ensures Field(data, 48, 8) == s && Field(data, 56, 8) == c
  {
    hide *;
    SplitHead(data, 0, h + LE(fileTbl, 8) + LE(t, 8) + LE(p, 8) + LE(s, 8), 56, c, 8);
    SplitHead(data, 0, h + LE(fileTbl, 8) + LE(t, 8) + LE(p, 8), 48, s, 8);
    SplitHead(data, 0, h + LE(fileTbl, 8) + LE(t, 8), 40, p, 8);
    SplitHead(data, 0, h + LE(fileTbl, 8), 32, t, 8);
    SplitHead(data, 0, h, 24, fileTbl, 8);
  }

  lemma HeaderStart(data: Bytes, magic: Bytes, version: nat, n: nat, m: nat, numSyms: nat)
    requires |magic| == 8 && At(data, 0, magic + LE(version, 4) + LE(n, 4) + LE(m, 4) + LE(numSyms, 4))
    requires version < Pow256(4) && n < Pow256(4) && m < Pow256(4) && numSyms < Pow256(4)
    ensures At(data, 0, magic) && |data| >= 24
    ensures Field(data, 8, 4) == version && Field(data, 12, 4) == n && Field(data, 16, 4) == m && Field(data, 20, 4) == numSyms
  {
    hide *;
    SplitHead(data, 0, magic + LE(version, 4) + LE(n, 4) + LE(m, 4), 20, numSyms, 4);
    SplitHead(data, 0, magic + LE(version, 4) + LE(n, 4), 16, m, 4);
    SplitHead(data, 0, magic + LE(version, 4), 12, n, 4);
    SplitHead(data, 0, magic, 8, version, 4);
  }

  /** Every header field is read back as written. */
  lemma HeaderFields(data: Bytes, n: nat, m: nat, numSyms: nat, paths: Bytes, posts: Bytes, syms: Bytes, contents: Bytes)
    requires At(data, 0, Header(n, m, numSyms, paths, posts, syms, contents))
    requires n < U32 && m < U32 && numSyms < U32
    requires SymOff(n, paths, m, posts) + |syms| < 0x8000_0000_0000_0000
    ensures |data| >= 64 && data[..8] == MAGIC && Field(data, 8, 4) == FORMAT_VERSION
    ensures Field(data, 12, 4) == n && Field(data, 16, 4) == m && Field(data, 20, 4) == numSyms
    ensures Field(data, 24, 8) == HEADER_SIZE && Field(data, 32, 8) == TriIdxOff(n, paths)
    ensures Field(data, 40, 8) == PostOff(n, paths, m) && Field(data, 48, 8) == SymOff(n, paths, m, posts)
    ensures Field(data, 56, 8) == CtOff(n, paths, m, posts, syms, contents)
  {
    hide At, Field, LE, Pow256;
    Widths();
    var h := MAGIC + LE(FORMAT_VERSION, 4) + LE(n, 4) + LE(m, 4) + LE(numSyms, 4);
    HeaderTail(data, h, HEADER_SIZE, TriIdxOff(n, paths), PostOff(n, paths, m), SymOff(n, paths, m, posts), CtOff(n, paths, m, posts, syms, contents));
    HeaderStart(data, MAGIC, FORMAT_VERSION, n, m, numSyms);
    MagicAt(data);
  }

  lemma MagicAt(data: Bytes)
    requires At(data, 0, MAGIC)
    ensures |data| >= 8 && data[..8] == MAGIC
  {
    assert |MAGIC| == 8;
  }

  // ---- file table ----

  /** The sections of the image by name. */
  lemma Places(fs: seq<BuildFile>, keys: seq<nat>, tri: Postings)
    requires Stamped(fs) && KeysOf(keys, tri)
    ensures var data := Image(fs, keys, tri);
      var paths, posts, syms, contents := Cat(Paths(fs)), Cat(Posts(keys, tri)), Cat(Symbols(fs)), Cat(Contents(fs));
      var m := |keys|;
      && At(data, 0, Header(|fs|, m, NumSyms(fs), paths, posts, syms, contents))
      && At(data, 64, Cat(Entries(fs)))
      && At(data, 64 + |fs| * 32, paths)
      && At(data, TriIdxOff(|fs|, paths), Cat(Words(keys)))
      && At(data, TriIdxOff(|fs|, paths) + m * 4, Cat(Words(PostOffs(keys, tri))))
      && At(data, PostOff(|fs|, paths, m), posts)
      && At(data, SymOff(|fs|, paths, m, posts), syms)
      && At(data, SymOff(|fs|, paths, m, posts) + |syms|, contents)
      && |data| == SymOff(|fs|, paths, m, posts) + |syms| + |contents|
  {
    hide Image, At, Cat, Start, KeysOf, Stamped, TriIdxOff, PostOff, SymOff, Header, Entries, Words, PostOffs;
    Layout(fs, keys, tri);
  }

  /** Fixed-width part `i` of a section. */
  lemma FixedPart(data: Bytes, off: nat, parts: seq<Bytes>, w: nat, i: nat)
    requires At(data, off, Cat(parts)) && i < |parts| && forall k :: 0 <= k < |parts| ==> |parts[k]| == w
    ensures At(data, off + i * w, parts[i])
  {
    hide Cat, At, Start;
    CatAt(parts, i);
    CatFixed(parts, w, i);
    AtWithin(data, off, Cat(parts), i * w, parts[i]);
  }

  /** Part `i` of a section. */
  lemma PartAt(data: Bytes, off: nat, parts: seq<Bytes>, i: nat)
    requires At(data, off, Cat(parts)) && i < |parts|
    ensures At(data, off + Start(parts, i), parts[i]) && Start(parts, i) + |parts[i]| == Start(parts, i + 1) <= |Cat(parts)|
  {
    hide Cat, At, Start;
    CatAt(parts, i);
    AtWithin(data, off, Cat(parts), Start(parts, i), parts[i]);
  }

  /** Where entry `i` and its path are. */
  lemma EntryPlace(fs: seq<BuildFile>, keys: seq<nat>, tri: Postings, i: nat)
    requires Stamped(fs) && KeysOf(keys, tri) && i < |fs|
    ensures var data := Image(fs, keys, tri);
      && At(data, 64 + i * 32, EntryBytes(fs[i], Start(Paths(fs), i), ContentOff(fs, i)))
      && At(data, 64 + |fs| * 32 + Start(Paths(fs), i), fs[i].path)
      && Start(Paths(fs), i) + |fs[i].path| <= |Cat(Paths(fs))|
  {
    hide Image, At, Cat, Start, EntryBytes, KeysOf, TriIdxOff, PostOff, SymOff, Header, ContentOff;
    Places(fs, keys, tri);
    FixedPart(Image(fs, keys, tri), 64, Entries(fs), 32, i);
    PartAt(Image(fs, keys, tri), 64 + |fs| * 32, Paths(fs), i);
  }

  lemma EntryFields(data: Bytes, off: nat, f: BuildFile, pathOff: nat, contentOff: nat)
    requires IsInt64(f.size) && IsInt64(f.mtime) && At(data, off, EntryBytes(f, pathOff, contentOff))
    requires pathOff < U32 && |f.path| < U16 && contentOff < U32 && |Inlined(f)| < U32
    ensures off + 32 <= |data|
    ensures Field(data, off, 4) == pathOff && Field(data, off + 4, 2) == |f.path|
    ensures Field(data, off + 8, 8) == Unsigned(f.size) && Field(data, off + 16, 8) == Unsigned(f.mtime)
    ensures Field(data, off + 24, 4) == contentOff && Field(data, off + 28, 4) == |Inlined(f)|
  {
    hide At, Field, LE, Pow256, Unsigned, Inlined;
    Widths();
    var e2 := LE(pathOff, 4) + LE(|f.path|, 2);
    EntryTail(data, off, e2 + [0, 0], Unsigned(f.size), Unsigned(f.mtime), contentOff, |Inlined(f)|);
    AtPieces(data, off, e2, [0, 0]);
    SplitHead(data, off, LE(pathOff, 4), off + 4, |f.path|, 2);
    FieldAt(data, off, pathOff, 4);
  }

  lemma EntryTail(data: Bytes, off: nat, e: Bytes, size: nat, mtime: nat, contentOff: nat, contentLen: nat)
    requires |e| == 8 && At(data, off, e + LE(size, 8) + LE(mtime, 8) + LE(contentOff, 4) + LE(contentLen, 4))
    requires size < Pow256(8) && mtime < Pow256(8) && contentOff < Pow256(4) && contentLen < Pow256(4)
    ensures At(data, off, e) && off + 32 <= |data| && Field(data, off + 8, 8) == size && Field(data, off + 16, 8) == mtime
    ensures Field(data, off + 24, 4) == contentOff && Field(data, off + 28, 4) == contentLen
  {
    hide *;
    SplitHead(data, off, e + LE(size, 8) + LE(mtime, 8) + LE(contentOff, 4), off + 28, contentLen, 4);
    SplitHead(data, off, e + LE(size, 8) + LE(mtime, 8), off + 24, contentOff, 4);
    SplitHead(data, off, e + LE(size, 8), off + 16, mtime, 8);
    SplitHead(data, off, e, off + 8, size, 8);
  }

  lemma EntryFits(fs: seq<BuildFile>, keys: seq<nat>, tri: Postings, i: nat)
    requires Fits(fs, keys, tri) && i < |fs|
    ensures Stamped(fs) && KeysOf(keys, tri) && IsInt64(fs[i].size) && IsInt64(fs[i].mtime)
    ensures |Inlined(fs[i])| < U32 && ContentOff(fs, i) < U32 && Start(Paths(fs), i) < U32 && |fs[i].path| < U16
    ensures Inlined(fs[i]) != [] ==> ContentOff(fs, i) == Start(Contents(fs), i) != NO_CONTENT
  {
    CatAt(Contents(fs), i);
    CatAt(Paths(fs), i);
    hide Cat, Image;
  }

  /** All that the reader looks up in entry `i`. */
  lemma EntryReads(fs: seq<BuildFile>, keys: seq<nat>, tri: Postings, i: nat)
    requires Fits(fs, keys, tri) && i < |fs|
    ensures Stamped(fs) && KeysOf(keys, tri) && IsInt64(fs[i].size) && IsInt64(fs[i].mtime)
    ensures var data := Image(fs, keys, tri); var off := 64 + i * 32;
      && off + 32 <= |data|
      && Field(data, off, 4) == Start(Paths(fs), i) && Field(data, off + 4, 2) == |fs[i].path|
      && Field(data, off + 8, 8) == Unsigned(fs[i].size) && Field(data, off + 16, 8) == Unsigned(fs[i].mtime)
      && Field(data, off + 24, 4) == ContentOff(fs, i) && Field(data, off + 28, 4) == |Inlined(fs[i])|
      && At(data, 64 + |fs| * 32 + Start(Paths(fs), i), fs[i].path)
  {
    hide *;
    EntryFits(fs, keys, tri, i);
    EntryPlace(fs, keys, tri, i);
    EntryFields(Image(fs, keys, tri), 64 + i * 32, fs[i], Start(Paths(fs), i), ContentOff(fs, i));
  }

  // ---- opening ----

  /** os.File.ReadAt: fails when the range is not wholly inside the file. */
  function ReadAt(data: Bytes, off: int, n: nat): (r: Option<Bytes>)
    ensures r.Some? ==> |r.value| == n
  {
    if off < 0 then None
    else if n == 0 then Some([])
    else if off + n <= |data| then Some(data[off..off + n])
    else None
  }

  /** The entry at `off` names the path found in the path blob. */
  ghost predicate PathThere(data: Bytes, off: int, pathBlob: int, path: Bytes) {
    && 0 <= off && off + 6 <= |data| && 0 <= pathBlob
    && Field(data, off + 4, 2) == |path|
    && At(data, pathBlob + Field(data, off, 4), path)
  }

  method ReadPathAt(data: Bytes, fileTbl: int, pathBlob: int, i: int, ghost path: Bytes) returns (r: Option<Bytes>)
    ensures PathThere(data, fileTbl + i * 32, pathBlob, path) ==> r == Some(path)
    ensures r.Some? ==> 0 <= fileTbl + i * 32 <= |data| - 6
  {
    var off := fileTbl + i * FILE_ENTRY_LEN;
    var ent := ReadAt(data, off, 6);
    if ent.None? { return None; }
    var pOff, pLen := Field(ent.value, 0, 4), Field(ent.value, 4, 2);
    assert ent.value[0..4] == data[off..off + 4] && ent.value[4..6] == data[off + 4..off + 6];
    r := ReadAt(data, pathBlob + pOff, pLen);
    assert path == [] ==> |path| == 0;
  }

  /** The trigram key table: `n` words. */
  method ReadKeys(bytes: Bytes, n: nat) returns (keys: seq<nat>)
    requires |bytes| == n * 4
    ensures |keys| == n && forall i :: 0 <= i < n ==> keys[i] == Field(bytes, i * 4, 4)
  {
    keys := [];
    for i := 0 to n
      invariant |keys| == i && forall k :: 0 <= k < i ==> keys[k] == Field(bytes, k * 4, 4)
    {
      keys := keys + [Field(bytes, i * 4, 4)];
    }
  }

  method ReadHeader(data: Bytes, ghost fs: seq<BuildFile>, ghost keys: seq<nat>, ghost tri: Postings) returns (r: Result<Shard>)
    ensures |data| < 64 <==> r == Err(TooSmall)
    ensures |data| >= 64 && data[..8] != MAGIC <==> r == Err(BadMagic)
    ensures |data| >= 64 && data[..8] == MAGIC && Field(data, 8, 4) != FORMAT_VERSION <==> r.Err? && r.error.BadVersion?
    ensures r.Err? ==> r.error.TooSmall? || r.error.BadMagic? || r.error.BadVersion?
    ensures r.Ok? ==> r.value.data == data && r.value.triKeys == []
    ensures ImageOf(data, fs, keys, tri) ==> r.Ok? && Headed(r.value, fs, keys, tri)
  {
    ghost var ok := ImageOf(data, fs, keys, tri);
    if ok { HeaderReads(fs, keys, tri); }
    hide Fits, Image, Cat, Field, KeysOf, Stamped, TriIdxOff, PostOff, SymOff, CtOff, NumSyms;
    if |data| < 64 { return Err(TooSmall); }
    if data[..8] != MAGIC { return Err(BadMagic); }
    var ver := Field(data, 8, 4);
    if ver != FORMAT_VERSION { return Err(BadVersion(ver)); }
    return Ok(Shard(data, Field(data, 12, 4), Field(data, 16, 4), Field(data, 20, 4),
                    Signed(Field(data, 24, 8)), Signed(Field(data, 32, 8)), Signed(Field(data, 40, 8)),
                    Signed(Field(data, 48, 8)), Signed(Field(data, 56, 8)), [], [], []));
  }

  /** Byte count of a key table of `n` words, computed in 32 bits. */
  function KeyTableSize(n: nat): nat { n * 4 % U32 }

  lemma SmallKeyTable(n: nat)
    requires n < 0x4000_0000
    ensures KeyTableSize(n) == n * 4
  {
  }

  /** The key table as a list, or an error when it reaches past the end. */
  method ReadKeyTable(s: Shard, ghost fs: seq<BuildFile>, ghost keys: seq<nat>, ghost tri: Postings) returns (r: Option<seq<nat>>)
    ensures Headed(s, fs, keys, tri) ==> r == Some(keys)
  {
    hide *;
    ghost var ok := Headed(s, fs, keys, tri);
    if ok { KeyTableInRange(s, fs, keys, tri); SmallKeyTable(|keys|); }
    if s.numTri == 0 { return Some([]); }
    var bytes := ReadAt(s.data, s.triIdx, KeyTableSize(s.numTri));
    if ok { InRange(s.data, s.triIdx, |keys| * 4); }
    if bytes.None? || |bytes.value| != s.numTri * 4 { return None; }
    var ks := ReadKeys(bytes.value, s.numTri);
    if ok { KeysRead(s, fs, keys, tri, bytes.value, ks); }
    r := Some(ks);
  }

  lemma InRange(data: Bytes, off: int, n: nat)
    requires 0 <= off && off + n <= |data|
    ensures ReadAt(data, off, n) == Some(data[off..off + n])
  {
    assert n == 0 ==> data[off..off + n] == [];
  }

  /** The smallest and largest path: those of the first and the last entry. */
  method ReadRange(s: Shard, ghost fs: seq<BuildFile>, ghost keys: seq<nat>, ghost tri: Postings) returns (r: Result<Shard>)
    ensures r.Ok? ==> r.value == s.(pathMin := r.value.pathMin, pathMax := r.value.pathMax)
    ensures Headed(s, fs, keys, tri) ==>
      r.Ok? && (fs != [] ==> r.value.pathMin == fs[0].path && r.value.pathMax == fs[|fs| - 1].path)
    ensures r.Err? ==> r.error.BadPathMin? || r.error.BadPathMax?
  {
    hide *;
    ghost var ok := Headed(s, fs, keys, tri);
    if ok { PathsRead(s, fs, keys, tri); }
    if s.numFiles == 0 { return Ok(s); }
    var p := ReadPathAt(s.data, s.fileTbl, s.PathBlob(), 0, if ok then fs[0].path else []);
    if p.None? { return Err(BadPathMin); }
    var q := ReadPathAt(s.data, s.fileTbl, s.PathBlob(), s.numFiles - 1, if ok then fs[|fs| - 1].path else []);
    if q.None? { return Err(BadPathMax); }
    r := Ok(s.(pathMin := p.value, pathMax := q.value));
  }

  /** Reads and checks the header, then the path range and the key table. Opening the
      shard written for `fs` succeeds and describes it. */
  method Open(data: Bytes, ghost fs: seq<BuildFile>, ghost keys: seq<nat>, ghost tri: Postings) returns (r: Result<Shard>)
    ensures |data| < 64 <==> r == Err(TooSmall)
    ensures |data| >= 64 && data[..8] != MAGIC <==> r == Err(BadMagic)
    ensures r.Ok? ==> |data| >= 64 && data[..8] == MAGIC && Field(data, 8, 4) == FORMAT_VERSION && r.value.data == data
    ensures ImageOf(data, fs, keys, tri) ==> r.Ok? && Describes(r.value, fs, keys, tri)
  {
    hide *;
    ghost var ok := ImageOf(data, fs, keys, tri);
    r := ReadHeader(data, fs, keys, tri);
    if r.Err? { return; }
    var h := r.value;
    r := ReadRange(h, fs, keys, tri);
    if r.Err? { return; }
    var s := r.value;
    if ok { RangeKeepsHeader(h, s, fs, keys, tri); }
    var ks := ReadKeyTable(s, fs, keys, tri);
    if ks.None? { return Err(BadTriKeys); }
    if ok { IsDescribed(s, s.(triKeys := ks.value), fs, keys, tri); }
    r := Ok(s.(triKeys := ks.value));
  }

  lemma IsDescribed(s: Shard, s': Shard, fs: seq<BuildFile>, keys: seq<nat>, tri: Postings)
    requires Headed(s, fs, keys, tri) && s' == s.(triKeys := keys)
    requires fs != [] ==> s.pathMin == fs[0].path && s.pathMax == fs[|fs| - 1].path
    ensures Describes(s', fs, keys, tri)
  {
    hide Fits, Image, Cat;
    RangeKeepsHeader(s, s', fs, keys, tri);
  }

  /** The header does not speak of the path range or the key table. */
  lemma RangeKeepsHeader(s: Shard, s': Shard, fs: seq<BuildFile>, keys: seq<nat>, tri: Postings)
    requires Headed(s, fs, keys, tri)
    requires s' == s.(pathMin := s'.pathMin, pathMax := s'.pathMax, triKeys := s'.triKeys)
    ensures Headed(s', fs, keys, tri)
  {
    hide Fits, Image, Cat;
  }

  lemma PathsRead(s: Shard, fs: seq<BuildFile>, keys: seq<nat>, tri: Postings)
    requires Headed(s, fs, keys, tri)
    ensures s.numFiles == |fs| && s.fileTbl == 64 && s.PathBlob() == 64 + |fs| * 32 && FILE_ENTRY_LEN == 32
    ensures |fs| > 0 ==> PathThere(s.data, 64, 64 + |fs| * 32, fs[0].path)
    ensures |fs| > 0 ==> PathThere(s.data, 64 + (|fs| - 1) * 32, 64 + |fs| * 32, fs[|fs| - 1].path)
  {
    hide Image, Cat, PathThere, KeysOf, Stamped, Fits;
    if |fs| > 0 {
      PathReads(fs, keys, tri, 0);
      PathReads(fs, keys, tri, |fs| - 1);
    }
  }

  lemma PathReads(fs: seq<BuildFile>, keys: seq<nat>, tri: Postings, i: nat)
    requires Fits(fs, keys, tri) && i < |fs|
    ensures Stamped(fs) && KeysOf(keys, tri)
    ensures PathThere(Image(fs, keys, tri), 64 + i * 32, 64 + |fs| * 32, fs[i].path)
  {
    hide Fits, Image, At, Field, Start;
    EntryReads(fs, keys, tri, i);
  }

  lemma HeaderReads(fs: seq<BuildFile>, keys: seq<nat>, tri: Postings)
    requires Fits(fs, keys, tri)
    ensures Stamped(fs) && KeysOf(keys, tri)
    ensures var data := Image(fs, keys, tri);
      var paths, posts, syms, contents := Cat(Paths(fs)), Cat(Posts(keys, tri)), Cat(Symbols(fs)), Cat(Contents(fs));
      var n, m := |fs|, |keys|;
      && |data| >= 64 && data[..8] == MAGIC && Field(data, 8, 4) == FORMAT_VERSION
      && Field(data, 12, 4) == n && Field(data, 16, 4) == m && Field(data, 20, 4) == NumSyms(fs)
      && Signed(Field(data, 24, 8)) == 64 && Signed(Field(data, 32, 8)) == TriIdxOff(n, paths)
      && Signed(Field(data, 40, 8)) == PostOff(n, paths, m) && Signed(Field(data, 48, 8)) == SymOff(n, paths, m, posts)
      && Signed(Field(data, 56, 8)) == CtOff(n, paths, m, posts, syms, contents)
  {
    var paths, posts, syms, contents := Cat(Paths(fs)), Cat(Posts(keys, tri)), Cat(Symbols(fs)), Cat(Contents(fs));
    Places(fs, keys, tri);
    hide Image, Cat, At, Field, Header, KeysOf, NumSyms;
    HeaderFields(Image(fs, keys, tri), |fs|, |keys|, NumSyms(fs), paths, posts, syms, contents);
  }

  lemma KeyFits(fs: seq<BuildFile>, keys: seq<nat>, tri: Postings, i: nat)
    requires Fits(fs, keys, tri) && i < |keys|
    ensures Stamped(fs) && KeysOf(keys, tri) && keys[i] in tri && keys[i] < U32 && |keys| < 0x4000_0000
    ensures U32 == Pow256(4)
  {
    Widths();
    assert keys[i] in keys;
  }

  /** The word at index `i` of the key table is the key. */
  lemma KeyAt(fs: seq<BuildFile>, keys: seq<nat>, tri: Postings, i: nat)
    requires Fits(fs, keys, tri) && i < |keys|
    ensures Stamped(fs) && KeysOf(keys, tri)
    ensures var data := Image(fs, keys, tri); var off := TriIdxOff(|fs|, Cat(Paths(fs))) + i * 4;
      off + 4 <= |data| && Field(data, off, 4) == keys[i]
  {
    var data := Image(fs, keys, tri);
    var off := TriIdxOff(|fs|, Cat(Paths(fs)));
    KeyFits(fs, keys, tri, i);
    hide Fits, Image, Cat, At, Field, Header, KeysOf, Stamped, TriIdxOff, LE, Pow256, PostOff, SymOff, PostOffs;
    Places(fs, keys, tri);
    WordAt(data, off, keys, i);
  }

  lemma WordAt(data: Bytes, off: nat, vs: seq<nat>, i: nat)
    requires At(data, off, Cat(Words(vs))) && i < |vs| && vs[i] < U32
    ensures off + i * 4 + 4 <= |data| && Field(data, off + i * 4, 4) == vs[i]
  {
    Widths();
    hide Cat, At, Field, LE, Pow256;
    FixedPart(data, off, Words(vs), 4, i);
    FieldAt(data, off + i * 4, vs[i], 4);
    AtBound(data, off + i * 4, LE(vs[i], 4));
  }

  lemma AtBound(data: Bytes, off: nat, b: Bytes)
    requires At(data, off, b)
    ensures off + |b| <= |data|
  {
  }

  lemma KeyTableInRange(s: Shard, fs: seq<BuildFile>, keys: seq<nat>, tri: Postings)
    requires Headed(s, fs, keys, tri)
    ensures s.numTri == |keys| < 0x4000_0000 && s.triIdx >= 0 && s.triIdx + |keys| * 4 <= |s.data|
  {
    assert Stamped(fs) && KeysOf(keys, tri) && |keys| < 0x4000_0000;
    hide Fits, Image, Cat, KeysOf, Stamped;
    if |keys| > 0 { KeyAt(fs, keys, tri, |keys| - 1); } else { Places(fs, keys, tri); }
  }

  /** A field read within a slice. */
  lemma SliceField(data: Bytes, off: nat, n: nat, bytes: Bytes, x: nat, w: nat)
    requires off + n <= |data| && bytes == data[off..off + n] && x + w <= n
    ensures Field(bytes, x, w) == Field(data, off + x, w)
  {
    hide FromLE;
    var a, b := bytes[x..x + w], data[off + x..off + x + w];
    forall k | 0 <= k < w ensures a[k] == b[k] { assert bytes[x + k] == data[off + (x + k)]; }
    assert a == b;
  }

  lemma KeysRead(s: Shard, fs: seq<BuildFile>, keys: seq<nat>, tri: Postings, bytes: Bytes, ks: seq<nat>)
    requires Headed(s, fs, keys, tri) && |bytes| == |keys| * 4 == |ks| * 4
    requires s.triIdx >= 0 && s.triIdx + |keys| * 4 <= |s.data| && bytes == s.data[s.triIdx..s.triIdx + |keys| * 4]
    requires forall i :: 0 <= i < |ks| ==> ks[i] == Field(bytes, i * 4, 4)
    ensures ks == keys
  {
    hide *;
    forall i | 0 <= i < |ks| ensures ks[i] == keys[i] {
      KeyWord(s, fs, keys, tri, i);
      SliceField(s.data, s.triIdx, |keys| * 4, bytes, i * 4, 4);
    }
  }

  /** Key `i` of the table, read through the descriptor. */
  lemma KeyWord(s: Shard, fs: seq<BuildFile>, keys: seq<nat>, tri: Postings, i: nat)
    requires Headed(s, fs, keys, tri) && i < |keys|
    ensures s.triIdx >= 0 && s.triIdx + i * 4 + 4 <= |s.data| && Field(s.data, s.triIdx + i * 4, 4) == keys[i]
  {
    hide Fits, Image, Cat, KeysOf, Stamped, Field;
    KeyAt(fs, keys, tri, i);
  }
}
