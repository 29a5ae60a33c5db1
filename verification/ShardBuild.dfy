/** Building a shard (internal/shard/build.go). Files are added one by one, each with its
    trigrams and definitions; writing then lays out paths, keys, posting lists,
    definitions and inlined contents as byte strings with offsets, and copies them into
    one buffer of exactly the right size. Every loop is proved against the section of the
    format it produces. */
module ShardBuild {
  import opened Prelude
  import opened Bytes
  import opened Codec
  import opened Sorted
  import opened Literal
  import opened IndexSpec
  import opened MemIndex
  import opened ShardFormat

  // ---- the four blobs ----

  method BuildPaths(fs: seq<BuildFile>) returns (offs: seq<nat>, blob: Bytes)
    ensures blob == Cat(Paths(fs))
    ensures |offs| == |fs| && forall i :: 0 <= i < |fs| ==> offs[i] == Start(Paths(fs), i)
  {
    hide Cat;
    offs, blob := [], [];
    StartEnd([]);
    for i := 0 to |fs|
      invariant |offs| == i && blob == Cat(Paths(fs)[..i])
      invariant forall k :: 0 <= k < i ==> offs[k] == Start(Paths(fs), k)
    {
      offs := offs + [|blob|];
      NextPart(Paths(fs), i);
      blob := blob + fs[i].path;
    }
    assert Paths(fs)[..|fs|] == Paths(fs);
  }

  lemma NextPart(parts: seq<Bytes>, i: nat)
    requires i < |parts|
    ensures Cat(parts[..i + 1]) == Cat(parts[..i]) + parts[i]
  {
    assert parts[..i + 1] == parts[..i] + [parts[i]];
    CatSnoc(parts[..i], parts[i]);
  }

  /** One posting list: its length, then the distance of each id to the one before. */
  method AppendPosting(data: Bytes, ids: seq<nat>) returns (r: Bytes)
    requires Ascending(ids) && |ids| < U64 && forall k :: 0 <= k < |ids| ==> ids[k] < U32
    ensures r == data + PostBytes(ids)
  {
    hide Cat, Uv;
    r := AppendUvarint(data, |ids|);
    ghost var head := r;
    StartEnd(Deltas(ids));
    assert head + [] == head && Cat(Deltas(ids)[..0]) == [] by { StartEnd([]); assert Deltas(ids)[..0] == []; }
    var prev := 0;
    for i := 0 to |ids|
      invariant r == head + Cat(Deltas(ids)[..i])
      invariant prev == if i == 0 then 0 else ids[i - 1]
    {
      assert ids[i] - prev == Delta(ids, i);
      NextPart(Deltas(ids), i);
      r := AppendUvarint(r, ids[i] - prev);
      prev := ids[i];
    }
    assert Deltas(ids)[..|ids|] == Deltas(ids);
    assert data + Uv(|ids|) + Cat(Deltas(ids)) == data + (Uv(|ids|) + Cat(Deltas(ids)));
  }

  method BuildPostings(keys: seq<nat>, tri: Postings) returns (offs: seq<nat>, data: Bytes)
    requires KeysOf(keys, tri)
    requires forall k :: k in tri ==> |tri[k]| < U64 && forall j :: 0 <= j < |tri[k]| ==> tri[k][j] < U32
    ensures data == Cat(Posts(keys, tri)) && offs == PostOffs(keys, tri)
  {
    hide Cat, PostBytes;
    offs, data := [], [];
    StartEnd([]);
    for i := 0 to |keys|
      invariant |offs| == i && data == Cat(Posts(keys, tri)[..i])
      invariant forall k :: 0 <= k < i ==> offs[k] == Start(Posts(keys, tri), k)
    {
      assert keys[i] in keys;
      offs := offs + [|data|];
      NextPart(Posts(keys, tri), i);
      data := AppendPosting(data, tri[keys[i]]);
    }
    assert Posts(keys, tri)[..|keys|] == Posts(keys, tri);
  }

  method AppendText(data: Bytes, s: Bytes) returns (r: Bytes)
    requires |s| < U64
    ensures r == data + Text(s)
  {
    r := AppendUvarint(data, |s|);
    r := r + s;
  }

  method AppendDef(data: Bytes, d: Def) returns (r: Bytes)
    requires DefFits(d)
    ensures r == data + DefBytes(d)
  {
    hide Text, Uv;
    r := AppendText(data, d.name);
    r := AppendText(r, d.kind);
    r := AppendText(r, d.container);
    r := AppendUvarint(r, d.line);
    assert (((data + Text(d.name)) + Text(d.kind)) + Text(d.container)) + Uv(d.line)
      == data + (((Text(d.name) + Text(d.kind)) + Text(d.container)) + Uv(d.line));
  }

  method AppendDefs(data: Bytes, defs: seq<Def>) returns (r: Bytes)
    requires |defs| < U64 && forall j :: 0 <= j < |defs| ==> DefFits(defs[j])
    ensures r == data + DefsBytes(defs)
  {
    hide Cat, Uv, DefBytes, DefFits;
    r := AppendUvarint(data, |defs|);
    ghost var head := r;
    assert head + [] == head && Cat(DefParts(defs)[..0]) == [] by { StartEnd([]); assert DefParts(defs)[..0] == []; }
    for i := 0 to |defs|
      invariant r == head + Cat(DefParts(defs)[..i])
    {
      NextPart(DefParts(defs), i);
      r := AppendDef(r, defs[i]);
    }
    assert DefParts(defs)[..|defs|] == DefParts(defs);
    assert data + Uv(|defs|) + Cat(DefParts(defs)) == data + (Uv(|defs|) + Cat(DefParts(defs)));
  }

  lemma {:induction false} NumSymsBound(fs: seq<BuildFile>, i: nat)
    requires i < |fs|
    ensures |fs[i].defs| <= NumSyms(fs)
  {
    if i < |fs| - 1 { NumSymsBound(fs[..|fs| - 1], i); }
  }

  method BuildSymbols(fs: seq<BuildFile>) returns (data: Bytes, numSyms: nat)
    requires NumSyms(fs) < U32
    requires forall i, j :: 0 <= i < |fs| && 0 <= j < |fs[i].defs| ==> DefFits(fs[i].defs[j])
    ensures data == Cat(Symbols(fs)) && numSyms == NumSyms(fs)
  {
    hide Cat, DefsBytes, DefFits;
    data, numSyms := [], 0;
    StartEnd([]);
    for i := 0 to |fs|
      invariant data == Cat(Symbols(fs)[..i]) && numSyms == NumSyms(fs[..i])
    {
      NumSymsBound(fs, i);
      NextPart(Symbols(fs), i);
      assert fs[..i + 1][..i] == fs[..i];
      data := AppendDefs(data, fs[i].defs);
      numSyms := numSyms + |fs[i].defs|;
    }
    assert Symbols(fs)[..|fs|] == Symbols(fs) && fs[..|fs|] == fs;
  }

  method BuildContents(fs: seq<BuildFile>) returns (offs: seq<nat>, blob: Bytes)
    ensures blob == Cat(Contents(fs))
    ensures |offs| == |fs| && forall i :: 0 <= i < |fs| ==> offs[i] == ContentOff(fs, i)
  {
    hide Cat;
    offs, blob := [], [];
    StartEnd([]);
    for i := 0 to |fs|
      invariant |offs| == i && blob == Cat(Contents(fs)[..i])
      invariant forall k :: 0 <= k < i ==> offs[k] == ContentOff(fs, k)
    {
      NextPart(Contents(fs), i);
      match fs[i].content {
        case Some(c) => offs := offs + [|blob|]; blob := blob + c;
        case None => offs := offs + [NO_CONTENT]; assert blob + [] == blob;
      }
    }
    assert Contents(fs)[..|fs|] == Contents(fs);
  }

  // ---- filling the output buffer ----

  /** The first `off` bytes are written and read `pre`; the rest is still zero. */
  ghost predicate Filled(s: Bytes, off: nat, pre: Bytes) {
    |pre| == off <= |s| && s[..off] == pre && forall k :: off <= k < |s| ==> s[k] == 0
  }

  /** Copies `src` into the buffer at `off`. */
  method CopyTo(out: array<byte>, off: nat, src: Bytes, ghost pre: Bytes)
    requires off + |src| <= out.Length && Filled(out[..], off, pre)
    modifies out
    ensures Filled(out[..], off + |src|, pre + src)
  {
    for k := 0 to |src|
      invariant out[..off] == pre && out[off..off + k] == src[..k]
      invariant forall j :: off + k <= j < out.Length ==> out[j] == 0
    {
      out[off + k] := src[k];
      assert out[off..off + k + 1] == out[off..off + k] + [src[k]];
      assert src[..k + 1] == src[..k] + [src[k]];
    }
    assert out[..off + |src|] == out[..off] + out[off..off + |src|];
    assert src[..|src|] == src;
  }

  /** Leaves two zero bytes as they are. */
  lemma SkipTwo(s: Bytes, off: nat, pre: Bytes)
    requires Filled(s, off, pre) && off + 2 <= |s|
    ensures Filled(s, off + 2, pre + [0, 0])
  {
    assert s[..off + 2] == s[..off] + [s[off], s[off + 1]];
  }

  lemma Reassoc(pre: Bytes, a: Bytes, b: Bytes)
    ensures (pre + a) + b == pre + (a + b)
  {
  }

  method PutEntry(out: array<byte>, off: nat, f: BuildFile, pathOff: nat, contentOff: nat, ghost pre: Bytes)
    requires off + FILE_ENTRY_LEN <= out.Length && Filled(out[..], off, pre)
    requires IsInt64(f.size) && IsInt64(f.mtime)
    modifies out
    ensures Filled(out[..], off + FILE_ENTRY_LEN, pre + EntryBytes(f, pathOff, contentOff))
  {
    ghost var a, b, c, d, e, g := LE(pathOff, 4), LE(|f.path|, 2), LE(Unsigned(f.size), 8), LE(Unsigned(f.mtime), 8), LE(contentOff, 4), LE(|Inlined(f)|, 4);
    hide Filled, LE, Unsigned;
    CopyTo(out, off, LE(pathOff, 4), pre);
    CopyTo(out, off + 4, LE(|f.path|, 2), pre + a);
    SkipTwo(out[..], off + 6, pre + a + b);
    CopyTo(out, off + 8, LE(Unsigned(f.size), 8), pre + a + b + [0, 0]);
    CopyTo(out, off + 16, LE(Unsigned(f.mtime), 8), pre + a + b + [0, 0] + c);
    CopyTo(out, off + 24, LE(contentOff, 4), pre + a + b + [0, 0] + c + d);
    CopyTo(out, off + 28, LE(|Inlined(f)|, 4), pre + a + b + [0, 0] + c + d + e);
    Reassoc(pre, a, b);
    Reassoc(pre, a + b, [0, 0]);
    Reassoc(pre, a + b + [0, 0], c);
    Reassoc(pre, a + b + [0, 0] + c, d);
    Reassoc(pre, a + b + [0, 0] + c + d, e);
    Reassoc(pre, a + b + [0, 0] + c + d + e, g);
  }

  method PutEntries(out: array<byte>, fs: seq<BuildFile>, pathOffs: seq<nat>, contentOffs: seq<nat>, ghost pre: Bytes)
    requires Stamped(fs) && |pathOffs| == |contentOffs| == |fs|
    requires forall i :: 0 <= i < |fs| ==> pathOffs[i] == Start(Paths(fs), i) && contentOffs[i] == ContentOff(fs, i)
    requires HEADER_SIZE + |fs| * FILE_ENTRY_LEN <= out.Length && Filled(out[..], HEADER_SIZE, pre)
    modifies out
    ensures Filled(out[..], HEADER_SIZE + |fs| * FILE_ENTRY_LEN, pre + Cat(Entries(fs)))
  {
    hide Filled, Cat, EntryBytes, Start, ContentOff, Paths;
    assert pre + Cat(Entries(fs)[..0]) == pre by { StartEnd([]); assert Entries(fs)[..0] == []; EmptyCat(); }
    for i := 0 to |fs|
      invariant Filled(out[..], HEADER_SIZE + i * FILE_ENTRY_LEN, pre + Cat(Entries(fs)[..i]))
    {
      PutEntry(out, HEADER_SIZE + i * FILE_ENTRY_LEN, fs[i], pathOffs[i], contentOffs[i], pre + Cat(Entries(fs)[..i]));
      NextPart(Entries(fs), i);
      Reassoc(pre, Cat(Entries(fs)[..i]), Entries(fs)[i]);
    }
    assert Entries(fs)[..|fs|] == Entries(fs);
  }

  lemma EmptyCat()
    ensures Cat([]) == []
  {
  }

  /** A table of 32-bit words. */
  method PutWords(out: array<byte>, off: nat, vs: seq<nat>, ghost pre: Bytes)
    requires off + |vs| * 4 <= out.Length && Filled(out[..], off, pre)
    modifies out
    ensures Filled(out[..], off + |vs| * 4, pre + Cat(Words(vs)))
  {
    hide Filled, Cat, LE;
    assert pre + Cat(Words(vs)[..0]) == pre by { assert Words(vs)[..0] == []; EmptyCat(); }
    for i := 0 to |vs|
      invariant Filled(out[..], off + i * 4, pre + Cat(Words(vs)[..i]))
    {
      CopyTo(out, off + i * 4, LE(vs[i], 4), pre + Cat(Words(vs)[..i]));
      NextPart(Words(vs), i);
      Reassoc(pre, Cat(Words(vs)[..i]), LE(vs[i], 4));
    }
    assert Words(vs)[..|vs|] == Words(vs);
  }

  method PutHeader(out: array<byte>, n: nat, m: nat, numSyms: nat, paths: Bytes, posts: Bytes, syms: Bytes, contents: Bytes)
    requires HEADER_SIZE <= out.Length && Filled(out[..], 0, [])
    modifies out
    ensures Filled(out[..], HEADER_SIZE, Header(n, m, numSyms, paths, posts, syms, contents))
  {
    hide Filled, LE, TriIdxOff, PostOff, SymOff, CtOff;
    var t, p, s, c := TriIdxOff(n, paths), PostOff(n, paths, m), SymOff(n, paths, m, posts), CtOff(n, paths, m, posts, syms, contents);
    assert [] + MAGIC == MAGIC;
    CopyTo(out, 0, MAGIC, []);
    ghost var h := MAGIC;
    CopyTo(out, 8, LE(FORMAT_VERSION, 4), h);
    h := h + LE(FORMAT_VERSION, 4);
    CopyTo(out, 12, LE(n, 4), h);
    h := h + LE(n, 4);
    CopyTo(out, 16, LE(m, 4), h);
    h := h + LE(m, 4);
    CopyTo(out, 20, LE(numSyms, 4), h);
    h := h + LE(numSyms, 4);
    CopyTo(out, 24, LE(HEADER_SIZE, 8), h);
    h := h + LE(HEADER_SIZE, 8);
    CopyTo(out, 32, LE(t, 8), h);
    h := h + LE(t, 8);
    CopyTo(out, 40, LE(p, 8), h);
    h := h + LE(p, 8);
    CopyTo(out, 48, LE(s, 8), h);
    h := h + LE(s, 8);
    CopyTo(out, 56, LE(c, 8), h);
  }

  // ---- sorting the trigram keys ----

  method InsertKey(keys: seq<nat>, k: nat) returns (r: seq<nat>)
    requires Ascending(keys) && k !in keys
    ensures Ascending(r) && forall x :: x in r <==> x == k || x in keys
  {
    hide Ascending;
    var i := 0;
    while i < |keys| && keys[i] < k
      invariant 0 <= i <= |keys| && forall j :: 0 <= j < i ==> keys[j] < k
    {
      i := i + 1;
    }
    r := keys[..i] + [k] + keys[i..];
    Inserted(keys, i, k);
  }

  lemma Inserted(keys: seq<nat>, i: nat, k: nat)
    requires Ascending(keys) && k !in keys && i <= |keys|
    requires (forall j :: 0 <= j < i ==> keys[j] < k) && (i < |keys| ==> k <= keys[i])
    ensures Ascending(keys[..i] + [k] + keys[i..])
    ensures forall x :: x in keys[..i] + [k] + keys[i..] <==> x == k || x in keys
  {
    var r := keys[..i] + [k] + keys[i..];
    assert keys == keys[..i] + keys[i..];
    forall a, b | 0 <= a < b < |r| ensures r[a] < r[b] {
      assert r[a] == (if a < i then keys[a] else if a == i then k else keys[a - 1]);
      assert r[b] == (if b < i then keys[b] else if b == i then k else keys[b - 1]);
      assert i < |keys| ==> keys[i] in keys;
    }
  }

  method SortedKeys(tri: Postings) returns (keys: seq<nat>)
    ensures Ascending(keys) && forall k :: k in keys <==> k in tri
  {
    keys := [];
    var todo := tri.Keys;
    while todo != {}
      invariant todo <= tri.Keys && Ascending(keys)
      invariant forall k :: k in keys <==> k in tri && k !in todo
      decreases todo
    {
      var k :| k in todo;
      todo := todo - {k};
      keys := InsertKey(keys, k);
    }
  }

  // ---- the builder ----

  /** Inlining keeps the content of files up to a threshold in KiB; zero turns it off. */
  function Stored(inlineKB: int, content: Bytes): Option<Bytes> {
    if inlineKB > 0 && |content| <= inlineKB * 1024 then Some(content) else None
  }

  /** File `f` as stored for entry `e`. */
  ghost predicate StoredAs(inlineKB: int, f: BuildFile, e: Entry) {
    f.path == e.meta.path && f.size == e.meta.size && f.mtime == e.meta.mtime && f.content == Stored(inlineKB, e.content)
  }

  /** The bytes of a shard of `fs`, nothing truncated. */
  ghost predicate IsShard(data: Bytes, fs: seq<BuildFile>, tri: Postings) {
    exists keys :: ImageOf(data, fs, keys, tri)
  }

  /** Whatever the order in which the trigram table lists its keys turns out to be,
      the shard fits its format. */
  ghost predicate CanWrite(fs: seq<BuildFile>, tri: Postings) {
    forall keys :: KeysOf(keys, tri) ==> Fits(fs, keys, tri)
  }

  class Builder {
    var files: seq<BuildFile>
    var tris: Postings
    const inlineKB: int
    ghost var entries: seq<Entry>

    ghost predicate Valid()
      reads this
    {
      && |files| == |entries| && PostingsOk(entries, tris)
      && forall i :: 0 <= i < |files| ==> StoredAs(inlineKB, files[i], entries[i])
    }

    constructor (inlineKB: int)
      ensures Valid() && entries == [] && this.inlineKB == inlineKB
    {
      this.inlineKB := inlineKB;
      files, tris, entries := [], map[], [];
      new;
      assert PostingsOk([], map[]) by {
        forall k: nat ensures Posting(Ids(map[], k), [], k) {}
      }
    }

    method AddWithDefs(path: Bytes, size: int, mtime: int, content: Bytes, defs: seq<Def>)
      requires Valid()
      modifies this
      ensures Valid()
      ensures entries == old(entries) + [Entry(Meta(path, size, mtime), content, false)]
      ensures |files| == |old(files)| + 1 && files[..|old(files)|] == old(files) && files[|old(files)|].defs == defs
    {
      hide PostingsOk, Tris, NoTwice;
      var id := |files|;
      var stored := if inlineKB > 0 && |content| <= inlineKB * 1024 then Some(content) else None;
      ghost var e := Entry(Meta(path, size, mtime), content, false);
      files := files + [BuildFile(path, size, mtime, defs, stored)];
      var keys := TrigramKeys(content);
      var tris' := PostAll(tris, keys, id);
      PostingsAppend(entries, tris, e, tris');
      tris := tris';
      entries := entries + [e];
    }

    /** The bytes of the shard; they reach their final name by an atomic rename. */
    method Write() returns (data: Bytes)
      requires Valid() && CanWrite(files, tris)
      ensures IsShard(data, files, tris)
    {
      var keys := SortedKeys(tris);
      PostingListsAscend(entries, tris);
      assert KeysOf(keys, tris) && Fits(files, keys, tris);
      data := Serialize(files, keys, tris);
      assert ImageOf(data, files, keys, tris);
    }
  }

  method PutTables(out: array<byte>, off: nat, paths: Bytes, keys: seq<nat>, postOffs: seq<nat>, ghost pre: Bytes)
    requires |keys| == |postOffs| && off + |paths| + |keys| * 4 + |keys| * 4 <= out.Length && Filled(out[..], off, pre)
    modifies out
    ensures Filled(out[..], off + |paths| + |keys| * 4 + |keys| * 4, pre + paths + Cat(Words(keys)) + Cat(Words(postOffs)))
  {
    hide *;
    CopyTo(out, off, paths, pre);
    PutWords(out, off + |paths|, keys, pre + paths);
    PutWords(out, off + |paths| + |keys| * 4, postOffs, pre + paths + Cat(Words(keys)));
  }

  method PutBlobs(out: array<byte>, off: nat, posts: Bytes, syms: Bytes, contents: Bytes, ghost pre: Bytes)
    requires off + |posts| + |syms| + |contents| <= out.Length && Filled(out[..], off, pre)
    modifies out
    ensures Filled(out[..], off + |posts| + |syms| + |contents|, pre + posts + syms + contents)
  {
    hide *;
    CopyTo(out, off, posts, pre);
    CopyTo(out, off + |posts|, syms, pre + posts);
    CopyTo(out, off + |posts| + |syms|, contents, pre + posts + syms);
  }

  /** Lays the tables and blobs out one after the other. */
  method Assemble(fs: seq<BuildFile>, keys: seq<nat>, numSyms: nat, pathOffs: seq<nat>, ctOffs: seq<nat>, postOffs: seq<nat>,
                  paths: Bytes, posts: Bytes, syms: Bytes, contents: Bytes) returns (data: Bytes)
    requires Stamped(fs) && |pathOffs| == |ctOffs| == |fs| && |postOffs| == |keys|
    requires forall i :: 0 <= i < |fs| ==> pathOffs[i] == Start(Paths(fs), i) && ctOffs[i] == ContentOff(fs, i)
    ensures data == Header(|fs|, |keys|, numSyms, paths, posts, syms, contents) + Cat(Entries(fs)) + paths
      + Cat(Words(keys)) + Cat(Words(postOffs)) + posts + syms + contents
  {
    assert HEADER_SIZE == 64 && FILE_ENTRY_LEN == 32;
    hide *;
    var tableEnd := HEADER_SIZE + |fs| * FILE_ENTRY_LEN;
    var out := NewBuffer(tableEnd + |paths| + |keys| * 4 + |keys| * 4 + |posts| + |syms| + |contents|);
    PutHeader(out, |fs|, |keys|, numSyms, paths, posts, syms, contents);
    ghost var head := Header(|fs|, |keys|, numSyms, paths, posts, syms, contents);
    PutEntries(out, fs, pathOffs, ctOffs, head);
    PutTables(out, tableEnd, paths, keys, postOffs, head + Cat(Entries(fs)));
    ghost var pre := head + Cat(Entries(fs)) + paths + Cat(Words(keys)) + Cat(Words(postOffs));
    PutBlobs(out, tableEnd + |paths| + |keys| * 4 + |keys| * 4, posts, syms, contents, pre);
    data := out[..];
    AllFilled(data, pre + posts + syms + contents);
  }

  lemma AllFilled(s: Bytes, pre: Bytes)
    requires Filled(s, |s|, pre)
    ensures s == pre
  {
    assert s[..|s|] == s;
  }

  method Serialize(fs: seq<BuildFile>, keys: seq<nat>, tri: Postings) returns (data: Bytes)
    requires Fits(fs, keys, tri)
    ensures data == Image(fs, keys, tri)
  {
    ShardFields(fs, keys, tri);
    hide *;
    var pathOffs, paths := BuildPaths(fs);
    var postOffs, posts := BuildPostings(keys, tri);
    var syms, numSyms := BuildSymbols(fs);
    var ctOffs, contents := BuildContents(fs);
    data := Assemble(fs, keys, numSyms, pathOffs, ctOffs, postOffs, paths, posts, syms, contents);
    WrittenIsImage(fs, keys, tri);
  }

  lemma PostingListsAscend(entries: seq<Entry>, tri: Postings)
    requires PostingsOk(entries, tri)
    ensures forall k :: k in tri ==> Ascending(tri[k])
  {
    forall k | k in tri ensures Ascending(tri[k]) { assert Posting(Ids(tri, k), entries, k); }
  }

  /** What the writer needs to know of a shard that fits. */
  lemma ShardFields(fs: seq<BuildFile>, keys: seq<nat>, tri: Postings)
    requires Fits(fs, keys, tri)
    ensures Stamped(fs) && KeysOf(keys, tri) && NumSyms(fs) < U32
    ensures forall i, j :: 0 <= i < |fs| && 0 <= j < |fs[i].defs| ==> DefFits(fs[i].defs[j])
    ensures forall k :: k in tri ==> |tri[k]| < U64 && forall j :: 0 <= j < |tri[k]| ==> tri[k][j] < U32
  {
  }

  method NewBuffer(size: nat) returns (out: array<byte>)
    ensures fresh(out) && out.Length == size && Filled(out[..], 0, [])
  {
    out := new byte[size](_ => 0);
  }

  lemma WrittenIsImage(fs: seq<BuildFile>, keys: seq<nat>, tri: Postings)
    requires Stamped(fs) && KeysOf(keys, tri)
    ensures var paths, posts, syms, contents := Cat(Paths(fs)), Cat(Posts(keys, tri)), Cat(Symbols(fs)), Cat(Contents(fs));
      Image(fs, keys, tri) == Header(|fs|, |keys|, NumSyms(fs), paths, posts, syms, contents) + Cat(Entries(fs)) + paths
        + Cat(Words(keys)) + Cat(Words(PostOffs(keys, tri))) + posts + syms + contents
  {
    hide Cat, Stamped, KeysOf, Header;
    EightCat(Sections(fs, keys, tri));
  }

  lemma EightCat(s: seq<Bytes>)
    requires |s| == 8
    ensures Cat(s) == s[0] + s[1] + s[2] + s[3] + s[4] + s[5] + s[6] + s[7]
  {
    hide *;
    EmptyCat();
    assert s[..0] == [] && [] + s[0] == s[0] && s[..8] == s;
    NextPart(s, 0); NextPart(s, 1); NextPart(s, 2); NextPart(s, 3); NextPart(s, 4); NextPart(s, 5); NextPart(s, 6); NextPart(s, 7);
  }
}
