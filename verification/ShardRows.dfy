/** From the bytes of a shard to the rows the engine reasons with: what a reader gets
    back of each file, and which files it takes for candidates. The disk engine is
    modelled on rows; this is where a row is shown to be what survives being written to
    a shard file and read again, content that was too large or empty being absent. */
module ShardRows {
  import opened Bytes
  import opened Literal
  import opened IndexSpec
  import opened Sorted
  import SF = ShardFormat
  import SB = ShardBuild
  import SQ = ShardQuery
  import E = EngineSpec
  import R = Rebuild

  /** The row for a file added to a builder. */
  function RowOf(inlineKB: int, e: Entry): E.Row
    requires e.meta.size >= 0
  {
    E.Row(e.meta.path, e.meta.size, e.meta.mtime, Tris(e.content), R.InlineOf(inlineKB, e.content))
  }

  /** What is read back of the file is in its row. */
  predicate ShowsRow(r: SQ.ReadBack, row: E.Row) {
    r.meta.path == row.path && r.meta.size == row.size && r.meta.mtime == row.mtime && r.content == row.inline
  }

  lemma StoredRow(inlineKB: int, f: SF.BuildFile, e: Entry)
    requires SB.StoredAs(inlineKB, f, e) && e.meta.size >= 0
    ensures ShowsRow(SQ.AsRead(f), RowOf(inlineKB, e))
  {
    hide Tris;
  }

  /** A shard written by a builder and opened again shows the row of every file, and its
      candidates are exactly the rows that may match. */
  method ReadRows(data: Bytes, q: E.Query, inlineKB: int, ghost fs: seq<SF.BuildFile>, ghost tri: Postings, ghost entries: seq<Entry>)
    returns (files: seq<SQ.ReadBack>, ids: seq<nat>)
    requires SB.IsShard(data, fs, tri) && SQ.Indexes(tri, entries, fs)
    requires forall i :: 0 <= i < |fs| ==> SB.StoredAs(inlineKB, fs[i], entries[i]) && entries[i].meta.size >= 0
    ensures |files| == |fs| && forall i :: 0 <= i < |fs| ==> ShowsRow(files[i], RowOf(inlineKB, entries[i])) && files[i].defs == fs[i].defs
    ensures Ascending(ids)
    ensures forall x: nat :: x in ids <==> x < |fs| && E.Candidate(q, RowOf(inlineKB, entries[x]))
  {
    hide SB.IsShard, Tris, SB.StoredAs, SQ.Indexes, ShowsRow, R.InlineOf;
    files := SQ.OpenAndList(data, fs, tri);
    ids := SQ.OpenAndAsk(data, q.literal, fs, tri, entries);
    SameNumber(fs, tri, entries);
    forall i | 0 <= i < |fs| ensures ShowsRow(files[i], RowOf(inlineKB, entries[i])) && files[i].defs == fs[i].defs {
      StoredRow(inlineKB, fs[i], entries[i]);
    }
  }

  lemma SameNumber(fs: seq<SF.BuildFile>, tri: Postings, entries: seq<Entry>)
    requires SQ.Indexes(tri, entries, fs)
    ensures |entries| == |fs|
  {
  }
}
