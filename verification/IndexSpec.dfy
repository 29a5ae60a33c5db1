/** The in-memory trigram index (internal/index/index.go): what its parts mean and
    how one step changes them, on values. The object itself is in MemIndex. */
module IndexSpec {
  import opened Bytes
  import opened Sorted

  datatype Meta = Meta(path: Bytes, size: int, mtime: int)

  /** A file entry; replaced and removed files leave a dead entry behind. */
  datatype Entry = Entry(meta: Meta, content: Bytes, dead: bool)

  /** What the index owes its callers for one path. */
  datatype Doc = Doc(meta: Meta, content: Bytes)

  type Postings = map<nat, seq<nat>>

  function Ids(tri: Postings, k: nat): seq<nat> {
    if k in tri then tri[k] else []
  }

  /** A posting list: strictly ascending, exactly the entries containing key `k`. */
  ghost predicate Posting(ids: seq<nat>, files: seq<Entry>, k: nat) {
    && Ascending(ids)
    && forall i: nat :: i in ids <==> i < |files| && k in Tris(files[i].content)
  }

  ghost predicate PostingsOk(files: seq<Entry>, tri: Postings) {
    forall k: nat :: Posting(Ids(tri, k), files, k)
  }

  /** Paths and live entries correspond one to one. */
  ghost predicate PathsOk(files: seq<Entry>, byPath: map<Bytes, nat>) {
    && (forall p :: p in byPath ==> byPath[p] < |files| && !files[byPath[p]].dead && files[byPath[p]].meta.path == p)
    && (forall i :: 0 <= i < |files| && !files[i].dead ==>
          files[i].meta.path in byPath && byPath[files[i].meta.path] == i)
  }

  function DeadCount(files: seq<Entry>): nat {
    if |files| == 0 then 0
    else DeadCount(files[..|files| - 1]) + (if files[|files| - 1].dead then 1 else 0)
  }

  ghost predicate Coherent(files: seq<Entry>, byPath: map<Bytes, nat>, tri: Postings, dead: nat) {
    PathsOk(files, byPath) && PostingsOk(files, tri) && dead == DeadCount(files)
  }

  /** The plain map from path to document that the index stands for. */
  function View(files: seq<Entry>, byPath: map<Bytes, nat>): (v: map<Bytes, Doc>)
    requires forall p :: p in byPath ==> byPath[p] < |files|
  {
    map p | p in byPath :: Doc(files[byPath[p]].meta, files[byPath[p]].content)
  }

  // ---- one step at a time ----

  /** Appending the new entry's id to the lists of its keys keeps every list exact
      and ascending, since the new id is larger than all others. */
  lemma PostingsAppend(files: seq<Entry>, tri: Postings, e: Entry, tri': Postings)
    requires PostingsOk(files, tri)
    requires forall k: nat :: Ids(tri', k) == Ids(tri, k) + (if k in Tris(e.content) then [|files|] else [])
    ensures PostingsOk(files + [e], tri')
  {
    forall k: nat ensures Posting(Ids(tri', k), files + [e], k) {
      assert Posting(Ids(tri, k), files, k);
      hide Tris, Ids;
      PostingAppend(Ids(tri, k), files, e, k);
    }
  }

  lemma PostingAppend(ids: seq<nat>, files: seq<Entry>, e: Entry, k: nat)
    requires Posting(ids, files, k)
    ensures Posting(ids + (if k in Tris(e.content) then [|files|] else []), files + [e], k)
  {
    hide Tris;
    var ids' := ids + (if k in Tris(e.content) then [|files|] else []);
    forall i: nat ensures i in ids' <==> i < |files + [e]| && k in Tris((files + [e])[i].content) {
      assert i in ids <==> i < |files| && k in Tris(files[i].content);
    }
    forall a, b | 0 <= a < b < |ids'| ensures ids'[a] < ids'[b] {
      assert ids[a] in ids;
    }
  }

  /** Marking an entry dead touches no posting list. */
  lemma PostingsKill(files: seq<Entry>, tri: Postings, id: nat)
    requires PostingsOk(files, tri) && id < |files|
    ensures PostingsOk(files[id := files[id].(dead := true)], tri)
  {
    var files' := files[id := files[id].(dead := true)];
    forall k: nat ensures Posting(Ids(tri, k), files', k) {
      assert Posting(Ids(tri, k), files, k);
      hide Tris, Ids;
      forall i: nat ensures i in Ids(tri, k) <==> i < |files'| && k in Tris(files'[i].content) {
        assert i < |files| ==> files'[i].content == files[i].content;
      }
    }
  }

  lemma {:induction false} DeadCountKill(files: seq<Entry>, id: nat)
    requires id < |files| && !files[id].dead
    ensures DeadCount(files[id := files[id].(dead := true)]) == DeadCount(files) + 1
  {
    var n := |files| - 1;
    var files' := files[id := files[id].(dead := true)];
    if id < n {
      assert files'[..n] == files[..n][id := files[..n][id].(dead := true)];
      DeadCountKill(files[..n], id);
    } else {
      assert files'[..n] == files[..n];
    }
  }

  lemma DeadCountAppend(files: seq<Entry>, e: Entry)
    ensures DeadCount(files + [e]) == DeadCount(files) + (if e.dead then 1 else 0)
  {
    assert (files + [e])[..|files|] == files;
  }

  lemma PathsKill(files: seq<Entry>, byPath: map<Bytes, nat>, p: Bytes)
    requires PathsOk(files, byPath) && p in byPath
    ensures byPath[p] < |files| && !files[byPath[p]].dead
    ensures var files' := files[byPath[p] := files[byPath[p]].(dead := true)];
      PathsOk(files', byPath - {p}) && View(files', byPath - {p}) == View(files, byPath) - {p}
  {
    var id := byPath[p];
    var files' := files[id := files[id].(dead := true)];
    forall q | q in byPath - {p} ensures byPath[q] != id && files'[byPath[q]] == files[byPath[q]] {}
  }

  lemma PathsAppend(files: seq<Entry>, byPath: map<Bytes, nat>, e: Entry)
    requires PathsOk(files, byPath) && !e.dead && e.meta.path !in byPath
    ensures PathsOk(files + [e], byPath[e.meta.path := |files|])
    ensures View(files + [e], byPath[e.meta.path := |files|]) == View(files, byPath)[e.meta.path := Doc(e.meta, e.content)]
  {
    var files' := files + [e];
    var byPath' := byPath[e.meta.path := |files|];
    forall i | 0 <= i < |files'| && !files'[i].dead
      ensures files'[i].meta.path in byPath' && byPath'[files'[i].meta.path] == i
    {
      if i < |files| { assert files'[i] == files[i]; }
    }
    assert forall p :: p in byPath ==> files'[byPath[p]] == files[byPath[p]];
  }
}
