/** The video catalog of `src/services/database.js`: the SQLite table
    `videos(id INTEGER PRIMARY KEY AUTOINCREMENT, filename, path, timestamp, salvar)`
    held in memory, with the SQL statements written out as filters over its rows. */
module Catalog {
  import opened Seqs

  /** One row of `videos`. The column `salvar` only ever holds 0 or 1; `true` stands for 1. */
  datatype Video = Video(id: int, filename: string, path: string, timestamp: int, salvar: bool)

  /** The `WHERE` of `getOldVideos`: `salvar = 0 AND timestamp < t` (strict). */
  predicate IsOld(v: Video, t: int) {
    !v.salvar && v.timestamp < t
  }

  /** The `WHERE` clauses as predicates a filter can take. */
  function OlderThan(t: int): Video -> bool {
    (v: Video) => IsOld(v, t)
  }

  function NameIs(filename: string): Video -> bool {
    (v: Video) => v.filename == filename
  }

  function IdIsNot(id: int): Video -> bool {
    (v: Video) => v.id != id
  }

  predicate IsSaved(v: Video) {
    v.salvar
  }

  /** `ORDER BY timestamp DESC`: `a` may come before `b`. */
  predicate NotOlder(a: Video, b: Video) {
    a.timestamp >= b.timestamp
  }

  predicate IdBefore(a: Video, b: Video) {
    a.id < b.id
  }

  /** Rows are kept in insertion order, so AUTOINCREMENT ids increase along the table. */
  ghost predicate IdsIncreasing(rows: seq<Video>) {
    SortedBy(rows, IdBefore)
  }

  predicate HasId(rows: seq<Video>, id: int) {
    exists i :: 0 <= i < |rows| && rows[i].id == id
  }

  /** `SELECT * FROM videos WHERE salvar = 0 AND timestamp < ?`: the retention candidates. */
  function OldVideos(rows: seq<Video>, t: int): (r: seq<Video>)
    ensures forall v :: v in r <==> v in rows && !v.salvar && v.timestamp < t
    ensures SortedBy(rows, IdBefore) ==> SortedBy(r, IdBefore)
  {
    var r := Filter(rows, OlderThan(t));
    assert SortedBy(rows, IdBefore) ==> SortedBy(r, IdBefore) by {
      if SortedBy(rows, IdBefore) { FilterKeepsOrder(rows, OlderThan(t), IdBefore); }
    }
    r
  }

  /** `SELECT ... FROM videos WHERE salvar = 1 ORDER BY timestamp DESC`. */
  function ImportantVideos(rows: seq<Video>): (r: seq<Video>)
    ensures multiset(r) == multiset(Filter(rows, IsSaved))
    ensures forall v :: v in r <==> v in rows && v.salvar
    ensures forall i, j :: 0 <= i < j < |r| ==> r[i].timestamp >= r[j].timestamp
  {
    var saved := Filter(rows, IsSaved);
    var r := SortBy(saved, NotOlder);
    assert forall i, j :: 0 <= i < j < |r| ==> NotOlder(r[i], r[j]);
    r
  }

  /** `UPDATE videos SET salvar = 1 WHERE filename = ?`. */
  function MarkImportant(rows: seq<Video>, filename: string): (r: seq<Video>)
    ensures |r| == |rows|
    ensures forall i :: 0 <= i < |rows| ==>
      r[i] == rows[i].(salvar := rows[i].salvar || rows[i].filename == filename)
  {
    seq(|rows|, i requires 0 <= i < |rows| =>
      rows[i].(salvar := rows[i].salvar || rows[i].filename == filename))
  }

  /** The rows whose `filename` equals the given one: what the `WHERE` of `markAsImportant` matches. */
  function Named(rows: seq<Video>, filename: string): (r: seq<Video>)
    ensures forall v :: v in r <==> v in rows && v.filename == filename
    ensures |r| == 0 <==> forall i :: 0 <= i < |rows| ==> rows[i].filename != filename
  {
    var r := Filter(rows, NameIs(filename));
    assert forall i :: 0 <= i < |rows| && rows[i].filename == filename ==> rows[i] in r;
    assert |r| > 0 ==> r[0] in r && r[0] in rows && r[0].filename == filename;
    r
  }

  /** `DELETE FROM videos WHERE id = ?`. */
  function WithoutId(rows: seq<Video>, id: int): (r: seq<Video>)
    ensures forall v :: v in r <==> v in rows && v.id != id
    ensures SortedBy(rows, IdBefore) ==> SortedBy(r, IdBefore)
  {
    var r := Filter(rows, IdIsNot(id));
    assert SortedBy(rows, IdBefore) ==> SortedBy(r, IdBefore) by {
      if SortedBy(rows, IdBefore) { FilterKeepsOrder(rows, IdIsNot(id), IdBefore); }
    }
    r
  }

  /** Marking changes only `salvar`, only on the named rows, and sets it there. */
  lemma MarkImportantEffect(rows: seq<Video>, filename: string)
    ensures var r := MarkImportant(rows, filename);
      forall i :: 0 <= i < |rows| ==>
        && r[i].id == rows[i].id && r[i].filename == rows[i].filename
        && r[i].path == rows[i].path && r[i].timestamp == rows[i].timestamp
        && (rows[i].filename == filename ==> r[i].salvar)
        && (rows[i].filename != filename ==> r[i].salvar == rows[i].salvar)
  {
  }

  /** A second `markAsImportant` of the same name changes nothing and reports the same count. */
  lemma {:induction false} MarkImportantIdempotent(rows: seq<Video>, filename: string)
    ensures MarkImportant(MarkImportant(rows, filename), filename) == MarkImportant(rows, filename)
    ensures |Named(MarkImportant(rows, filename), filename)| == |Named(rows, filename)|
  {
    var once := MarkImportant(rows, filename);
    FilterLengthPointwise(once, NameIs(filename), rows, NameIs(filename));
  }

  /** Retention safety: once a name is marked, none of its rows is a deletion candidate, at any cutoff. */
  lemma MarkedNeverOld(rows: seq<Video>, filename: string, t: int)
    ensures forall v :: v in OldVideos(MarkImportant(rows, filename), t) ==> v.filename != filename
  {
  }

  /** With unique ids, `deleteVideo(id)` removes exactly one row when the id is present, none otherwise. */
  lemma {:induction false} WithoutIdRemovesOne(rows: seq<Video>, id: int)
    requires IdsIncreasing(rows)
    ensures |WithoutId(rows, id)| == |rows| - (if HasId(rows, id) then 1 else 0)
  {
    if rows != [] {
      var p := IdIsNot(id);
      var tail := rows[1..];
      assert rows == [rows[0]] + tail;
      assert Filter(rows, p) == (if p(rows[0]) then [rows[0]] else []) + Filter(tail, p);
      SortedTail(rows, IdBefore);
      assert HasId(rows, id) <==> rows[0].id == id || HasId(tail, id) by {
        HasIdCons(rows, id);
      }
      if rows[0].id == id {
        assert forall i :: 0 <= i < |tail| ==> p(tail[i]);
        FilterKeepsAll(tail, p);
      } else {
        WithoutIdRemovesOne(tail, id);
      }
    }
  }

  lemma HasIdCons(rows: seq<Video>, id: int)
    requires rows != []
    ensures HasId(rows, id) <==> rows[0].id == id || HasId(rows[1..], id)
  {
    if HasId(rows, id) && rows[0].id != id {
      var i :| 0 <= i < |rows| && rows[i].id == id;
      assert rows[1..][i - 1].id == id;
    }
    if HasId(rows[1..], id) {
      var i :| 0 <= i < |rows[1..]| && rows[1..][i].id == id;
      assert rows[i + 1].id == id;
    }
  }

  /** An absent id is a no-op. */
  lemma WithoutAbsentId(rows: seq<Video>, id: int)
    requires !HasId(rows, id)
    ensures WithoutId(rows, id) == rows
  {
    FilterKeepsAll(rows, IdIsNot(id));
  }

  /** Retention safety of the sweep primitives: deleting any retention candidate keeps every saved row. */
  lemma DeletingOldKeepsSaved(rows: seq<Video>, t: int, v: Video)
    requires IdsIncreasing(rows)
    requires v in OldVideos(rows, t)
    ensures forall w :: w in rows && w.salvar ==> w in WithoutId(rows, v.id)
  {
    forall w | w in rows && w.salvar ensures w.id != v.id {
      var i :| 0 <= i < |rows| && rows[i] == w;
      var j :| 0 <= j < |rows| && rows[j] == v;
      assert i != j;
      if i < j { assert IdBefore(rows[i], rows[j]); } else { assert IdBefore(rows[j], rows[i]); }
    }
  }

  /** The `videos` table with SQLite's AUTOINCREMENT counter (`sqlite_sequence`): `nextId` is one
      more than the largest id ever handed out. */
  class VideoCatalog {
    var rows: seq<Video>
    var nextId: int

    ghost predicate Valid()
      reads this
    {
      && IdsIncreasing(rows)
      && 0 < nextId
      && forall i :: 0 <= i < |rows| ==> 0 < rows[i].id < nextId
    }

    /** `CREATE TABLE IF NOT EXISTS videos (...)` on a fresh database. */
    constructor ()
      ensures Valid() && rows == [] && nextId == 1
    {
      rows := [];
      nextId := 1;
    }

    /** `saveVideo(filename, filepath, salvar = false)`, with `Date.now()` passed in as `now`. */
    method SaveVideo(filename: string, path: string, now: int, salvar: bool := false)
      requires Valid()
      modifies this
      ensures Valid()
      ensures rows == old(rows) + [Video(old(nextId), filename, path, now, salvar)]
      ensures forall v :: v in old(rows) ==> v.id < rows[|rows| - 1].id
      ensures nextId == old(nextId) + 1
    {
      rows := rows + [Video(nextId, filename, path, now, salvar)];
      nextId := nextId + 1;
    }

    /** `markAsImportant(filename)`: resolves to `this.changes`, the number of rows matched. */
    method MarkAsImportant(filename: string) returns (changes: nat)
      requires Valid()
      modifies this
      ensures Valid()
      ensures rows == MarkImportant(old(rows), filename) && nextId == old(nextId)
      ensures changes == |Named(old(rows), filename)|
      ensures changes == 0 <==> forall v :: v in old(rows) ==> v.filename != filename
    {
      changes := |Named(rows, filename)|;
      rows := MarkImportant(rows, filename);
    }

    /** `getOldVideos(timestamp)`. */
    function GetOldVideos(t: int): (r: seq<Video>)
      reads this
      ensures forall v :: v in r <==> v in rows && !v.salvar && v.timestamp < t
      ensures IdsIncreasing(rows) ==> SortedBy(r, IdBefore)
    {
      OldVideos(rows, t)
    }

    /** `getImportantVideos()`. */
    function GetImportantVideos(): (r: seq<Video>)
      reads this
      ensures multiset(r) == multiset(Filter(rows, IsSaved))
      ensures forall v :: v in r <==> v in rows && v.salvar
      ensures forall i, j :: 0 <= i < j < |r| ==> r[i].timestamp >= r[j].timestamp
    {
      ImportantVideos(rows)
    }

    /** `deleteVideo(id)`. */
    method DeleteVideo(id: int)
      requires Valid()
      modifies this
      ensures Valid()
      ensures rows == WithoutId(old(rows), id) && nextId == old(nextId)
      ensures |rows| == |old(rows)| - (if HasId(old(rows), id) then 1 else 0)
    {
      WithoutIdRemovesOne(rows, id);
      rows := WithoutId(rows, id);
    }
  }
}
