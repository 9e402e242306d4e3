/** The `songs` table and the four queries the services run against it:
    the insert-or-fetch of `add_content_to_db`, the pages of
    `fetch_content_from_db` and `get_all_songs`, and `delete_song_by_id`.
    The table is a sequence of rows in insertion order with a counter for
    the next serial id; a lost connection or a failed statement is the
    parameter `reachable`. */
module SongTable {
  import opened Wrappers
  import opened Text

  /** The JSON object stored in the `metadata` column. */
  type Metadata = map<string, string>

  /** A row of the table. The `metadata` column may be SQL null. */
  datatype Row = Row(id: int, title: string, artist: string, album: string,
                     filePath: string, metadata: Option<Metadata>)

  /** A song as the queries hand it back: the six fields of a row, with a
      null or empty metadata column read as the empty object. */
  datatype Song = Song(id: int, title: string, artist: string, album: string,
                       filePath: string, metadata: Metadata)

  function ToSong(row: Row): (s: Song)
    ensures s.id == row.id && s.title == row.title && s.artist == row.artist
    ensures s.album == row.album && s.filePath == row.filePath
    ensures s.metadata == if row.metadata.Some? then row.metadata.value else map[]
  {
    Song(row.id, row.title, row.artist, row.album, row.filePath, row.metadata.GetOr(map[]))
  }

  function ToSongs(rows: seq<Row>): (r: seq<Song>)
    ensures |r| == |rows|
    ensures forall i :: 0 <= i < |rows| ==> r[i] == ToSong(rows[i])
  {
    seq(|rows|, i requires 0 <= i < |rows| => ToSong(rows[i]))
  }

  /** The (title, artist, album) triple the insert deduplicates on,
      compared exactly. */
  predicate SameTriple(row: Row, title: string, artist: string, album: string) {
    row.title == title && row.artist == artist && row.album == album
  }

  /** Serial ids: positive, increasing in insertion order and below the
      next id to hand out. */
  predicate Ascending(rows: seq<Row>) {
    forall i, j :: 0 <= i < j < |rows| ==> rows[i].id < rows[j].id
  }

  predicate IdsBelow(rows: seq<Row>, next: int) {
    forall i :: 0 <= i < |rows| ==> 1 <= rows[i].id < next
  }

  /** No two rows share a triple. */
  predicate DistinctTriples(rows: seq<Row>) {
    forall i, j :: 0 <= i < j < |rows| ==>
      !SameTriple(rows[j], rows[i].title, rows[i].artist, rows[i].album)
  }

  /** What the table looks like as long as only these queries write it. */
  predicate ValidTable(rows: seq<Row>, next: int) {
    1 <= next && Ascending(rows) && IdsBelow(rows, next) && DistinctTriples(rows)
  }

  /** The `SELECT id … WHERE title = … AND artist = … AND album = …` of the
      insert: the position of the first row with the triple. */
  function FindTriple(rows: seq<Row>, title: string, artist: string, album: string): (r: Option<nat>)
    ensures r.Some? ==> r.value < |rows| && SameTriple(rows[r.value], title, artist, album)
    ensures r.None? <==> forall i :: 0 <= i < |rows| ==> !SameTriple(rows[i], title, artist, album)
    decreases |rows|
  {
    if rows == [] then None
    else if SameTriple(rows[0], title, artist, album) then Some(0)
    else match FindTriple(rows[1..], title, artist, album)
      case None => None
      case Some(k) => Some(k + 1)
  }

  /** The table after `add_content_to_db` and the id it returns. */
  datatype Insertion = Insertion(rows: seq<Row>, next: int, id: int)

  function AddContent(rows: seq<Row>, next: int, title: string, artist: string, album: string,
                      filePath: string, metadata: Option<Metadata>, reachable: bool): (r: Insertion)
    ensures !reachable ==> r == Insertion(rows, next, -1)
    ensures rows <= r.rows && |r.rows| <= |rows| + 1
  {
    if !reachable then Insertion(rows, next, -1)
    else match FindTriple(rows, title, artist, album)
      case Some(k) => Insertion(rows, next, rows[k].id)
      case None =>
        Insertion(rows + [Row(next, title, artist, album, filePath, Some(metadata.GetOr(map[])))], next + 1, next)
  }

  /** A triple that is already stored gives back the id of its row and
      leaves the table as it was. */
  lemma AddDuplicate(rows: seq<Row>, next: int, title: string, artist: string, album: string,
                     filePath: string, metadata: Option<Metadata>, k: nat)
    requires ValidTable(rows, next)
    requires k < |rows| && SameTriple(rows[k], title, artist, album)
    ensures var r := AddContent(rows, next, title, artist, album, filePath, metadata, true);
      r.rows == rows && r.next == next && r.id == rows[k].id
  {
    var hit := FindTriple(rows, title, artist, album);
    assert hit.Some? && SameTriple(rows[hit.value], title, artist, album);
    assert hit.value == k;
  }

  /** A new triple adds exactly one row, with the given fields, the next
      serial id and the metadata (the empty object for `None`), and that id
      is returned. */
  lemma AddFresh(rows: seq<Row>, next: int, title: string, artist: string, album: string,
                 filePath: string, metadata: Option<Metadata>)
    requires forall i :: 0 <= i < |rows| ==> !SameTriple(rows[i], title, artist, album)
    ensures var r := AddContent(rows, next, title, artist, album, filePath, metadata, true);
      && r.rows == rows + [Row(next, title, artist, album, filePath,
                               Some(if metadata.Some? then metadata.value else map[]))]
      && r.next == next + 1 && r.id == next
  {
  }

  /** A failure returns -1 and changes nothing; a success never returns -1. */
  lemma AddFailure(rows: seq<Row>, next: int, title: string, artist: string, album: string,
                   filePath: string, metadata: Option<Metadata>, reachable: bool)
    requires ValidTable(rows, next)
    ensures var r := AddContent(rows, next, title, artist, album, filePath, metadata, reachable);
      && (r.id == -1 <==> !reachable)
      && (!reachable ==> r.rows == rows && r.next == next)
  {
  }

  lemma AddKeepsValid(rows: seq<Row>, next: int, title: string, artist: string, album: string,
                      filePath: string, metadata: Option<Metadata>, reachable: bool)
    requires ValidTable(rows, next)
    ensures var r := AddContent(rows, next, title, artist, album, filePath, metadata, reachable);
      ValidTable(r.rows, r.next)
  {
  }

  /** Adding the same triple twice stores it once: the second call returns
      the id of the first and changes nothing. */
  lemma AddTwice(rows: seq<Row>, next: int, title: string, artist: string, album: string,
                 filePath: string, filePath2: string, metadata: Option<Metadata>, metadata2: Option<Metadata>)
    requires ValidTable(rows, next)
    ensures var r1 := AddContent(rows, next, title, artist, album, filePath, metadata, true);
      var r2 := AddContent(r1.rows, r1.next, title, artist, album, filePath2, metadata2, true);
      r2.rows == r1.rows && r2.next == r1.next && r2.id == r1.id
  {
    var r1 := AddContent(rows, next, title, artist, album, filePath, metadata, true);
    AddKeepsValid(rows, next, title, artist, album, filePath, metadata, true);
    match FindTriple(rows, title, artist, album)
    case Some(k) =>
      AddDuplicate(r1.rows, r1.next, title, artist, album, filePath2, metadata2, k);
    case None =>
      AddDuplicate(r1.rows, r1.next, title, artist, album, filePath2, metadata2, |rows|);
  }

  /** `search_query and search_query.strip()` is false: no filter. */
  predicate Blank(query: Option<string>) {
    query.None? || Trim(query.value) == ""
  }

  /** `title ILIKE '%q%' OR artist ILIKE '%q%' OR album ILIKE '%q%'`, with
      the query's own `%` and `_` read as plain characters. */
  predicate Matches(row: Row, q: string) {
    ContainsSub(Lower(row.title), Lower(q))
      || ContainsSub(Lower(row.artist), Lower(q))
      || ContainsSub(Lower(row.album), Lower(q))
  }

  predicate Keep(row: Row, query: Option<string>) {
    Blank(query) || Matches(row, Trim(query.value))
  }

  /** The `WHERE` clause: the rows the search keeps, in table order. */
  function Filtered(rows: seq<Row>, query: Option<string>): (r: seq<Row>)
    ensures |r| <= |rows|
    ensures forall x :: x in r <==> x in rows && Keep(x, query)
    decreases |rows|
  {
    if rows == [] then []
    else (if Keep(rows[0], query) then [rows[0]] else []) + Filtered(rows[1..], query)
  }

  function Reverse(s: seq<Row>): (r: seq<Row>)
    ensures |r| == |s|
    ensures forall k :: 0 <= k < |s| ==> r[k] == s[|s| - 1 - k]
    decreases |s|
  {
    if s == [] then [] else Reverse(s[1..]) + [s[0]]
  }

  /** `LIMIT limit OFFSET offset` on non-negative values. */
  function Window<T>(s: seq<T>, offset: nat, limit: nat): (r: seq<T>)
    ensures |r| <= limit
  {
    if offset >= |s| then []
    else if offset + limit <= |s| then s[offset..offset + limit]
    else s[offset..]
  }

  /** `get_all_songs(search_query, limit, offset)`: the kept rows by
      descending id, one page of them. A negative `LIMIT` or `OFFSET` is an
      SQL error, and every error gives the empty list. */
  function AllSongs(rows: seq<Row>, query: Option<string>, limit: int, offset: int, reachable: bool): (r: seq<Song>)
    ensures |r| <= |rows|
    ensures limit >= 0 ==> |r| <= limit
  {
    if !reachable || limit < 0 || offset < 0 then []
    else ToSongs(Window(Reverse(Filtered(rows, query)), offset, limit))
  }

  /** `fetch_content_from_db(skip, limit)`: the same page without a
      filter. */
  function FetchContent(rows: seq<Row>, skip: int, limit: int, reachable: bool): (r: seq<Song>)
    ensures |r| <= |rows|
    ensures limit >= 0 ==> |r| <= limit
  {
    if !reachable || limit < 0 || skip < 0 then []
    else ToSongs(Window(Reverse(rows), skip, limit))
  }

  /** A blank search keeps every row. */
  lemma {:induction false} BlankKeepsAll(rows: seq<Row>, query: Option<string>)
    requires Blank(query)
    ensures Filtered(rows, query) == rows
    decreases |rows|
  {
    if rows != [] {
      BlankKeepsAll(rows[1..], query);
      assert rows == [rows[0]] + rows[1..];
    }
  }

  /** The content listing is the search page with no search. */
  lemma FetchIsUnfiltered(rows: seq<Row>, skip: int, limit: int, reachable: bool)
    ensures FetchContent(rows, skip, limit, reachable) == AllSongs(rows, None, limit, skip, reachable)
  {
    BlankKeepsAll(rows, None);
  }

  /** Filtering keeps the table's order. */
  lemma {:induction false} FilteredAscending(rows: seq<Row>, query: Option<string>)
    requires Ascending(rows)
    ensures Ascending(Filtered(rows, query))
    decreases |rows|
  {
    if rows != [] {
      var rest := Filtered(rows[1..], query);
      FilteredAscending(rows[1..], query);
      forall x | x in rest ensures rows[0].id < x.id {
        assert x in rows[1..];
      }
    }
  }

  /** A window of a sequence holds only its elements. */
  lemma WindowWithin<T>(s: seq<T>, offset: nat, limit: nat)
    ensures forall x :: x in Window(s, offset, limit) ==> x in s
  {
    var w := Window(s, offset, limit);
    forall x | x in w ensures x in s {
      var i :| 0 <= i < |w| && w[i] == x;
      assert w[i] == s[offset + i];
    }
  }

  /** A window of the reversed, ascending rows is in descending id order. */
  lemma WindowDescending(s: seq<Row>, offset: nat, limit: nat)
    requires Ascending(s)
    ensures var w := Window(Reverse(s), offset, limit);
      forall i, j :: 0 <= i < j < |w| ==> w[i].id > w[j].id
  {
    var d := Reverse(s);
    assert forall i, j :: 0 <= i < j < |d| ==> d[i].id > d[j].id by {
      forall i, j | 0 <= i < j < |d| ensures d[i].id > d[j].id {
        assert d[i] == s[|s| - 1 - i] && d[j] == s[|s| - 1 - j];
      }
    }
  }

  /** Pages come in strictly descending id order, hold at most `limit`
      songs and every song on them is a kept row of the table. */
  lemma PageShape(rows: seq<Row>, query: Option<string>, limit: int, offset: int, reachable: bool)
    requires Ascending(rows)
    ensures var page := AllSongs(rows, query, limit, offset, reachable);
      && (limit >= 0 ==> |page| <= limit)
      && (forall i, j :: 0 <= i < j < |page| ==> page[i].id > page[j].id)
      && (forall s :: s in page ==> exists x :: x in rows && Keep(x, query) && s == ToSong(x))
  {
    if reachable && limit >= 0 && offset >= 0 {
      var kept := Filtered(rows, query);
      FilteredAscending(rows, query);
      WindowDescending(kept, offset, limit);
      var w := Window(Reverse(kept), offset, limit);
      WindowWithin(Reverse(kept), offset, limit);
      forall s | s in ToSongs(w) ensures exists x :: x in rows && Keep(x, query) && s == ToSong(x) {
        var i :| 0 <= i < |w| && ToSongs(w)[i] == s;
        assert w[i] in Reverse(kept);
        var j :| 0 <= j < |kept| && Reverse(kept)[j] == w[i];
        assert w[i] in kept;
      }
    }
  }

  /** A first page as long as the table shows every kept row. */
  lemma PageComplete(rows: seq<Row>, query: Option<string>, limit: int, x: Row)
    requires limit >= |rows| && x in rows && Keep(x, query)
    ensures ToSong(x) in AllSongs(rows, query, limit, 0, true)
  {
    var kept := Filtered(rows, query);
    var k :| 0 <= k < |kept| && kept[k] == x;
    var desc := Reverse(kept);
    assert Window(desc, 0, limit) == desc;
    assert desc[|kept| - 1 - k] == x;
  }

  /** Consecutive pages tile: the page after `limit1` rows continues the
      first one. */
  lemma PagesTile(rows: seq<Row>, query: Option<string>, limit1: nat, limit2: nat, offset: nat)
    ensures AllSongs(rows, query, limit1, offset, true) + AllSongs(rows, query, limit2, offset + limit1, true)
         == AllSongs(rows, query, limit1 + limit2, offset, true)
  {
    var d := Reverse(Filtered(rows, query));
    WindowsTile(d, offset, limit1, limit2);
    ToSongsAppend(Window(d, offset, limit1), Window(d, offset + limit1, limit2));
  }

  lemma WindowsTile<T>(d: seq<T>, offset: nat, limit1: nat, limit2: nat)
    ensures Window(d, offset, limit1) + Window(d, offset + limit1, limit2) == Window(d, offset, limit1 + limit2)
  {
  }

  lemma ToSongsAppend(a: seq<Row>, b: seq<Row>)
    ensures ToSongs(a) + ToSongs(b) == ToSongs(a + b)
  {
    assert forall i :: 0 <= i < |a + b| ==> (a + b)[i] == if i < |a| then a[i] else b[i - |a|];
  }

  /** The search ignores letter case in both the stored fields and the
      query. */
  lemma SearchIgnoresCase(row: Row, q: string)
    ensures Matches(row, q) == Matches(row, Lower(q))
  {
    LowerIdempotent(q);
  }

  /** A non-blank search keeps a row exactly when one of its three fields
      holds the trimmed, lower-cased query at some position. */
  lemma SearchIff(row: Row, query: string)
    requires Trim(query) != ""
    ensures Keep(row, Some(query)) <==>
      exists i :: OccursAt(Lower(row.title), Lower(Trim(query)), i)
              || OccursAt(Lower(row.artist), Lower(Trim(query)), i)
              || OccursAt(Lower(row.album), Lower(Trim(query)), i)
  {
    var q := Lower(Trim(query));
    ContainsSubIff(Lower(row.title), q);
    ContainsSubIff(Lower(row.artist), q);
    ContainsSubIff(Lower(row.album), q);
  }

  /** The position of the row with id `songId`. */
  function FindId(rows: seq<Row>, songId: int): (r: Option<nat>)
    ensures r.Some? ==> r.value < |rows| && rows[r.value].id == songId
    ensures r.None? <==> forall i :: 0 <= i < |rows| ==> rows[i].id != songId
    decreases |rows|
  {
    if rows == [] then None
    else if rows[0].id == songId then Some(0)
    else match FindId(rows[1..], songId)
      case None => None
      case Some(k) => Some(k + 1)
  }

  /** The rows `delete_song_by_id` leaves; `None` when no row has the id
      and the call returns False. */
  function Deleted(rows: seq<Row>, songId: int): (r: Option<seq<Row>>)
    ensures r.None? <==> forall i :: 0 <= i < |rows| ==> rows[i].id != songId
    ensures r.Some? ==> |r.value| == |rows| - 1
  {
    match FindId(rows, songId)
    case None => None
    case Some(k) => Some(rows[..k] + rows[k + 1..])
  }

  /** Removing one row keeps the table valid. */
  lemma RemoveKeepsValid(rows: seq<Row>, next: int, k: nat)
    requires ValidTable(rows, next) && k < |rows|
    ensures ValidTable(rows[..k] + rows[k + 1..], next)
  {
    var left := rows[..k] + rows[k + 1..];
    assert forall i :: 0 <= i < |left| ==> left[i] == rows[if i < k then i else i + 1];
  }

  /** Removing the row at `k` leaves exactly the other rows, when ids are
      distinct. */
  lemma RemoveMembers(rows: seq<Row>, k: nat)
    requires Ascending(rows) && k < |rows|
    ensures forall x :: x in rows[..k] + rows[k + 1..] <==> x in rows && x.id != rows[k].id
  {
    var left := rows[..k] + rows[k + 1..];
    forall x ensures x in left <==> x in rows && x.id != rows[k].id {
      if x in left {
        var i :| 0 <= i < |left| && left[i] == x;
        assert left[i] == rows[if i < k then i else i + 1];
      }
      if x in rows && x.id != rows[k].id {
        var i :| 0 <= i < |rows| && rows[i] == x;
        assert left[if i < k then i else i - 1] == x;
      }
    }
  }

  /** Deleting a present id removes exactly the row with that id, keeps
      the others and keeps the table valid. */
  lemma DeleteExactly(rows: seq<Row>, next: int, songId: int)
    requires ValidTable(rows, next)
    requires Deleted(rows, songId).Some?
    ensures var left := Deleted(rows, songId).value;
      && (forall x :: x in left <==> x in rows && x.id != songId)
      && ValidTable(left, next)
  {
    var k := FindId(rows, songId).value;
    RemoveKeepsValid(rows, next, k);
    RemoveMembers(rows, k);
  }

  /** The table as the object the services share, one method per query. */
  class SongStore {
    var rows: seq<Row>
    var next: int

    ghost predicate Valid()
      reads this
    {
      ValidTable(rows, next)
    }

    /** An empty table whose serial starts at 1. */
    constructor ()
      ensures Valid() && rows == [] && next == 1
    {
      rows := [];
      next := 1;
    }

    /** `add_content_to_db`: look the triple up, then insert it if it is
        new. */
    method Add(title: string, artist: string, album: string, filePath: string,
               metadata: Option<Metadata>, reachable: bool) returns (id: int)
      requires Valid()
      modifies this
      ensures Valid()
      ensures var r := AddContent(old(rows), old(next), title, artist, album, filePath, metadata, reachable);
        rows == r.rows && next == r.next && id == r.id
    {
      AddKeepsValid(rows, next, title, artist, album, filePath, metadata, reachable);
      if !reachable {
        return -1;
      }
      var hit := FindTriple(rows, title, artist, album);
      if hit.Some? {
        return rows[hit.value].id;
      }
      id := next;
      rows := rows + [Row(next, title, artist, album, filePath, Some(metadata.GetOr(map[])))];
      next := next + 1;
    }

    /** `get_all_songs`. */
    method Songs(query: Option<string>, limit: int, offset: int, reachable: bool) returns (page: seq<Song>)
      requires Valid()
      ensures page == AllSongs(rows, query, limit, offset, reachable)
      ensures limit >= 0 ==> |page| <= limit
      ensures forall i, j :: 0 <= i < j < |page| ==> page[i].id > page[j].id
    {
      PageShape(rows, query, limit, offset, reachable);
      page := AllSongs(rows, query, limit, offset, reachable);
    }

    /** `fetch_content_from_db`. */
    method Fetch(skip: int, limit: int, reachable: bool) returns (page: seq<Song>)
      requires Valid()
      ensures page == FetchContent(rows, skip, limit, reachable)
      ensures limit >= 0 ==> |page| <= limit
      ensures forall i, j :: 0 <= i < j < |page| ==> page[i].id > page[j].id
    {
      FetchIsUnfiltered(rows, skip, limit, reachable);
      PageShape(rows, None, limit, skip, reachable);
      page := FetchContent(rows, skip, limit, reachable);
    }

    /** `delete_song_by_id`: True when the id was present and its row is
        gone; False, with the table unchanged, when the id is absent or the
        database fails. */
    method Delete(songId: int, reachable: bool) returns (ok: bool)
      requires Valid()
      modifies this
      ensures Valid() && next == old(next)
      ensures ok == (reachable && Deleted(old(rows), songId).Some?)
      ensures rows == if ok then Deleted(old(rows), songId).value else old(rows)
    {
      var left := Deleted(rows, songId);
      ok := reachable && left.Some?;
      if ok {
        DeleteExactly(rows, next, songId);
        rows := left.value;
      }
    }
  }
}
