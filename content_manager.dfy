/** `process_and_store_content`: every `song.ini` found below the scratch
    directory is parsed; a good one has its folder moved to
    `<songs>/<artist>/<title>_<token>` and is recorded in the table, and
    the stored songs are returned. The descriptors found by `rglob`, the
    uuid tokens and the failures the model does not derive are
    parameters. */
module ContentManager {
  import opened Wrappers
  import opened Text
  import opened Paths
  import opened Disk
  import opened SongIni
  import opened SongTable
  import opened ContentLayout

  /** What the loop meets at one descriptor besides the files: the token
      drawn for its folder, whether the move fails for a reason the model
      does not derive (permissions, a full disk), taken to leave the files
      as they were, and whether the database call succeeds. */
  datatype Attempt = Attempt(token: string, moveRefused: bool, dbReachable: bool)

  predicate IsHexDigit(c: char) {
    '0' <= c <= '9' || 'a' <= c <= 'f'
  }

  /** `uuid.uuid4().hex[:8]`. */
  predicate Token8(t: string) {
    |t| == 8 && forall i :: 0 <= i < |t| ==> IsHexDigit(t[i])
  }

  /** One element of the returned list. */
  datatype Entry = Entry(id: int, title: string, artist: string, album: string,
                         folder: string, metadata: Metadata)

  /** What the loop carries: the files, the table, the list so far, and
      whether an exception has left the loop. */
  datatype Ingest = Ingest(fs: Files, rows: seq<Row>, next: int, stored: seq<Entry>, raised: bool)

  /** The folder a parsed song is moved to. */
  function SongFolder(base: Path, info: SongInfo, token: string): Path {
    Join(Join(FinalDirectory(base, "songs"), info.artist), info.title + "_" + token)
  }

  /** What follows a successful move: the insert, and an entry when it
      gave an id. */
  function Record(st: Ingest, moved: Files, info: SongInfo, folder: string, reachable: bool): Ingest {
    var ins := AddContent(st.rows, st.next, info.title, info.artist, info.album,
                          folder, Some(info.metadata), reachable);
    var added := if ins.id != -1 then [Entry(ins.id, info.title, info.artist, info.album, folder, info.metadata)] else [];
    Ingest(moved, ins.rows, ins.next, st.stored + added, false)
  }

  /** The work done for a descriptor that parsed. The two `mkdir` calls sit
      outside the `try`, so a file in their way ends the whole call; a
      failed move is logged and the loop goes on. */
  function Store(st: Ingest, base: Path, ini: Path, info: SongInfo, a: Attempt): Ingest {
    var songs := FinalDirectory(base, "songs");
    if Blocked(st.fs, songs) || Blocked(st.fs, Join(songs, info.artist)) then st.(raised := true)
    else
      var dir := SongFolder(base, info, a.token);
      var moved := Moved(st.fs, Parent(ini), dir);
      if a.moveRefused || moved.None? then st
      else Record(st, moved.value, info, Render(dir), a.dbReachable)
  }

  /** A descriptor after parsing: skipped when the parse gave nothing;
      an exception from `get` ends the loop like one from the move. */
  function Handle(st: Ingest, base: Path, ini: Path, parsed: Parsed, a: Attempt): Ingest {
    match parsed
    case Skipped => st
    case Raised => st.(raised := true)
    case Song(info) => Store(st, base, ini, info, a)
  }

  /** One turn of the loop. */
  function Step(st: Ingest, base: Path, ini: Path, a: Attempt): Ingest {
    if st.raised then st else Handle(st, base, ini, ParseSongIni(st.fs, ini), a)
  }

  /** The loop over `inis` from the state `st`: the list only grows. */
  function Run(st: Ingest, base: Path, inis: seq<Path>, attempts: seq<Attempt>): (r: Ingest)
    requires |attempts| == |inis|
    ensures st.stored <= r.stored
    decreases |inis|
  {
    if inis == [] then st
    else Run(Step(st, base, inis[0], attempts[0]), base, inis[1..], attempts[1..])
  }

  /** The descriptors `root.rglob("song.ini")` finds: the files named
      `song.ini` anywhere below `root`. */
  function Descriptors(fs: Files, root: Path): set<Path> {
    set p | p in fs && Below(p, root) && Name(p) == "song.ini"
  }

  predicate Distinct(s: seq<Path>) {
    forall i, j :: 0 <= i < j < |s| ==> s[i] != s[j]
  }

  /** `inis` is an order in which `rglob` may yield the descriptors below
      `root`: each of them exactly once and nothing else. */
  predicate Lists(inis: seq<Path>, fs: Files, root: Path) {
    Distinct(inis) && (set p | p in inis) == Descriptors(fs, root)
  }

  /** A list without repetitions has as many members as elements. */
  lemma {:induction false} DistinctCard(s: seq<Path>)
    requires Distinct(s)
    ensures |(set p | p in s)| == |s|
    decreases |s|
  {
    if s != [] {
      var rest := s[1..];
      assert Distinct(rest) by {
        forall i, j | 0 <= i < j < |rest| ensures rest[i] != rest[j] {
          assert rest[i] == s[i + 1] && rest[j] == s[j + 1];
        }
      }
      DistinctCard(rest);
      assert forall j :: 0 <= j < |rest| ==> rest[j] == s[j + 1];
      assert s[0] !in rest;
      assert (set p | p in s) == (set p | p in rest) + {s[0]};
    }
  }

  /** With no descriptor below `root` the loop has nothing to visit. */
  lemma NoDescriptorsNoList(inis: seq<Path>, fs: Files, root: Path)
    requires Lists(inis, fs, root) && Descriptors(fs, root) == {}
    ensures inis == []
  {
    DistinctCard(inis);
  }

  /** The whole call over the directory `root`, from an empty list; the
      order of `inis` is the order `rglob` yields the descriptors in. */
  function ProcessAndStore(fs: Files, rows: seq<Row>, next: int, root: Path, base: Path,
                           inis: seq<Path>, attempts: seq<Attempt>): (o: Ingest)
    requires |attempts| == |inis| && Lists(inis, fs, root)
    ensures |o.stored| <= |Descriptors(fs, root)|
  {
    var st := Ingest(fs, rows, next, [], false);
    RunBound(st, base, inis, attempts);
    DistinctCard(inis);
    Run(st, base, inis, attempts)
  }

  /** Once an exception has left the loop nothing else happens. */
  lemma {:induction false} RunStopped(st: Ingest, base: Path, inis: seq<Path>, attempts: seq<Attempt>)
    requires |attempts| == |inis| && st.raised
    ensures Run(st, base, inis, attempts) == st
    decreases |inis|
  {
    if inis != [] {
      RunStopped(st, base, inis[1..], attempts[1..]);
    }
  }

  /** The insert adds at most one entry, exactly when it gives an id,
      and that entry carries the song's fields and folder. */
  lemma RecordEntry(st: Ingest, moved: Files, info: SongInfo, folder: string, reachable: bool)
    ensures var r := Record(st, moved, info, folder, reachable);
      var id := AddContent(st.rows, st.next, info.title, info.artist, info.album,
                           folder, Some(info.metadata), reachable).id;
      && st.stored <= r.stored && |r.stored| <= |st.stored| + 1
      && (|r.stored| == |st.stored| + 1 <==> id != -1)
      && (id != -1 ==> r.stored[|st.stored|] == Entry(id, info.title, info.artist, info.album, folder, info.metadata))
  {
  }

  /** A parsed descriptor adds at most one entry, and only when both
      folders could be made, the move went through and the database gave
      an id. */
  lemma StoreEntry(st: Ingest, base: Path, ini: Path, info: SongInfo, a: Attempt)
    ensures var r := Store(st, base, ini, info, a);
      var dir := SongFolder(base, info, a.token);
      && st.stored <= r.stored && |r.stored| <= |st.stored| + 1
      && (|r.stored| == |st.stored| + 1 <==>
            && !Blocked(st.fs, FinalDirectory(base, "songs"))
            && !Blocked(st.fs, Join(FinalDirectory(base, "songs"), info.artist))
            && !a.moveRefused && Moved(st.fs, Parent(ini), dir).Some?
            && AddContent(st.rows, st.next, info.title, info.artist, info.album,
                          Render(dir), Some(info.metadata), a.dbReachable).id != -1)
      && (|r.stored| == |st.stored| + 1 ==>
            var e := r.stored[|st.stored|];
            && e.title == info.title && e.artist == info.artist && e.album == info.album
            && e.metadata == info.metadata && e.folder == Render(dir) && e.id != -1
            && e.id == AddContent(st.rows, st.next, info.title, info.artist, info.album,
                                  Render(dir), Some(info.metadata), a.dbReachable).id)
  {
    var dir := SongFolder(base, info, a.token);
    var moved := Moved(st.fs, Parent(ini), dir);
    if moved.Some? {
      RecordEntry(st, moved.value, info, Render(dir), a.dbReachable);
    }
  }

  /** A descriptor adds at most one entry, and only when it parsed and
      `StoreEntry`'s conditions hold. */
  lemma StepEntry(st: Ingest, base: Path, ini: Path, a: Attempt)
    ensures var r := Step(st, base, ini, a);
      && st.stored <= r.stored && |r.stored| <= |st.stored| + 1
      && (|r.stored| > |st.stored| ==>
            (!st.raised && ParseSongIni(st.fs, ini).Song?
             && r == Store(st, base, ini, ParseSongIni(st.fs, ini).info, a)))
  {
    if !st.raised {
      match ParseSongIni(st.fs, ini)
      case Skipped =>
      case Raised =>
      case Song(info) => StoreEntry(st, base, ini, info, a);
    }
  }

  /** A descriptor that does not parse, or whose move fails, leaves
      everything as it was, so the descriptors after it are handled as if
      it were not there. */
  lemma SkipIsolated(st: Ingest, base: Path, ini: Path, a: Attempt, inis: seq<Path>, attempts: seq<Attempt>)
    requires |attempts| == |inis| && !st.raised
    requires ParseSongIni(st.fs, ini).Skipped?
      || (&& ParseSongIni(st.fs, ini).Song?
          && (a.moveRefused || Moved(st.fs, Parent(ini), SongFolder(base, ParseSongIni(st.fs, ini).info, a.token)).None?)
          && !Blocked(st.fs, FinalDirectory(base, "songs"))
          && !Blocked(st.fs, Join(FinalDirectory(base, "songs"), ParseSongIni(st.fs, ini).info.artist)))
    ensures Run(st, base, [ini] + inis, [a] + attempts) == Run(st, base, inis, attempts)
  {
    assert ([ini] + inis)[1..] == inis;
    assert ([a] + attempts)[1..] == attempts;
  }

  /** A descriptor whose values cannot be interpolated ends the loop:
      nothing else is moved or stored, and the call raises. */
  lemma InterpolationEndsRun(st: Ingest, base: Path, ini: Path, a: Attempt, inis: seq<Path>, attempts: seq<Attempt>)
    requires |attempts| == |inis| && !st.raised && ParseSongIni(st.fs, ini).Raised?
    ensures Run(st, base, [ini] + inis, [a] + attempts) == st.(raised := true)
  {
    assert ([ini] + inis)[1..] == inis;
    assert ([a] + attempts)[1..] == attempts;
    RunStopped(st.(raised := true), base, inis, attempts);
  }

  /** At most one entry per descriptor, and the list only grows. */
  lemma {:induction false} RunBound(st: Ingest, base: Path, inis: seq<Path>, attempts: seq<Attempt>)
    requires |attempts| == |inis|
    ensures var r := Run(st, base, inis, attempts);
      st.stored <= r.stored && |r.stored| <= |st.stored| + |inis|
    decreases |inis|
  {
    if inis != [] {
      StepEntry(st, base, inis[0], attempts[0]);
      RunBound(Step(st, base, inis[0], attempts[0]), base, inis[1..], attempts[1..]);
    }
  }

  /** The entry at `k` names a row of the table with its id and triple. */
  predicate BackedAt(stored: seq<Entry>, rows: seq<Row>, k: int)
    requires 0 <= k < |stored|
  {
    exists i :: 0 <= i < |rows| && rows[i].id == stored[k].id
      && SameTriple(rows[i], stored[k].title, stored[k].artist, stored[k].album)
  }

  /** Every entry names a row of the table with its id and its triple. */
  predicate Backed(stored: seq<Entry>, rows: seq<Row>) {
    forall k :: 0 <= k < |stored| ==> BackedAt(stored, rows, k)
  }

  /** An id other than -1 from the insert names a row with the triple, and
      the rows before stay where they were. */
  lemma AddBacks(rows: seq<Row>, next: int, title: string, artist: string, album: string,
                 filePath: string, metadata: Option<Metadata>, reachable: bool)
    requires ValidTable(rows, next)
    ensures var r := AddContent(rows, next, title, artist, album, filePath, metadata, reachable);
      && rows <= r.rows
      && (r.id != -1 ==> exists i :: 0 <= i < |r.rows| && r.rows[i].id == r.id && SameTriple(r.rows[i], title, artist, album))
  {
    var r := AddContent(rows, next, title, artist, album, filePath, metadata, reachable);
    if reachable {
      match FindTriple(rows, title, artist, album)
      case Some(k) =>
        assert r.rows[k].id == r.id;
      case None =>
        assert r.rows[|rows|].id == r.id;
    }
  }

  lemma BackedGrow(stored: seq<Entry>, rows: seq<Row>, more: seq<Row>)
    requires Backed(stored, rows) && rows <= more
    ensures Backed(stored, more)
  {
    forall k | 0 <= k < |stored| ensures BackedAt(stored, more, k) {
      assert BackedAt(stored, rows, k);
      var i :| 0 <= i < |rows| && rows[i].id == stored[k].id
        && SameTriple(rows[i], stored[k].title, stored[k].artist, stored[k].album);
      assert more[i] == rows[i];
    }
  }

  /** The insert keeps the table valid and every entry backed. */
  lemma RecordKeeps(st: Ingest, moved: Files, info: SongInfo, folder: string, reachable: bool)
    requires ValidTable(st.rows, st.next) && Backed(st.stored, st.rows)
    ensures var r := Record(st, moved, info, folder, reachable);
      st.rows <= r.rows && ValidTable(r.rows, r.next) && Backed(r.stored, r.rows)
  {
    var ins := AddContent(st.rows, st.next, info.title, info.artist, info.album,
                          folder, Some(info.metadata), reachable);
    var r := Record(st, moved, info, folder, reachable);
    AddKeepsValid(st.rows, st.next, info.title, info.artist, info.album, folder, Some(info.metadata), reachable);
    AddBacks(st.rows, st.next, info.title, info.artist, info.album, folder, Some(info.metadata), reachable);
    BackedGrow(st.stored, st.rows, ins.rows);
    if ins.id != -1 {
      var e := Entry(ins.id, info.title, info.artist, info.album, folder, info.metadata);
      assert r.stored == st.stored + [e];
      forall k | 0 <= k < |r.stored| ensures BackedAt(r.stored, r.rows, k) {
        if k < |st.stored| {
          assert r.stored[k] == st.stored[k];
          assert BackedAt(st.stored, ins.rows, k);
        } else {
          assert r.stored[k] == e;
        }
      }
    } else {
      assert r.stored == st.stored;
    }
  }

  lemma StoreKeeps(st: Ingest, base: Path, ini: Path, info: SongInfo, a: Attempt)
    requires ValidTable(st.rows, st.next) && Backed(st.stored, st.rows)
    ensures var r := Store(st, base, ini, info, a);
      st.rows <= r.rows && ValidTable(r.rows, r.next) && Backed(r.stored, r.rows)
  {
    var songs := FinalDirectory(base, "songs");
    var dir := SongFolder(base, info, a.token);
    var moved := Moved(st.fs, Parent(ini), dir);
    if !Blocked(st.fs, songs) && !Blocked(st.fs, Join(songs, info.artist)) && !a.moveRefused && moved.Some? {
      RecordKeeps(st, moved.value, info, Render(dir), a.dbReachable);
      assert Store(st, base, ini, info, a) == Record(st, moved.value, info, Render(dir), a.dbReachable);
    }
  }

  /** One turn keeps the table valid and every entry backed by a row. */
  lemma StepKeeps(st: Ingest, base: Path, ini: Path, a: Attempt)
    requires ValidTable(st.rows, st.next) && Backed(st.stored, st.rows)
    ensures var r := Step(st, base, ini, a);
      st.rows <= r.rows && ValidTable(r.rows, r.next) && Backed(r.stored, r.rows)
  {
    if !st.raised {
      match ParseSongIni(st.fs, ini)
      case Skipped =>
      case Raised =>
      case Song(info) => StoreKeeps(st, base, ini, info, a);
    }
  }

  /** The whole loop keeps the table valid, and every returned entry is
      backed by a row with its id and triple. */
  lemma {:induction false} RunKeeps(st: Ingest, base: Path, inis: seq<Path>, attempts: seq<Attempt>)
    requires |attempts| == |inis|
    requires ValidTable(st.rows, st.next) && Backed(st.stored, st.rows)
    ensures var r := Run(st, base, inis, attempts);
      st.rows <= r.rows && ValidTable(r.rows, r.next) && Backed(r.stored, r.rows)
    decreases |inis|
  {
    if inis != [] {
      StepKeeps(st, base, inis[0], attempts[0]);
      RunKeeps(Step(st, base, inis[0], attempts[0]), base, inis[1..], attempts[1..]);
    }
  }

  /** The whole call on a valid table: at most one entry per descriptor,
      the table stays valid, and each entry names a row with its id and
      triple. */
  lemma ProcessShape(fs: Files, rows: seq<Row>, next: int, root: Path, base: Path,
                     inis: seq<Path>, attempts: seq<Attempt>)
    requires |attempts| == |inis| && Lists(inis, fs, root) && ValidTable(rows, next)
    ensures var o := ProcessAndStore(fs, rows, next, root, base, inis, attempts);
      && |o.stored| <= |Descriptors(fs, root)|
      && rows <= o.rows && ValidTable(o.rows, o.next) && Backed(o.stored, o.rows)
  {
    RunBound(Ingest(fs, rows, next, [], false), base, inis, attempts);
    RunKeeps(Ingest(fs, rows, next, [], false), base, inis, attempts);
  }

  /** A song whose triple is already in the table is still moved into its
      new folder, adds no row and yields an entry with the existing id. */
  lemma DuplicateEntry(st: Ingest, moved: Files, info: SongInfo, folder: string, k: nat)
    requires ValidTable(st.rows, st.next)
    requires k < |st.rows| && SameTriple(st.rows[k], info.title, info.artist, info.album)
    ensures var r := Record(st, moved, info, folder, true);
      && r.fs == moved && r.rows == st.rows && r.next == st.next
      && r.stored == st.stored + [Entry(st.rows[k].id, info.title, info.artist, info.album, folder, info.metadata)]
  {
    AddDuplicate(st.rows, st.next, info.title, info.artist, info.album, folder, Some(info.metadata), k);
    assert st.rows[k].id >= 1;
  }

  /** A token holds neither a slash nor only dots. */
  lemma FolderNameIsComponent(title: string, token: string)
    requires '/' !in title && Token8(token)
    ensures IsComponent(title + "_" + token)
  {
    var s := title + "_" + token;
    assert s[|title|] == '_';
    forall i | 0 <= i < |s| ensures s[i] != '/' {
      if i >= |title| + 1 {
        assert s[i] == token[i - |title| - 1];
      }
    }
  }

  /** With a plain artist name and a title without a slash, the folder is
      `<root>/songs/<artist>/<title>_<token>`. */
  lemma FolderLayout(base: Path, info: SongInfo, token: string)
    requires IsComponent(info.artist) && '/' !in info.title && Token8(token)
    ensures SongFolder(base, info, token) == base + ["songs", info.artist, info.title + "_" + token]
  {
    FinalDirectoryLayout(base, "songs");
    JoinComponent(base + ["songs"], info.artist);
    assert base + ["songs"] + [info.artist] == base + ["songs", info.artist];
    FolderNameIsComponent(info.title, token);
    JoinComponent(base + ["songs", info.artist], info.title + "_" + token);
    assert base + ["songs", info.artist] + [info.title + "_" + token]
        == base + ["songs", info.artist, info.title + "_" + token];
  }

  /** pathlib lets an absolute artist name replace the songs folder: the
      folder then does not depend on the content root at all. */
  lemma AbsoluteArtistEscapes(base1: Path, base2: Path, info: SongInfo, token: string)
    requires IsAbsolute(info.artist)
    ensures SongFolder(base1, info, token) == SongFolder(base2, info, token)
  {
  }

  /** A title that starts with `/` makes the folder name absolute, and the
      folder then depends neither on the content root nor on the artist. */
  lemma AbsoluteTitleEscapes(base: Path, info: SongInfo, token: string)
    requires IsAbsolute(info.title)
    ensures SongFolder(base, info, token) == Parts(info.title + "_" + token)
  {
    assert (info.title + "_" + token)[0] == info.title[0];
  }

  /** The insert after a successful move, on the table object. */
  method RecordOne(table: SongStore, info: SongInfo, folder: string, reachable: bool,
                   stored: seq<Entry>) returns (stored2: seq<Entry>)
    requires table.Valid()
    modifies table
    ensures table.Valid()
    ensures var r := Record(Ingest(map[], old(table.rows), old(table.next), stored, false), map[], info, folder, reachable);
      table.rows == r.rows && table.next == r.next && stored2 == r.stored
  {
    var id := table.Add(info.title, info.artist, info.album, folder, Some(info.metadata), reachable);
    stored2 := stored;
    if id != -1 {
      stored2 := stored + [Entry(id, info.title, info.artist, info.album, folder, info.metadata)];
    }
  }

  /** A parsed descriptor on the file system and the table. */
  method StoreOne(disk: FileSystem, table: SongStore, base: Path, ini: Path, info: SongInfo, a: Attempt,
                  stored: seq<Entry>) returns (stored2: seq<Entry>, raised: bool)
    requires table.Valid()
    modifies disk, table
    ensures table.Valid()
    ensures Ingest(disk.files, table.rows, table.next, stored2, raised)
         == Store(Ingest(old(disk.files), old(table.rows), old(table.next), stored, false), base, ini, info, a)
  {
    stored2, raised := stored, false;
    var songs := FinalDirectory(base, "songs");
    var ok := disk.MakeDirs(songs);
    if ok {
      ok := disk.MakeDirs(Join(songs, info.artist));
    }
    if !ok {
      return stored, true;
    }
    var dir := SongFolder(base, info, a.token);
    var moved := disk.Move(Parent(ini), dir, a.moveRefused);
    if moved {
      stored2 := RecordOne(table, info, Render(dir), a.dbReachable, stored);
    }
  }

  /** One turn of the loop on the file system and the table. */
  method IngestOne(disk: FileSystem, table: SongStore, base: Path, ini: Path, a: Attempt,
                   stored: seq<Entry>) returns (stored2: seq<Entry>, raised: bool)
    requires table.Valid()
    modifies disk, table
    ensures table.Valid()
    ensures Ingest(disk.files, table.rows, table.next, stored2, raised)
         == Step(Ingest(old(disk.files), old(table.rows), old(table.next), stored, false), base, ini, a)
  {
    var parsed := ParseSongIni(disk.files, ini);
    match parsed
    case Skipped =>
      stored2, raised := stored, false;
    case Raised =>
      stored2, raised := stored, true;
    case Song(info) =>
      stored2, raised := StoreOne(disk, table, base, ini, info, a, stored);
  }

  /** The call as the loop runs it over the file system and the table. */
  method ProcessAndStoreContent(disk: FileSystem, table: SongStore, root: Path, base: Path,
                                inis: seq<Path>, attempts: seq<Attempt>) returns (r: Option<seq<Entry>>)
    requires |attempts| == |inis| && Lists(inis, disk.files, root) && table.Valid()
    modifies disk, table
    ensures table.Valid()
    ensures var o := ProcessAndStore(old(disk.files), old(table.rows), old(table.next), root, base, inis, attempts);
      && disk.files == o.fs && table.rows == o.rows && table.next == o.next
      && r == if o.raised then None else Some(o.stored)
  {
    ghost var goal := ProcessAndStore(disk.files, table.rows, table.next, root, base, inis, attempts);
    var stored: seq<Entry> := [];
    var i := 0;
    while i < |inis|
      invariant 0 <= i <= |inis|
      invariant table.Valid()
      invariant Run(Ingest(disk.files, table.rows, table.next, stored, false), base, inis[i..], attempts[i..]) == goal
    {
      assert inis[i..][1..] == inis[i + 1..] && attempts[i..][1..] == attempts[i + 1..];
      var raised;
      stored, raised := IngestOne(disk, table, base, inis[i], attempts[i], stored);
      if raised {
        RunStopped(Ingest(disk.files, table.rows, table.next, stored, true), base, inis[i + 1..], attempts[i + 1..]);
        return None;
      }
      i := i + 1;
    }
    r := Some(stored);
  }
}
