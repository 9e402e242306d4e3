/** `extract_archive`, `extract_content` and `list_all_content`: an upload
    is either an archive, extracted into a scratch directory and handed to
    the song ingestion, or a single file moved into its content folder.
    What the archive decoder does with the bytes is a parameter. */
module ContentUtils {
  import opened Wrappers
  import opened Text
  import opened Paths
  import opened Disk
  import opened SongTable
  import opened ContentLayout
  import opened ContentManager

  /** An exception raised while decoding: `rarfile.NeedFirstVolume`,
      `rarfile.RarCannotExec`, or any other, each with its `str(e)`. */
  datatype Raise = NeedFirstVolume(message: string) | CannotExec(message: string) | OtherError(message: string)

  /** How decoding the archive ends: the entries it writes (paths relative
      to the extraction directory), or an exception. */
  datatype Decoding = Decoded(entries: map<Path, Blob>) | Raised(error: Raise)

  /** The dict `extract_archive` returns: `{"success": True}` or
      `{"error": message}`. */
  datatype ArchiveResult = Extracted | ArchiveError(message: string)

  const MultiPartMessage: string := "Multi-part RAR archives are not supported"
  const UnrarMessage: string := "RAR extraction failed. Ensure 'unrar' is installed"
  const UnsupportedMessage: string := "Unsupported file format"
  const SongsMessage: string := "\U{26A0}\U{FE0F} Please upload a .zip or .rar file containing a song.ini"

  function StoredMessage(name: string): string {
    "\U{2705} Stored file: " + name
  }

  /** The message of a decoding exception: the two RAR cases have their own
      text, everything else is `str(e)`. */
  function ArchiveMessage(ext: string, e: Raise): string {
    if ext != ".rar" then e.message
    else match e
      case NeedFirstVolume(_) => MultiPartMessage
      case CannotExec(_) => UnrarMessage
      case OtherError(m) => m
  }

  /** `extract_archive(file_path, extract_dir, file_ext)`: the files after
      it and its result. */
  function ExtractArchive(fs: Files, dir: Path, ext: string, decoding: Decoding): (r: (Files, ArchiveResult))
    ensures r.1.ArchiveError? ==> r.0 == fs
    ensures r.1.Extracted? ==> decoding.Decoded? && forall e :: e in decoding.entries ==> dir + e in r.0
  {
    if ext != ".zip" && ext != ".rar" then (fs, ArchiveError(UnsupportedMessage))
    else match decoding
      case Decoded(entries) => (Placed(fs, dir, entries), Extracted)
      case Raised(e) => (fs, ArchiveError(ArchiveMessage(ext, e)))
  }

  /** The outcomes of `extract_archive`: a known extension either succeeds
      with every entry written below the directory, or fails with the
      files untouched; any other extension is refused. */
  lemma ArchiveOutcomes(fs: Files, dir: Path, ext: string, decoding: Decoding)
    ensures var (fs2, res) := ExtractArchive(fs, dir, ext, decoding);
      && (ext != ".zip" && ext != ".rar" ==> fs2 == fs && res == ArchiveError(UnsupportedMessage))
      && (res.Extracted? <==> (ext == ".zip" || ext == ".rar") && decoding.Decoded?)
      && (res.Extracted? ==> forall e :: e in decoding.entries ==> dir + e in fs2 && fs2[dir + e] == decoding.entries[e])
      && (res.ArchiveError? ==> fs2 == fs)
      && (ext == ".rar" && decoding.Raised? && decoding.error.NeedFirstVolume? ==> res == ArchiveError(MultiPartMessage))
      && (ext == ".rar" && decoding.Raised? && decoding.error.CannotExec? ==> res == ArchiveError(UnrarMessage))
      && ((decoding.Raised? && decoding.error.OtherError? && (ext == ".zip" || ext == ".rar"))
            ==> res == ArchiveError(decoding.error.message))
  {
  }

  /** What `extract_content` returns: the list from the song ingestion, the
      stored-file dict, an `{"error": …}` with a message the model knows,
      or the `{"error": str(e)}` of an exception it does not name. */
  datatype ContentResult =
    | Songs(entries: seq<Entry>)
    | StoredFile(message: string, file: string)
    | Error(message: string)
    | Crashed

  /** The state after `extract_content` and its result. */
  datatype Extraction = Extraction(fs: Files, rows: seq<Row>, next: int, result: ContentResult)

  /** What the call meets besides the files and the table: the content
      root, the temp directory, the six hex digits of the scratch name, the
      decoder's outcome, the descriptors `rglob` yields, the per-descriptor
      attempts and whether the single-file move fails. */
  datatype Env = Env(base: Path, tmp: Path, scratchToken: string, decoding: Decoding,
                     inis: seq<Path>, attempts: seq<Attempt>, moveRefused: bool)

  predicate WellFormed(env: Env) {
    |env.attempts| == |env.inis|
  }

  /** `Path(tempfile.gettempdir()) / f"extract_{uuid.uuid4().hex[:6]}"`. */
  function Scratch(env: Env): Path {
    env.tmp + ["extract_" + env.scratchToken]
  }

  /** `Path(file_path).suffix.lower()`. */
  function Extension(file: Path): string {
    Lower(Suffix(Name(file)))
  }

  predicate IsArchive(ext: string) {
    ext == ".zip" || ext == ".rar"
  }

  /** `env.inis` is the order in which `rglob` yields the descriptors of
      the extracted tree once the archive itself is deleted. */
  predicate Scanned(fs: Files, file: Path, env: Env) {
    && WellFormed(env)
    && (IsArchive(Extension(file)) && env.decoding.Decoded? ==>
          Lists(env.inis, Placed(fs, Scratch(env), env.decoding.entries) - {file}, Scratch(env)))
  }

  /** The archive branch, before the clean-up. */
  function FromArchive(fs: Files, rows: seq<Row>, next: int, file: Path, env: Env): (r: Extraction)
    requires Scanned(fs, file, env)
    ensures r.result.Error? ==> r.rows == rows && r.next == next
    ensures r.result.Songs? ==> IsArchive(Extension(file)) && env.decoding.Decoded?
  {
    var scratch := Scratch(env);
    if Blocked(fs, scratch) then Extraction(fs, rows, next, Crashed)
    else
      var (fs1, res) := ExtractArchive(fs, scratch, Extension(file), env.decoding);
      if res.ArchiveError? then Extraction(fs1, rows, next, Error(res.message))
      else match WithoutFile(fs1, file)
        case None => Extraction(fs1, rows, next, Crashed)
        case Some(fs2) =>
          var o := ProcessAndStore(fs2, rows, next, Scratch(env), env.base, env.inis, env.attempts);
          Extraction(o.fs, o.rows, o.next, if o.raised then Crashed else Songs(o.stored))
  }

  /** The single-file branch, before the clean-up: the files after it and
      the result. The final directory is made before the `songs` check. */
  function FromFile(fs: Files, file: Path, contentType: string, env: Env): (r: (Files, ContentResult))
    ensures r.1.StoredFile? ==> contentType != "songs" && r.1.message == StoredMessage(Name(file))
    ensures !r.1.StoredFile? ==> r.0 == fs
  {
    match GetFinalDirectory(fs, env.base, contentType)
    case None => (fs, Crashed)
    case Some(dir) =>
      if contentType == "songs" then (fs, Error(SongsMessage))
      else
        var dst := Join(dir, Name(file));
        var moved := Moved(fs, file, dst);
        if env.moveRefused || moved.None? then (fs, Crashed)
        else (moved.value, StoredFile(StoredMessage(Name(file)), Render(dst)))
  }

  /** `extract_content(file_path, content_type)`; the scratch directory is
      removed on every path. */
  function ExtractContent(fs: Files, rows: seq<Row>, next: int, file: Path, contentType: string, env: Env): (r: Extraction)
    requires Scanned(fs, file, env)
    ensures forall p :: p in r.fs ==> !Below(p, Scratch(env))
  {
    var x := if IsArchive(Extension(file)) then FromArchive(fs, rows, next, file, env)
             else var (fs2, res) := FromFile(fs, file, contentType, env); Extraction(fs2, rows, next, res);
    x.(fs := WithoutTree(x.fs, Scratch(env)))
  }

  /** An archive that fails to extract gives back the extractor's error:
      nothing is stored, the table is unchanged and the archive is kept. */
  lemma ArchiveErrorPassedOn(fs: Files, rows: seq<Row>, next: int, file: Path, contentType: string, env: Env)
    requires Scanned(fs, file, env) && IsArchive(Extension(file)) && !Blocked(fs, Scratch(env))
    requires env.decoding.Raised?
    requires file in fs && !Below(file, Scratch(env))
    ensures var r := ExtractContent(fs, rows, next, file, contentType, env);
      && r.result == Error(ArchiveMessage(Extension(file), env.decoding.error))
      && r.rows == rows && r.next == next
      && r.fs == WithoutTree(fs, Scratch(env)) && file in r.fs && r.fs[file] == fs[file]
  {
  }

  /** After a successful extraction the archive is deleted and the result
      is what the song ingestion returns over the extracted files. */
  lemma ArchiveIngested(fs: Files, rows: seq<Row>, next: int, file: Path, contentType: string, env: Env)
    requires Scanned(fs, file, env) && IsArchive(Extension(file)) && !Blocked(fs, Scratch(env))
    requires env.decoding.Decoded? && file in Placed(fs, Scratch(env), env.decoding.entries)
    ensures var cleared := Placed(fs, Scratch(env), env.decoding.entries) - {file};
      var o := ProcessAndStore(cleared, rows, next, Scratch(env), env.base, env.inis, env.attempts);
      var r := ExtractContent(fs, rows, next, file, contentType, env);
      && file !in cleared
      && r.rows == o.rows && r.next == o.next && r.fs == WithoutTree(o.fs, Scratch(env))
      && r.result == if o.raised then Crashed else Songs(o.stored)
  {
  }

  /** A single file uploaded as `songs` is refused and not moved. */
  lemma SongsNeedArchive(fs: Files, rows: seq<Row>, next: int, file: Path, env: Env)
    requires Scanned(fs, file, env) && !IsArchive(Extension(file))
    requires !Blocked(fs, FinalDirectory(env.base, "songs"))
    ensures var r := ExtractContent(fs, rows, next, file, "songs", env);
      && r.result == Error(SongsMessage)
      && r.rows == rows && r.next == next && r.fs == WithoutTree(fs, Scratch(env))
  {
  }

  /** A single file of any other type goes to `<root>/<type>/<name>` and
      the result names that path; the table is not touched. */
  lemma AssetStored(fs: Files, rows: seq<Row>, next: int, file: Path, contentType: string, env: Env)
    requires Scanned(fs, file, env) && !IsArchive(Extension(file)) && contentType != "songs"
    requires !Blocked(fs, FinalDirectory(env.base, contentType)) && !env.moveRefused
    requires Moved(fs, file, Join(Join(env.base, contentType), Name(file))).Some?
    ensures var dst := Join(Join(env.base, contentType), Name(file));
      var r := ExtractContent(fs, rows, next, file, contentType, env);
      && r.result == StoredFile(StoredMessage(Name(file)), Render(dst))
      && r.rows == rows && r.next == next
      && r.fs == WithoutTree(Moved(fs, file, dst).value, Scratch(env))
  {
    SubfolderIsType(contentType);
  }

  /** Only archives reach the table. */
  lemma FilesLeaveTable(fs: Files, rows: seq<Row>, next: int, file: Path, contentType: string, env: Env)
    requires Scanned(fs, file, env) && !IsArchive(Extension(file))
    ensures var r := ExtractContent(fs, rows, next, file, contentType, env);
      r.rows == rows && r.next == next && !r.result.Songs?
  {
  }

  /** The extension test ignores letter case. */
  lemma ArchiveCaseInsensitive(file: Path)
    requires Suffix(Name(file)) == ".ZIP"
    ensures IsArchive(Extension(file))
  {
    assert Lower(".ZIP") == ".zip";
  }

  /** `extract_content` as it runs on the file system and the table. */
  method ExtractContentOn(disk: FileSystem, table: SongStore, file: Path, contentType: string, env: Env)
    returns (result: ContentResult)
    requires Scanned(disk.files, file, env) && table.Valid()
    modifies disk, table
    ensures table.Valid()
    ensures var x := ExtractContent(old(disk.files), old(table.rows), old(table.next), file, contentType, env);
      disk.files == x.fs && table.rows == x.rows && table.next == x.next && result == x.result
  {
    var scratch := Scratch(env);
    if IsArchive(Extension(file)) {
      result := ArchiveOn(disk, table, file, env);
    } else {
      result := FileOn(disk, file, contentType, env);
    }
    disk.RemoveTree(scratch);
  }

  /** The archive branch on the file system and the table. */
  method ArchiveOn(disk: FileSystem, table: SongStore, file: Path, env: Env) returns (result: ContentResult)
    requires Scanned(disk.files, file, env) && table.Valid()
    modifies disk, table
    ensures table.Valid()
    ensures var x := FromArchive(old(disk.files), old(table.rows), old(table.next), file, env);
      disk.files == x.fs && table.rows == x.rows && table.next == x.next && result == x.result
  {
    var ok := disk.MakeDirs(Scratch(env));
    if !ok {
      return Crashed;
    }
    var ext := Extension(file);
    var res := ArchiveResult.Extracted;
    if ext != ".zip" && ext != ".rar" {
      res := ArchiveError(UnsupportedMessage);
    } else if env.decoding.Raised? {
      res := ArchiveError(ArchiveMessage(ext, env.decoding.error));
    } else {
      disk.Place(Scratch(env), env.decoding.entries);
    }
    if res.ArchiveError? {
      return Error(res.message);
    }
    ok := disk.RemoveFile(file);
    if !ok {
      return Crashed;
    }
    var stored := ProcessAndStoreContent(disk, table, Scratch(env), env.base, env.inis, env.attempts);
    result := if stored.Some? then Songs(stored.value) else Crashed;
  }

  /** The single-file branch on the file system. */
  method FileOn(disk: FileSystem, file: Path, contentType: string, env: Env) returns (result: ContentResult)
    modifies disk
    ensures (disk.files, result) == FromFile(old(disk.files), file, contentType, env)
  {
    var dir := GetFinalDirectory(disk.files, env.base, contentType);
    if dir.None? {
      return Crashed;
    }
    if contentType == "songs" {
      return Error(SongsMessage);
    }
    var dst := Join(dir.value, Name(file));
    var moved := disk.Move(file, dst, env.moveRefused);
    result := if moved then StoredFile(StoredMessage(Name(file)), Render(dst)) else Crashed;
  }

  /** `list_all_content` as written: `conn` is the synchronous context
      manager `get_connection()` returns, so `async with conn` raises
      before any query and the handler returns the empty list. */
  function ListAllContentAsWritten(rows: seq<Row>, reachable: bool): (r: seq<Song>)
    ensures r == []
  {
    []
  }

  /** As written, a table with songs in it is listed as empty. */
  lemma ListAllContentLosesRows(rows: seq<Row>)
    requires rows != []
    ensures ListAllContentAsWritten(rows, true) != ListAllContent(rows, true)
    ensures |ListAllContent(rows, true)| == |rows|
  {
  }

  /** `list_all_content` as intended: every row of `SELECT * FROM songs`
      mapped to its six fields, or the empty list on an error. */
  function ListAllContent(rows: seq<Row>, reachable: bool): (r: seq<Song>)
    ensures reachable ==> |r| == |rows|
    ensures !reachable ==> r == []
  {
    if reachable then ToSongs(rows) else []
  }

  /** The intended listing holds exactly the songs of the table. */
  lemma ListAllContentExact(rows: seq<Row>, s: Song)
    ensures s in ListAllContent(rows, true) <==> exists x :: x in rows && s == ToSong(x)
  {
    var r := ListAllContent(rows, true);
    if s in r {
      var i :| 0 <= i < |r| && r[i] == s;
      assert rows[i] in rows;
    }
    if exists x :: x in rows && s == ToSong(x) {
      var x :| x in rows && s == ToSong(x);
      var i :| 0 <= i < |rows| && rows[i] == x;
      assert r[i] == s;
    }
  }
}
