/** The upload route and its helpers: which content types and file
    extensions are accepted, the size limit checked chunk by chunk, the
    temporary file name, the order of the checks in `upload_content`, what
    its result becomes, the download's file name and the paging of the
    content listing. */
module ContentRoutes {
  import opened Wrappers
  import opened Text
  import opened Paths
  import opened Disk
  import opened SongTable
  import opened ContentManager
  import opened ContentUtils
  import opened ContentLayout

  /** `ALLOWED_CONTENT_TYPES`. */
  const AllowedContentTypes: set<string> := {"backgrounds", "colors", "highways", "songs"}

  /** `ALLOWED_EXTENSIONS`. */
  const AllowedExtensions: set<string> := {".zip", ".rar", ".png", ".jpg"}

  /** The `MAX_FILE_SIZE_GB` used when the environment does not set one. */
  const DefaultMaxGb: int := 10

  /** The size checker reads the upload 1 MiB at a time. */
  const ChunkSize: nat := 1024 * 1024

  /** `MAX_FILE_SIZE_BYTES` for a `MAX_FILE_SIZE_GB` of `gb`. */
  function MaxBytes(gb: int): (r: int)
    ensures gb >= 0 ==> r >= 0
    ensures r == gb * 1073741824
  {
    gb * 1024 * 1024 * 1024
  }

  /** A validator passes, or raises an `HTTPException` with a status and a
      detail. */
  datatype Check = Pass | Reject(status: nat, detail: string)

  // ---- validate_file_extension ----

  /** `os.path.splitext(file_name)[-1].lower()`. */
  function ExtensionOf(fileName: string): string {
    Lower(SplitExt(fileName))
  }

  /** `validate_file_extension`: passes exactly when the extension is
      one of the four, and otherwise refuses with 400 naming it. */
  function ValidateFileExtension(fileName: string): (r: Check)
    ensures r.Pass? <==> ExtensionOf(fileName) in AllowedExtensions
    ensures r.Reject? ==> r == Reject(400, "Invalid file extension: " + ExtensionOf(fileName))
  {
    var ext := ExtensionOf(fileName);
    if ext in AllowedExtensions then Pass else Reject(400, "Invalid file extension: " + ext)
  }

  lemma LowerDrop(s: string, i: nat)
    requires i <= |s|
    ensures Lower(s[i..]) == Lower(s)[i..]
  {
  }

  /** An accepted name ends, in any letter case, with one of the four
      extensions, and something comes before it. */
  lemma ExtensionSound(fileName: string)
    requires ValidateFileExtension(fileName).Pass?
    ensures exists e :: e in AllowedExtensions && |e| < |fileName|
                        && Lower(fileName)[|fileName| - |e|..] == e
  {
    var sep := LastIndexOf(fileName, '/');
    var dot := LastIndexOf(fileName, '.');
    var e := ExtensionOf(fileName);
    assert SplitExt(fileName) == fileName[dot..];
    LowerDrop(fileName, dot);
    assert |e| == |fileName| - dot;
    assert e in AllowedExtensions && |e| < |fileName| && Lower(fileName)[|fileName| - |e|..] == e;
  }

  /** After a stem that does not end in `.` or `/`, an extension (a dot
      and no further dot or slash) is what `splitext` splits off. */
  lemma SplitExtNamed(stem: string, ext: string)
    requires stem != [] && stem[|stem| - 1] != '.' && stem[|stem| - 1] != '/'
    requires ext != [] && ext[0] == '.' && '.' !in ext[1..] && '/' !in ext
    ensures SplitExt(stem + ext) == ext
  {
    var p := stem + ext;
    var sep := LastIndexOf(p, '/');
    var dot := LastIndexOf(p, '.');
    assert p[|stem|] == '.';
    forall k | |stem| < k < |p| ensures p[k] != '.' && p[k] != '/' {
      assert p[k] == ext[1..][k - |stem| - 1];
    }
    assert dot == |stem|;
    assert sep < |stem| - 1 by {
      assert p[|stem| - 1] != '/';
      forall k | |stem| <= k < |p| ensures p[k] != '/' {
        assert p[k] == ext[k - |stem|];
      }
    }
    assert sep < |stem| - 1 < dot && p[|stem| - 1] != '.';
    assert p[dot..] == ext;
  }

  /** Such a name is accepted exactly when its extension lower-cases to
      one of the four. */
  lemma ExtensionNamed(stem: string, ext: string)
    requires stem != [] && stem[|stem| - 1] != '.' && stem[|stem| - 1] != '/'
    requires ext != [] && ext[0] == '.' && '.' !in ext[1..] && '/' !in ext
    ensures ValidateFileExtension(stem + ext).Pass? <==> Lower(ext) in AllowedExtensions
  {
    SplitExtNamed(stem, ext);
  }

  /** A name without a dot is refused. */
  lemma NoDotRefused(fileName: string)
    requires '.' !in fileName
    ensures ValidateFileExtension(fileName) == Reject(400, "Invalid file extension: ")
  {
    var dot := LastIndexOf(fileName, '.');
    assert dot == -1;
    assert SplitExt(fileName) == "";
  }

  /** A dot file whose only dot is its first character is refused:
      `splitext` gives it no extension. */
  lemma DotFileRefused(rest: string)
    requires '.' !in rest && '/' !in rest
    ensures ValidateFileExtension("." + rest) == Reject(400, "Invalid file extension: ")
  {
    var p := "." + rest;
    forall k | 0 < k < |p| ensures p[k] != '.' && p[k] != '/' {
      assert p[k] == rest[k - 1];
    }
    assert p[0] == '.';
    assert LastIndexOf(p, '.') == 0;
    assert LastIndexOf(p, '/') == -1;
    assert SplitExt(p) == "";
  }

  /** `.jpeg` is not one of the four. */
  lemma JpegRefused()
    ensures ValidateFileExtension("cover.jpeg").Reject?
  {
    assert "cover.jpeg" == "cover" + ".jpeg";
    assert Lower(".jpeg") == ".jpeg";
    ExtensionNamed("cover", ".jpeg");
  }

  /** The extension is matched in any letter case. */
  lemma UpperCaseAccepted()
    ensures ValidateFileExtension("cover.JPG") == Pass
  {
    assert "cover.JPG" == "cover" + ".JPG";
    assert Lower(".JPG") == ".jpg";
    ExtensionNamed("cover", ".JPG");
  }

  /** Only the last extension counts: an allowed extension earlier in the
      name does not let a refused one through. */
  lemma LastExtensionCounts()
    ensures ValidateFileExtension("pack.png.exe") == Reject(400, "Invalid file extension: .exe")
  {
    assert "pack.png.exe" == "pack.png" + ".exe";
    assert Lower(".exe") == ".exe";
    ExtensionNamed("pack.png", ".exe");
    SplitExtNamed("pack.png", ".exe");
  }

  // ---- validate_file_size ----

  function TooLarge(gb: int): string {
    "File too large (max " + IntToDecimal(gb) + "GB)"
  }

  /** What the size check decides. The running total is compared after
      every chunk, so an empty file passes whatever the limit. */
  function SizeCheck(fileSize: nat, gb: int): (r: Check)
    ensures r.Pass? <==> fileSize == 0 || fileSize <= MaxBytes(gb)
    ensures r.Reject? ==> r.status == 413
  {
    if fileSize > 0 && fileSize > MaxBytes(gb) then Reject(413, TooLarge(gb)) else Pass
  }

  /** `validate_file_size` on a file of `fileSize` bytes: read it in
      chunks of at most 1 MiB, add up their lengths, and stop with 413 as
      soon as the total exceeds the limit. */
  method ValidateFileSize(fileSize: nat, gb: int) returns (r: Check)
    ensures r == SizeCheck(fileSize, gb)
  {
    var max := MaxBytes(gb);
    var size := 0;
    var remaining := fileSize;
    while remaining > 0
      invariant size + remaining == fileSize
      invariant size == 0 || size <= max
      decreases remaining
    {
      var chunk := if remaining < ChunkSize then remaining else ChunkSize;
      size := size + chunk;
      remaining := remaining - chunk;
      if size > max {
        return Reject(413, TooLarge(gb));
      }
    }
    return Pass;
  }

  /** A file of exactly the limit passes, one byte more does not. */
  lemma SizeBoundary(gb: int)
    requires gb > 0
    ensures SizeCheck(MaxBytes(gb) as nat, gb) == Pass
    ensures SizeCheck((MaxBytes(gb) + 1) as nat, gb) == Reject(413, TooLarge(gb))
  {
  }

  /** With no setting the limit is 10 GiB. */
  lemma DefaultLimit()
    ensures MaxBytes(DefaultMaxGb) == 10737418240
  {
  }

  // ---- get_temp_file and the download's file name ----

  /** `os.path.join(tempdir, f"{hex}_{file_name}")`. */
  function TempFile(tmpDir: string, hex: string, fileName: string): (r: string)
    ensures Hex32(hex) ==> |r| >= 33 + |fileName| && r[|r| - 33 - |fileName|..] == hex + "_" + fileName
  {
    PosixJoin(tmpDir, hex + "_" + fileName)
  }

  /** `uuid.uuid4().hex`: 32 lower-case hex digits. */
  predicate Hex32(t: string) {
    |t| == 32 && forall i :: 0 <= i < |t| ==> IsHexDigit(t[i])
  }

  /** Under a temp directory that does not end in `/`, the temp file is
      `<tempdir>/<hex>_<file name>`, whatever the file name. */
  lemma TempFileLayout(tmpDir: string, hex: string, fileName: string)
    requires Hex32(hex) && tmpDir != [] && tmpDir[|tmpDir| - 1] != '/'
    ensures TempFile(tmpDir, hex, fileName) == tmpDir + "/" + hex + "_" + fileName
  {
    assert (hex + "_" + fileName)[0] == hex[0];
  }

  /** Two tokens give two different temp files. */
  lemma TempFileDistinct(tmpDir: string, hex1: string, hex2: string, fileName: string)
    requires Hex32(hex1) && Hex32(hex2) && hex1 != hex2
    requires tmpDir != [] && tmpDir[|tmpDir| - 1] != '/'
    ensures TempFile(tmpDir, hex1, fileName) != TempFile(tmpDir, hex2, fileName)
  {
    TempFileLayout(tmpDir, hex1, fileName);
    TempFileLayout(tmpDir, hex2, fileName);
    var n := |tmpDir| + 1;
    var k :| 0 <= k < 32 && hex1[k] != hex2[k];
    assert TempFile(tmpDir, hex1, fileName)[n + k] == hex1[k];
    assert TempFile(tmpDir, hex2, fileName)[n + k] == hex2[k];
  }

  /** `url.split("/")[-1]`. */
  function DownloadFileName(url: string): (r: string)
    ensures '/' !in r
  {
    LastPiece(url, '/')
  }

  lemma {:induction false} JoinLast(parts: seq<string>, sep: char)
    requires |parts| >= 2
    ensures JoinWith(parts, sep) == JoinWith(parts[..|parts| - 1], sep) + [sep] + parts[|parts| - 1]
    decreases |parts|
  {
    if |parts| > 2 {
      JoinLast(parts[1..], sep);
      assert parts[1..][..|parts| - 2] == parts[..|parts| - 1][1..];
    }
  }

  /** The download's file name is the end of the URL after its last `/`,
      or the whole URL when it has none. */
  lemma DownloadNameTail(url: string)
    ensures var name := DownloadFileName(url);
      && '/' !in name && |name| <= |url| && url[|url| - |name|..] == name
      && ('/' in url ==> |name| < |url| && url[|url| - |name| - 1] == '/')
      && ('/' !in url ==> name == url)
  {
    var pieces := Split(url, '/');
    var name := pieces[|pieces| - 1];
    JoinSplit(url, '/');
    if |pieces| >= 2 {
      JoinLast(pieces, '/');
    } else {
      assert url == name;
    }
  }

  // ---- upload_content ----

  /** The uploaded file: its name, its size in bytes and its bytes. */
  datatype Upload = Upload(fileName: string, size: nat, data: Blob)

  /** What the route answers: the `HTTPException` of a failed check, the
      dict a processing function returned, the catch-all
      `{"status": "error", "message": "Internal Server Error"}`, or an
      exception from the clean-up that escapes the route. */
  datatype Response = Refused(status: nat, detail: string) | Answer(result: ContentResult) | InternalError | Escaped

  datatype Outcome = Outcome(fs: Files, rows: seq<Row>, next: int, response: Response)

  /** The checks, in the order the route makes them: content type, size,
      extension. */
  function Validate(upload: Upload, contentType: string, gb: int): Check {
    if contentType !in AllowedContentTypes then Reject(400, "Invalid content type: " + contentType)
    else match SizeCheck(upload.size, gb)
      case Reject(s, d) => Reject(s, d)
      case Pass => ValidateFileExtension(upload.fileName)
  }

  /** Whether `open(temp, "wb")` succeeds: the directory it goes in is the
      temp directory or already holds files, no file stands in the way,
      and `temp` is not a directory. */
  predicate CanOpen(fs: Files, temp: Path, tmp: Path) {
    && !Blocked(fs, Parent(temp)) && !IsDir(fs, temp)
    && (Parent(temp) == tmp || Parent(temp) == [] || IsDir(fs, Parent(temp)))
  }

  /** The dict check: a list is not a dict. */
  function Answered(result: ContentResult): Response {
    if result.Songs? then InternalError else Answer(result)
  }

  /** The second song ingestion, over the temp file's path: the order in
      which `rglob` yields the descriptors below it, and what each one
      meets. */
  datatype Rescan = Rescan(inis: seq<Path>, attempts: seq<Attempt>)

  /** The extraction's inputs are well formed, and `rescan` lists the
      descriptors below `temp` in the files the extraction leaves. */
  predicate Ready(fs: Files, rows: seq<Row>, next: int, temp: Path, upload: Upload,
                  contentType: string, env: Env, rescan: Rescan) {
    && Scanned(fs[temp := upload.data], temp, env)
    && |rescan.attempts| == |rescan.inis|
    && (contentType == "songs" && CanOpen(fs, temp, env.tmp) ==>
          Lists(rescan.inis, ExtractContent(fs[temp := upload.data], rows, next, temp, contentType, env).fs, temp))
  }

  /** The `try` block: save the upload, extract it, and for `songs` run
      the song ingestion again over the temp file's path. */
  function Processed(fs: Files, rows: seq<Row>, next: int, temp: Path, upload: Upload,
                     contentType: string, env: Env, rescan: Rescan): (o: Outcome)
    requires Ready(fs, rows, next, temp, upload, contentType, env, rescan)
    ensures !o.response.Refused? && !o.response.Escaped?
    ensures !CanOpen(fs, temp, env.tmp) ==> o == Outcome(fs, rows, next, InternalError)
  {
    if !CanOpen(fs, temp, env.tmp) then Outcome(fs, rows, next, InternalError)
    else
      var x := ExtractContent(fs[temp := upload.data], rows, next, temp, contentType, env);
      if contentType == "songs" then
        var again := ProcessAndStore(x.fs, x.rows, x.next, temp, env.base, rescan.inis, rescan.attempts);
        Outcome(again.fs, again.rows, again.next, Answered(Songs(again.stored)))
      else Outcome(x.fs, x.rows, x.next, Answered(x.result))
  }

  /** With no descriptor below the temp file's path, the second ingestion
      has nothing to do: the route ends with what the extraction left. */
  lemma RescanEmpty(fs: Files, rows: seq<Row>, next: int, temp: Path, upload: Upload,
                    env: Env, rescan: Rescan)
    requires Ready(fs, rows, next, temp, upload, "songs", env, rescan) && CanOpen(fs, temp, env.tmp)
    requires Descriptors(ExtractContent(fs[temp := upload.data], rows, next, temp, "songs", env).fs, temp) == {}
    ensures rescan.inis == []
    ensures var x := ExtractContent(fs[temp := upload.data], rows, next, temp, "songs", env);
      Processed(fs, rows, next, temp, upload, "songs", env, rescan) == Outcome(x.fs, x.rows, x.next, InternalError)
  {
    var x := ExtractContent(fs[temp := upload.data], rows, next, temp, "songs", env);
    NoDescriptorsNoList(rescan.inis, x.fs, temp);
  }

  /** A single file uploaded as `songs` leaves nothing below the temp
      file's path, so the second ingestion finds no descriptor, and the
      table is untouched. */
  lemma SongsFileNoRescan(fs: Files, rows: seq<Row>, next: int, temp: Path, upload: Upload,
                          env: Env, rescan: Rescan)
    requires Ready(fs, rows, next, temp, upload, "songs", env, rescan) && CanOpen(fs, temp, env.tmp)
    requires !IsArchive(Extension(temp)) && !Blocked(fs[temp := upload.data], FinalDirectory(env.base, "songs"))
    ensures rescan.inis == []
    ensures var o := Processed(fs, rows, next, temp, upload, "songs", env, rescan);
      o.rows == rows && o.next == next && o.response == InternalError
  {
    var fs1 := fs[temp := upload.data];
    var x := ExtractContent(fs1, rows, next, temp, "songs", env);
    SongsNeedArchive(fs1, rows, next, temp, env);
    forall p | p in x.fs ensures !Below(p, temp) {
      assert p in fs1;
      if p != temp {
        assert p in fs;
      }
    }
    assert Descriptors(x.fs, temp) == {};
    RescanEmpty(fs, rows, next, temp, upload, env, rescan);
  }

  /** The `finally` block: `os.remove(temp)`, where only a missing file is
      forgiven. */
  function Cleaned(o: Outcome, temp: Path): Outcome {
    if temp in o.fs then o.(fs := o.fs - {temp})
    else if IsDir(o.fs, temp) || Blocked(o.fs, Parent(temp)) then o.(response := Escaped)
    else o
  }

  /** The inputs of an upload that passes the checks are well formed: the
      temp file is `TempFile(tmpDir, hex, name)` and the extraction works
      in `tmpDir`. */
  predicate UploadReady(fs: Files, rows: seq<Row>, next: int, upload: Upload, contentType: string,
                        gb: int, tmpDir: string, hex: string, env: Env, rescan: Rescan) {
    Validate(upload, contentType, gb).Pass? ==>
      Ready(fs, rows, next, Parts(TempFile(tmpDir, hex, upload.fileName)), upload, contentType,
            env.(tmp := Parts(tmpDir)), rescan)
  }

  /** Whatever the `try` block left, the clean-up either raises or leaves
      no file at `temp`, and it changes nothing else. */
  lemma CleanedRemoves(o: Outcome, temp: Path)
    ensures var c := Cleaned(o, temp);
      && (c.response != Escaped ==> temp !in c.fs)
      && c.rows == o.rows && c.next == o.next && c.fs == o.fs - {temp}
  {
  }

  /** `upload_content(file, content_type)`. The temp directory is
      `tmpDir`, both for the temp file and for the scratch directory of the
      extraction, and `hex` is the temp file's token. */
  function UploadContent(fs: Files, rows: seq<Row>, next: int, upload: Upload, contentType: string,
                         gb: int, tmpDir: string, hex: string, env: Env, rescan: Rescan): (o: Outcome)
    requires UploadReady(fs, rows, next, upload, contentType, gb, tmpDir, hex, env, rescan)
    ensures o.response.Refused? ==> o == Outcome(fs, rows, next, Refused(o.response.status, o.response.detail))
  {
    match Validate(upload, contentType, gb)
    case Reject(s, d) => Outcome(fs, rows, next, Refused(s, d))
    case Pass =>
      var temp := Parts(TempFile(tmpDir, hex, upload.fileName));
      var env2 := env.(tmp := Parts(tmpDir));
      Cleaned(Processed(fs, rows, next, temp, upload, contentType, env2, rescan), temp)
  }

  /** An unknown content type is refused with 400 before anything else. */
  lemma ContentTypeFirst(fs: Files, rows: seq<Row>, next: int, upload: Upload, contentType: string,
                         gb: int, tmpDir: string, hex: string, env: Env, rescan: Rescan)
    requires UploadReady(fs, rows, next, upload, contentType, gb, tmpDir, hex, env, rescan) && contentType !in AllowedContentTypes
    ensures UploadContent(fs, rows, next, upload, contentType, gb, tmpDir, hex, env, rescan)
         == Outcome(fs, rows, next, Refused(400, "Invalid content type: " + contentType))
  {
  }

  /** A known content type and a file over the limit: 413, whatever the
      extension. */
  lemma SizeSecond(fs: Files, rows: seq<Row>, next: int, upload: Upload, contentType: string,
                   gb: int, tmpDir: string, hex: string, env: Env, rescan: Rescan)
    requires UploadReady(fs, rows, next, upload, contentType, gb, tmpDir, hex, env, rescan) && contentType in AllowedContentTypes
    requires upload.size > 0 && upload.size > MaxBytes(gb)
    ensures UploadContent(fs, rows, next, upload, contentType, gb, tmpDir, hex, env, rescan)
         == Outcome(fs, rows, next, Refused(413, TooLarge(gb)))
  {
  }

  /** A known content type, a size within the limit and a refused
      extension: 400 naming the extension. */
  lemma ExtensionThird(fs: Files, rows: seq<Row>, next: int, upload: Upload, contentType: string,
                       gb: int, tmpDir: string, hex: string, env: Env, rescan: Rescan)
    requires UploadReady(fs, rows, next, upload, contentType, gb, tmpDir, hex, env, rescan) && contentType in AllowedContentTypes
    requires upload.size == 0 || upload.size <= MaxBytes(gb)
    requires ExtensionOf(upload.fileName) !in AllowedExtensions
    ensures UploadContent(fs, rows, next, upload, contentType, gb, tmpDir, hex, env, rescan)
         == Outcome(fs, rows, next, Refused(400, "Invalid file extension: " + ExtensionOf(upload.fileName)))
  {
  }

  /** A refused upload changes nothing; an accepted one is refused by no
      check. */
  lemma RefusedIffInvalid(fs: Files, rows: seq<Row>, next: int, upload: Upload, contentType: string,
                          gb: int, tmpDir: string, hex: string, env: Env, rescan: Rescan)
    requires UploadReady(fs, rows, next, upload, contentType, gb, tmpDir, hex, env, rescan)
    ensures var o := UploadContent(fs, rows, next, upload, contentType, gb, tmpDir, hex, env, rescan);
      && (o.response.Refused? <==> Validate(upload, contentType, gb).Reject?)
      && (o.response.Refused? ==> o.fs == fs && o.rows == rows && o.next == next)
  {
    if Validate(upload, contentType, gb).Pass? {
      var temp := Parts(TempFile(tmpDir, hex, upload.fileName));
      var env2 := env.(tmp := Parts(tmpDir));
      var p := Processed(fs, rows, next, temp, upload, contentType, env2, rescan);
      assert !p.response.Refused?;
    }
  }

  /** A `songs` upload that passes the checks never gets a processing
      result back: the second ingestion returns a list. */
  lemma SongsNeverAnswered(fs: Files, rows: seq<Row>, next: int, upload: Upload,
                           gb: int, tmpDir: string, hex: string, env: Env, rescan: Rescan)
    requires UploadReady(fs, rows, next, upload, "songs", gb, tmpDir, hex, env, rescan) && Validate(upload, "songs", gb).Pass?
    ensures UploadContent(fs, rows, next, upload, "songs", gb, tmpDir, hex, env, rescan).response in {InternalError, Escaped}
  {
  }

  /** Once the checks pass, the temp file is gone afterwards unless the
      clean-up itself raised. */
  lemma TempFileRemoved(fs: Files, rows: seq<Row>, next: int, upload: Upload, contentType: string,
                        gb: int, tmpDir: string, hex: string, env: Env, rescan: Rescan)
    requires UploadReady(fs, rows, next, upload, contentType, gb, tmpDir, hex, env, rescan) && Validate(upload, contentType, gb).Pass?
    ensures var o := UploadContent(fs, rows, next, upload, contentType, gb, tmpDir, hex, env, rescan);
      o.response != Escaped ==> Parts(TempFile(tmpDir, hex, upload.fileName)) !in o.fs
  {
    var temp := Parts(TempFile(tmpDir, hex, upload.fileName));
    CleanedRemoves(Processed(fs, rows, next, temp, upload, contentType, env.(tmp := Parts(tmpDir)), rescan), temp);
  }

  /** An archive of another content type whose songs were ingested also
      ends as the catch-all error, since the ingestion's list is not a
      dict; the songs stay in the table. */
  lemma ArchiveListRejected(fs: Files, rows: seq<Row>, next: int, temp: Path, upload: Upload,
                            contentType: string, env: Env, rescan: Rescan)
    requires Ready(fs, rows, next, temp, upload, contentType, env, rescan)
    requires contentType != "songs" && CanOpen(fs, temp, env.tmp)
    requires ExtractContent(fs[temp := upload.data], rows, next, temp, contentType, env).result.Songs?
    ensures var o := Processed(fs, rows, next, temp, upload, contentType, env, rescan);
      var x := ExtractContent(fs[temp := upload.data], rows, next, temp, contentType, env);
      o.response == InternalError && o.rows == x.rows && o.next == x.next
  {
  }

  // ---- list_content ----

  /** Python's normalisation of a slice bound for a sequence of length
      `n`. */
  function Clamp(i: int, n: nat): (r: nat)
    ensures r <= n
    ensures 0 <= i <= n ==> r == i
  {
    if i < 0 then (if n + i < 0 then 0 else n + i) else if i > n then n else i
  }

  /** `s[start:stop]`. */
  function PySlice<T>(s: seq<T>, start: int, stop: int): (r: seq<T>)
    ensures |r| <= |s|
    ensures 0 <= start <= stop <= |s| ==> r == s[start..stop]
    ensures 0 <= stop <= start ==> r == []
  {
    var a := Clamp(start, |s|);
    var b := Clamp(stop, |s|);
    if a < b then s[a..b] else []
  }

  /** Moving a bound `len` to the right moves its normalisation right by
      no more than `len` (it may move left: `-1` becomes `n - 1`). */
  lemma ClampStep(i: int, len: int, n: nat)
    requires len >= 0
    ensures Clamp(i + len, n) <= Clamp(i, n) + len
  {
  }

  /** `{"total": …, "returned": …, "content": …}`. */
  datatype Listing = Listing(total: nat, returned: nat, content: seq<Song>)

  /** `list_content(skip, limit)` over the listed content. */
  function ListContent(content: seq<Song>, skip: int, limit: int): (r: Listing)
    ensures r.total == |content| && r.returned == |r.content|
  {
    var page := PySlice(content, skip, skip + limit);
    Listing(|content|, |page|, page)
  }

  /** A page of a non-negative `limit` holds at most `limit` items, for
      any `skip`, negative ones included. */
  lemma ListingBound(content: seq<Song>, skip: int, limit: int)
    requires limit >= 0
    ensures ListContent(content, skip, limit).returned <= limit
  {
    ClampStep(skip, limit, |content|);
  }

  /** A negative `limit` is a negative slice bound: with ten items,
      `skip=1, limit=-2` gives items 1 to 8. */
  lemma NegativeLimitPage(content: seq<Song>)
    requires |content| == 10
    ensures ListContent(content, 1, -2).content == content[1..9]
    ensures ListContent(content, 1, -2).returned == 8
  {
  }

  /** The page is one contiguous run of the content. */
  lemma ListingContiguous(content: seq<Song>, skip: int, limit: int)
    ensures exists a, b :: 0 <= a <= b <= |content| && ListContent(content, skip, limit).content == content[a..b]
  {
    var n := |content|;
    var a := Clamp(skip, n);
    var b := Clamp(skip + limit, n);
    if a < b {
      assert ListContent(content, skip, limit).content == content[a..b];
    } else {
      assert ListContent(content, skip, limit).content == content[a..a];
    }
  }

  /** For non-negative values the slice is the `OFFSET skip LIMIT limit`
      page. */
  lemma ListingIsWindow(content: seq<Song>, skip: nat, limit: nat)
    ensures ListContent(content, skip, limit).content == Window(content, skip, limit)
  {
  }
}
