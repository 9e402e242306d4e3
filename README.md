# Clone Hero content ingestion, modelled in Dafny

This project models the content-ingestion core of a Clone Hero content
manager. The service accepts uploads and archives, turns them into songs on
disk, and keeps a PostgreSQL table of songs. The model covers:

- **SongIni** (`song_ini.dfy`): `parse_song_ini`. It covers Python's
  `configparser` reading a `song.ini`, `get` with its `%` interpolation and
  the `DEFAULT` section, the required `[song]` options `name`, `artist` and
  `album`, and the optional metadata whitelist.
- **SongTable** (`song_table.dfy`): the `songs` table and its queries.
  - `add_content_to_db`: look up the (title, artist, album) triple, otherwise
    insert.
  - `fetch_content_from_db`.
  - `get_all_songs`: `ILIKE` filter, `ORDER BY id DESC`, `LIMIT`/`OFFSET`.
  - `delete_song_by_id`.
  - The table is a `SongStore` class whose methods update its rows in place.
    The functions beside the class state what each query returns.
- **ContentLayout** (`content_layout.dfy`): `CONTENT_FOLDERS` and
  `get_final_directory`.
- **ContentManager** (`content_manager.dfy`): `process_and_store_content`.
  For each `song.ini` it parses the file, makes the artist directory, moves
  the song folder under a fresh token, and records the song in the table. A
  failed move or insert skips only that song; an exception from `get` or
  from `mkdir` ends the loop and the call. The loop exists twice: as a
  function over the file tree and the rows (`Run`), and as a method on a
  `FileSystem` and a `SongStore` that is proved to follow that function.
- **ContentUtils** (`content_utils.dfy`):
  - `extract_archive` and `extract_content`: an archive is unpacked into
    scratch space and ingested; any other file is moved into the folder for
    its content type; the scratch space is removed in every case.
  - `list_all_content`.
- **SongGenerator** (`song_generator.dfy`): `generate_notes_chart` and
  `process_song_file`. It covers the `notes.chart` text, written as a loop
  over the beats, together with a reader that gets the song name and the
  millisecond offsets back.
- **ContentRoutes** (`content_routes.dfy`): the upload route's checks, in
  their order (content type, size in 1 MiB chunks, extension), the temp file
  and its removal in `finally`, the response shapes, and `list_content`'s
  Python slice.

Helper modules model the parts of Python's library that this code relies on:

- `Text`: `strip`, `lower`, `in`, `split`, `str(int)`.
- `Paths`: `pathlib` paths as lists of components, `Path.suffix`,
  `os.path.splitext`.
- `Disk`: a file tree as a map from paths to bytes, with `shutil.move`,
  `shutil.rmtree`, `os.remove` and `mkdir(parents=True, exist_ok=True)`. It
  is both a pure function over the map and a `FileSystem` class over a
  mutable field.

Several parts are parameters of the model rather than modelled:

- the order in which `rglob` finds `song.ini` files, given as a list that
  holds each `song.ini` below the root once, both for the extraction and
  for the upload route's second ingestion;
- the fresh `uuid4` tokens;
- the archive decoder;
- audio analysis;
- whether the database can be reached.

## Where the code differs from the expected behaviour

The model follows the code in each of these places:

- **Chart timing.** The chart writes `int(t * 1000)` for each beat. That
  truncates toward zero, does not round, and keeps duplicate offsets
  (`SongGenerator.TruncMs`, `SongGenerator.ExampleMillis`).
- **Duplicate songs.** A song that is already in the table is moved onto
  disk anyway, and its entry carries the existing row's id
  (`ContentManager.DuplicateEntry`).
- **Asset archives are not kept.** Extracting an uploaded archive ingests
  only directories that hold a `song.ini`. Whatever else it held is removed
  with the scratch space, whatever the content type
  (`ContentUtils.ArchiveIngested`).
- **Stored asset names.** A non-archive upload is stored as
  `<32 hex digits>_<original name>`, because the route writes it to a temp
  file of that name first (`ContentRoutes.TempFileLayout`).
- **"songs" uploads never succeed.** After extraction, the route calls
  `process_and_store_content` again with the temp file path as the base
  directory. It then answers with a list, which is not a dict, so the route
  ends in a 500 (`ContentRoutes.SongsNeverAnswered`). Archive uploads of the
  other types end the same way (`ContentRoutes.ArchiveListRejected`).
- **Negative `limit` in `list_content`.** A negative `limit` is a Python
  negative slice bound, not an empty page (`ContentRoutes.NegativeLimitPage`).
- **Artist directories can escape.** An artist name that is an absolute path
  makes the artist directory absolute, outside the songs folder
  (`ContentManager.AbsoluteArtistEscapes`). A title that starts with `/`
  does the same to the song folder, which then ignores the artist directory
  too (`ContentManager.AbsoluteTitleEscapes`).
- **Values are interpolated.** `get` applies `configparser`'s `%`
  interpolation: `%%` reads as `%`, `%(name)s` as another option's value,
  and any other `%` raises. That exception is not caught in
  `parse_song_ini` and ends the whole ingestion
  (`SongIni.BarePercentRaises`, `ContentManager.InterpolationEndsRun`).
- **Emptiness is tested before stripping.** A required field that is not
  empty as read can still strip to nothing, through a reference to an empty
  option (`SongIni.BlankTitleThroughReference`).
- **`list_all_content` always answers `[]`** (see Findings).

## Model

| member | source | states |
|---|---|---|
| SongIni.UnreadableSkipped | src/services/content_manager.py:22-28 | a `song.ini` that is missing or not valid UTF-8 yields no song |
| SongIni.LoadFile | src/services/content_manager.py:22-28 | a configuration is produced only from a readable file, and every value in it is in its final multi-line form |
| SongIni.Load | src/services/content_manager.py:25 | a successful read never holds the `DEFAULT` section, and all of its values are settled |
| SongIni.Universal | src/services/content_manager.py:24 | reading in text mode leaves no carriage return in the text |
| SongIni.Lookup | src/services/content_manager.py:34-36 | an option is found only in an existing section, and its value is one that the section or `DEFAULT` holds |
| SongIni.Vars | src/services/content_manager.py:34-36 | a `%(name)s` reference can reach exactly the options the lookup finds, with the values it finds |
| SongIni.KeyRef | src/services/content_manager.py:34-36 | a reference `%(name)s` has a non-empty name with no `)` in it, and is at least four characters long |
| SongIni.Fetch | src/services/content_manager.py:34-36 | `get` on a lower-cased name is the fallback exactly when the lookup finds nothing, and a value without `%` comes back unchanged |
| SongIni.PiecesPlain | src/services/content_manager.py:34-36 | interpolating text without `%` leaves it as it is |
| SongIni.DoublePercent | src/services/content_manager.py:34-36 | `100%% FC` reads as `100% FC` |
| SongIni.BarePercentRaises | src/services/content_manager.py:34-36 | `100% FC` raises, because a `%` is followed neither by `%` nor by `(` |
| SongIni.ReferenceReplaced | src/services/content_manager.py:34-36 | a value that is the reference `%(name)s` reads as the value of `name`, from the section or from `DEFAULT` |
| SongIni.SelfReferenceRaises | src/services/content_manager.py:34-36 | an option that refers to itself raises once the depth limit of 10 is passed |
| SongIni.DefaultsShared | src/services/content_manager.py:34-36 | two sections that do not set an option read the same value from `DEFAULT`, or both get the fallback when `DEFAULT` does not set it either |
| SongIni.SectionShadowsDefaults | src/services/content_manager.py:34-36 | an option the section sets is read from the section whatever `DEFAULT` holds |
| SongIni.DefaultsSupplyFields | src/services/content_manager.py:30-51 | `DEFAULT` alone can supply name, artist and album to an empty `[song]` section, which then has no metadata |
| SongIni.Get | src/services/content_manager.py:34-36 | an option that neither the section nor `DEFAULT` sets gives the fallback `None`; one whose value holds no `%` gives that value as written |
| SongIni.FromConfig | src/services/content_manager.py:30-51 | a song results exactly when a section named `song` exists, `name`, `artist` and `album` are non-empty as `get` returns them, and no metadata value raises; an exception from `get` is passed on only when that section exists |
| SongIni.FromConfigFields | src/services/content_manager.py:34-51 | given name, artist, album and metadata, the song carries the three fields stripped and that metadata |
| SongIni.FromConfigShape | src/services/content_manager.py:38-51 | title, artist and album carry no surrounding white space, and the metadata holds only whitelisted keys with stripped values, never a required field |
| SongIni.FromConfigNonEmpty | src/services/content_manager.py:38-51 | from a file without `%` in its values, title, artist and album are not empty after stripping |
| SongIni.GivenTrimmed | src/services/content_manager.py:38-50 | a required field given in a file without `%` is still non-empty once stripped |
| SongIni.BlankTitleThroughReference | src/services/content_manager.py:34-48 | a `name` continued on a second line as `%(e)s`, with `e` empty, passes the emptiness test and gives an empty title |
| SongIni.ParseSongIni | src/services/content_manager.py:20-52 | a song or an exception results only from a file that exists and is UTF-8 text |
| SongIni.Collect | src/services/content_manager.py:42-51 | the collected keys are exactly the listed fields present in `[song]`, each holding the stripped value `get` gives; nothing is collected when one of them raises |
| SongIni.Metadata | src/services/content_manager.py:42-51 | the metadata keys are exactly the whitelisted optional fields present in `[song]`, with the stripped values `get` gives; there is none when a `get` raises |
| SongIni.ParsedShape | src/services/content_manager.py:38-51 | a parsed song has stripped title, artist and album, non-empty when the file holds no `%`; its metadata holds only whitelisted keys, stripped, and never a required field |
| SongIni.BomTolerated | src/services/content_manager.py:24 | a leading byte-order mark does not change the result |
| SongIni.IniRoundTrip | src/services/content_manager.py:25 | reading back a written section gives its options under lower-cased names with the values as written |
| SongIni.OptionNamesFolded | src/services/content_manager.py:34-36 | any spelling of an option name that differs only in case finds the option's written value, and reads it unchanged when it holds no `%` |
| SongIni.SectionNameCaseSensitive | src/services/content_manager.py:30-32 | a file whose only section is `[Song]` yields the empty result |
| SongIni.ExampleDescriptor | src/services/content_manager.py:20-52 | a concrete `song.ini` parses to its title, artist, album and the `genre` metadata |
| SongIni.MissingHeaderRefused | src/services/content_manager.py:25-28 | an option before any section header makes the read fail |
| SongIni.DuplicateOptionRefused | src/services/content_manager.py:25-28 | the same option twice in a section makes the read fail |
| SongTable.ToSong | src/services/database_explorer.py:24-34 | every column is copied into the song, and a null metadata column becomes an empty map |
| SongTable.FindTriple | src/services/content_manager.py:61-68 | the index found is a row with that title, artist and album, and none is found only when no row matches |
| SongTable.AddDuplicate | src/services/content_manager.py:61-68 | adding a triple that is already stored returns the stored id and leaves the table unchanged |
| SongTable.AddFresh | src/services/content_manager.py:70-81 | adding a new triple appends one row with the next id and the given fields and returns that id |
| SongTable.AddFailure | src/services/content_manager.py:82-84 | an unreachable database gives -1 and changes nothing |
| SongTable.AddKeepsValid | src/services/content_manager.py:54-84 | adding keeps ids unique, ascending and below the next id, and triples unique |
| SongTable.AddTwice | src/services/content_manager.py:61-81 | adding the same song twice is the same as adding it once |
| SongTable.AddContent | src/services/content_manager.py:54-84 | an unreachable database gives -1 and changes nothing; rows are only ever appended, at most one per call |
| SongTable.AllSongs | src/services/database_explorer.py:7-37 | a page holds no more songs than the table has rows, and no more than a non-negative `limit` |
| SongTable.FetchContent | src/services/content_manager.py:123-152 | the content page holds no more songs than the table has rows, and no more than a non-negative `limit` |
| SongTable.Filtered | src/services/database_explorer.py:15-17 | the filter keeps exactly the rows that match the query, and no more rows than there were |
| SongTable.BlankKeepsAll | src/services/database_explorer.py:15 | an absent or empty search keeps every row |
| SongTable.SearchIff | src/services/database_explorer.py:16-17 | a row matches exactly when some window of its lower-cased title, artist or album equals the lower-cased query |
| SongTable.SearchIgnoresCase | src/services/database_explorer.py:16 | the query and its lower-cased form match the same rows |
| SongTable.FetchIsUnfiltered | src/services/content_manager.py:128-137 | the content listing is the unfiltered newest-first page of all rows |
| SongTable.PageShape | src/services/database_explorer.py:19-22 | a page holds at most `limit` songs, strictly descending by id, each a filtered row |
| SongTable.PageComplete | src/services/database_explorer.py:19-22 | with a limit that covers the table, every matching row appears on the first page |
| SongTable.PagesTile | src/services/database_explorer.py:19-22 | two consecutive pages together are the page of their combined size |
| SongTable.FindId | src/services/database_explorer.py:44-49 | the index found holds the id, and none is found only when no row has it |
| SongTable.Deleted | src/services/database_explorer.py:44-55 | deleting fails exactly when no row has the id; otherwise one row fewer remains |
| SongTable.DeleteExactly | src/services/database_explorer.py:51-55 | after a deletion the id is gone, every other row remains, and the table stays valid |
| SongTable.SongStore.Add | src/services/content_manager.py:54-84 | the store's rows and next id become those the add function gives, and the returned id is its answer |
| SongTable.SongStore.Songs | src/services/database_explorer.py:7-37 | returns the filtered page: at most `limit` songs, newest first |
| SongTable.SongStore.Fetch | src/services/content_manager.py:123-152 | returns the unfiltered page: at most `limit` songs, newest first |
| SongTable.SongStore.Delete | src/services/database_explorer.py:39-58 | removes the row exactly when the id exists and the database is reachable, and reports whether it did |
| ContentLayout.SubfolderIsType | src/services/content_utils.py:26-33 | each content type's folder is named after the type |
| ContentLayout.FinalDirectoryLayout | src/services/content_utils.py:35-38 | a known type's directory is the base directory with the type's folder appended |
| ContentLayout.GetFinalDirectory | src/services/content_utils.py:35-40 | a directory results exactly when its creation is not blocked, and it is the base joined with the type |
| ContentManager.StepEntry | src/services/content_manager.py:93-98 | the entries only grow, by at most one, and only for a descriptor that parsed to a song, by that descriptor's store step |
| ContentManager.StoreEntry | src/services/content_manager.py:100-117 | an entry is added exactly when both `mkdir` calls, the move and the insert succeed; it names the song, the id that inserting the triple into the table gives, and the folder `<artist>/<title>_<token>` |
| ContentManager.RecordEntry | src/services/content_manager.py:107-117 | an entry is added exactly when the insert gives an id other than -1, and it carries that id |
| ContentManager.DuplicateEntry | src/services/content_manager.py:61-68 | a song already in the table is still moved, and its entry carries the existing row's id |
| ContentManager.SkipIsolated | src/services/content_manager.py:94-119 | a descriptor that parses to nothing, or one whose move fails after both `mkdir` calls succeed, is skipped: the rest of the run goes on as if it were not there |
| ContentManager.InterpolationEndsRun | src/services/content_manager.py:94 | a descriptor whose `get` raises ends the loop: nothing more is moved or stored, and the call raises |
| ContentManager.RunStopped | src/services/content_manager.py:93-102 | once a `mkdir` or a `get` has raised, the remaining files leave the state as it is |
| ContentManager.RunBound | src/services/content_manager.py:93-121 | there are never more entries than `song.ini` files, and the entries already recorded survive |
| ContentManager.RunKeeps | src/services/content_manager.py:93-121 | every entry is backed by a table row with its id and triple, and the table stays valid |
| ContentManager.Run | src/services/content_manager.py:93-121 | the loop keeps every entry it already had |
| ContentManager.ProcessAndStore | src/services/content_manager.py:86-93 | a run over the `song.ini` files found below the root records no more entries than there are such files |
| ContentManager.NoDescriptorsNoList | src/services/content_manager.py:93 | when no `song.ini` lies below the root, the loop has nothing to visit |
| ContentManager.ProcessShape | src/services/content_manager.py:86-121 | a run records at most one entry per `song.ini` below the root, only adds rows, keeps the table valid, and backs every entry by a row with its id and triple |
| ContentManager.FolderNameIsComponent | src/services/content_manager.py:103 | a title with no `/` makes a folder name that is one path component |
| ContentManager.FolderLayout | src/services/content_manager.py:101-103 | a relative artist name puts the song folder two levels below the base |
| ContentManager.AbsoluteArtistEscapes | src/services/content_manager.py:101 | an absolute artist name gives the same folder whatever the base |
| ContentManager.AbsoluteTitleEscapes | src/services/content_manager.py:103 | a title that is an absolute path replaces the whole song folder path, artist directory included |
| ContentManager.RecordOne | src/services/content_manager.py:107-117 | the store changes as the add function says, and the entry list grows by the entry that the record function gives |
| ContentManager.StoreOne | src/services/content_manager.py:100-117 | disk, table and entries change as one step of the run function says |
| ContentManager.IngestOne | src/services/content_manager.py:94-119 | one attempt changes disk, table and entries exactly as the run function's step |
| ContentManager.ProcessAndStoreContent | src/services/content_manager.py:86-121 | the loop leaves the disk and the table as the run function gives them, and answers the entries, or nothing when an exception escaped |
| ContentUtils.ArchiveOutcomes | src/services/content_utils.py:46-71 | an unsupported extension or a bad archive is an error; otherwise the archive's files are placed below the scratch directory |
| ContentUtils.ExtractArchive | src/services/content_utils.py:46-71 | a failure leaves the files untouched, and a success puts every entry of the archive below the directory |
| ContentUtils.FromArchive | src/services/content_utils.py:85-94 | an extraction error changes no row, and songs are answered only for an archive that decoded |
| ContentUtils.FromFile | src/services/content_utils.py:96-104 | a stored file is never of type `songs` and is answered with its own name; every other outcome leaves the files as they were |
| ContentUtils.ExtractContent | src/services/content_utils.py:73-111 | whatever happens, no file remains below the scratch directory afterwards |
| ContentUtils.ArchiveErrorPassedOn | src/services/content_utils.py:85-91 | a failed extraction is answered with the extractor's error message, stores nothing and keeps the uploaded file |
| ContentUtils.ArchiveIngested | src/services/content_utils.py:93-94 | an extracted archive has its files placed in scratch space and the archive file removed; ingestion runs over that tree, scratch space is then removed, and the answer is the entries or a crash |
| ContentUtils.SongsNeedArchive | src/services/content_utils.py:100-101 | a plain file sent as `songs` is refused and the table is unchanged |
| ContentUtils.AssetStored | src/services/content_utils.py:97-104 | a plain asset file is moved into its type's folder under its own name and answered with that path |
| ContentUtils.FilesLeaveTable | src/services/content_utils.py:96-104 | storing a plain file never touches the table and never answers with songs |
| ContentUtils.ArchiveCaseInsensitive | src/services/content_utils.py:83 | an upper-case `.ZIP` suffix is recognised as an archive |
| ContentUtils.ExtractContentOn | src/services/content_utils.py:73-111 | disk and table end as the extract function gives them, and so does the answer |
| ContentUtils.ArchiveOn | src/services/content_utils.py:85-94 | the archive step on the objects agrees with the function |
| ContentUtils.FileOn | src/services/content_utils.py:96-104 | the plain-file step on the objects agrees with the function |
| ContentUtils.ListAllContentLosesRows | src/services/content_utils.py:113-120 | as written, a table with rows is listed differently from the intended one-song-per-row listing |
| ContentUtils.ListAllContentAsWritten | src/services/content_utils.py:113-135 | as written, the listing is empty whatever the table holds |
| ContentUtils.ListAllContent | src/services/content_utils.py:122-135 | the intended listing has one song per row, and is empty when the database is unreachable |
| ContentUtils.ListAllContentExact | src/services/content_utils.py:122-132 | a song is listed exactly when it is the mapped form of some row |
| SongGenerator.TruncMs | src/services/song_generator.py:35 | the offset is the beat time in milliseconds truncated toward zero |
| SongGenerator.Millis | src/services/song_generator.py:34-35 | one offset per beat, each the truncated millisecond time of that beat |
| SongGenerator.ExampleMillis | src/services/song_generator.py:35 | beats at 0, 0.5 and 0.5005 seconds give 0, 500 and 500, unrounded and not deduplicated |
| SongGenerator.GenerateNotesChart | src/services/song_generator.py:28-39 | the loop builds exactly the rendered chart text for that song name and those beats |
| SongGenerator.RenderChart | src/services/song_generator.py:28-39 | the chart starts with the `[Song]` block naming the song, artist `Unknown` and charter `AI`, and ends with the closing `}` line |
| SongGenerator.HeadText | src/services/song_generator.py:32-33 | the header and the opening of the sync track are the fixed lines, each ended by a newline |
| SongGenerator.RenderLines | src/services/song_generator.py:32-36 | the chart is its lines, each followed by a newline |
| SongGenerator.ReadSyncTextRoundTrip | src/services/song_generator.py:35 | a sync line reads back to its offset |
| SongGenerator.ChartRoundTrip | src/services/song_generator.py:28-39 | reading a rendered chart gives back its song name and the beats' offsets |
| SongGenerator.ChartPathLayout | src/services/song_generator.py:49-52 | the chart goes to `<output dir>/<stem>/notes.chart` |
| SongGenerator.ProcessedLayout | src/services/song_generator.py:49-64 | when the output folder can be made and no directory stands at the chart path, the chart text is written at that path and the result carries the message, the path and the tempo |
| SongGenerator.ProcessSongFile | src/services/song_generator.py:41-67 | a failure leaves the files untouched; a success needs an analysis, carries its tempo and the chart path, writes the chart there as text and keeps every other file |
| SongGenerator.ProcessSongFileOn | src/services/song_generator.py:41-67 | the method on the file system changes the files and answers as the function says |
| SongGenerator.ProcessedOnlyIfFree | src/services/song_generator.py:49-54 | when the output folder cannot be made or a directory stands at the chart path, processing fails and the files are unchanged |
| SongGenerator.ChartOverwritten | src/services/song_generator.py:51-54 | an existing `notes.chart` is replaced by the new chart text, and no other path is added |
| SongGenerator.AnalysisFailure | src/services/song_generator.py:65-67 | a failed analysis gives a failure and writes nothing |
| ContentRoutes.MaxBytes | src/routes/content_manager.py:24-25 | the limit is the configured gigabytes times 1024³ bytes |
| ContentRoutes.DefaultLimit | src/routes/content_manager.py:24 | without configuration the limit is 10 GiB |
| ContentRoutes.ExtensionSound | src/routes/content_manager.py:34-38 | an accepted name ends, after lower-casing, in an allowed extension |
| ContentRoutes.ValidateFileExtension | src/routes/content_manager.py:34-38 | a name passes exactly when its lower-cased extension is allowed, and is otherwise refused with 400 naming that extension |
| ContentRoutes.ExtensionNamed | src/routes/content_manager.py:34-38 | a name `stem.ext` with no dot in `ext` and a non-empty stem is accepted exactly when `.ext` lower-cased is allowed |
| ContentRoutes.SplitExtNamed | src/routes/content_manager.py:36 | the extension of `stem.ext` is `.ext` |
| ContentRoutes.NoDotRefused | src/routes/content_manager.py:36-38 | a name without a dot is refused with 400 |
| ContentRoutes.DotFileRefused | src/routes/content_manager.py:36-38 | a name whose only dot leads it is refused |
| ContentRoutes.JpegRefused | src/routes/content_manager.py:21 | `.jpeg` is not an allowed extension |
| ContentRoutes.UpperCaseAccepted | src/routes/content_manager.py:36 | an upper-case allowed extension is accepted |
| ContentRoutes.LastExtensionCounts | src/routes/content_manager.py:36-38 | `pack.png.exe` is refused as `.exe`: only the last extension is checked |
| ContentRoutes.SizeCheck | src/routes/content_manager.py:41-49 | a file passes exactly when it is empty or not larger than the limit, and is refused with 413 otherwise |
| ContentRoutes.ValidateFileSize | src/routes/content_manager.py:41-49 | reading the file in 1 MiB chunks gives the size check's answer |
| ContentRoutes.SizeBoundary | src/routes/content_manager.py:47-48 | a file of exactly the limit passes and one byte more is refused |
| ContentRoutes.TempFileLayout | src/routes/content_manager.py:28-31 | the temp file lies in the temp directory, named by the token, `_` and the file name |
| ContentRoutes.TempFileDistinct | src/routes/content_manager.py:31 | different tokens give different temp files |
| ContentRoutes.TempFile | src/routes/content_manager.py:28-31 | the temp file's name ends in the 32-digit token, `_` and the file name |
| ContentRoutes.DownloadNameTail | src/routes/content_manager.py:107 | the download's file name is the URL's text after its last `/` |
| ContentRoutes.DownloadFileName | src/routes/content_manager.py:107 | the download's file name holds no `/` |
| ContentRoutes.ContentTypeFirst | src/routes/content_manager.py:58-59 | an unknown content type is refused with 400 before anything else and touches nothing |
| ContentRoutes.SizeSecond | src/routes/content_manager.py:61 | a known type that is too large is refused with 413 before the extension is looked at, and nothing changes |
| ContentRoutes.ExtensionThird | src/routes/content_manager.py:62 | a bad extension is refused with 400 once type and size pass |
| ContentRoutes.RefusedIffInvalid | src/routes/content_manager.py:58-62 | an upload is refused exactly when validation fails, and then nothing changes |
| ContentRoutes.UploadContent | src/routes/content_manager.py:52-95 | a refused upload changes nothing |
| ContentRoutes.Processed | src/routes/content_manager.py:67-88 | the `try` block never ends in a refusal or an escaped exception, and a temp file that cannot be opened gives an internal error and changes nothing |
| ContentRoutes.RescanEmpty | src/routes/content_manager.py:78-82 | when no `song.ini` lies below the temp file's path, the second ingestion finds nothing and the upload ends in an internal error |
| ContentRoutes.SongsFileNoRescan | src/routes/content_manager.py:75-82 | a plain file sent as `songs` is refused by the extraction, the second ingestion finds nothing, the table is unchanged and the answer is an internal error |
| ContentRoutes.CleanedRemoves | src/routes/content_manager.py:90-95 | the `finally` block removes the temp file unless that raises, and changes nothing else |
| ContentRoutes.SongsNeverAnswered | src/routes/content_manager.py:75-88 | a `songs` upload always ends in an internal error or an escaped exception |
| ContentRoutes.TempFileRemoved | src/routes/content_manager.py:90-95 | unless removing it raises, no temp file is left after an upload |
| ContentRoutes.ArchiveListRejected | src/routes/content_manager.py:75-88 | an archive ingested for another type answers with a list, which ends in an internal error |
| ContentRoutes.Clamp | src/routes/content_manager.py:151 | a slice bound becomes a position within the list, and a bound already inside it is kept |
| ContentRoutes.PySlice | src/routes/content_manager.py:151 | a slice is no longer than the list; bounds inside the list give that window, and a stop before the start gives nothing |
| ContentRoutes.ListContent | src/routes/content_manager.py:150-157 | the listing reports the total and the number of songs it returns |
| ContentRoutes.ListingBound | src/routes/content_manager.py:150-157 | a non-negative limit returns no more than `limit` songs |
| ContentRoutes.NegativeLimitPage | src/routes/content_manager.py:151 | with ten songs, `skip=1`, `limit=-2` returns songs 1 to 8 |
| ContentRoutes.ListingContiguous | src/routes/content_manager.py:151 | the returned songs are a contiguous run of the content |
| ContentRoutes.ListingIsWindow | src/routes/content_manager.py:150-157 | for non-negative bounds the listing is the window of `limit` songs from `skip` |
| Text.Trim | src/services/content_manager.py:47-51 | a stripped text is no longer than its input, and neither starts nor ends with white space |
| Text.TrimIdempotent | src/services/content_manager.py:47-51 | stripping twice is stripping once |
| Text.Lower | src/services/database_explorer.py:16 | lower-casing keeps the length and maps every character |
| Text.ContainsSubIff | src/services/database_explorer.py:16 | the substring test holds exactly when some window of the text equals the query |
| Text.JoinSplit | src/routes/content_manager.py:107 | splitting and joining again on one character gives the text back |
| Text.DecimalRoundTrip | src/services/song_generator.py:35 | the decimal text of an integer reads back to that integer |
| Paths.Suffix | src/services/content_utils.py:83 | the suffix is empty or a dot followed by at least one character and no further dot |
| Paths.StemSuffix | src/services/song_generator.py:49 | stem and suffix together make the name |
| Paths.SplitExt | src/routes/content_manager.py:36 | the extension is empty or a dot followed by text with no dot or `/` |
| Paths.RenderParts | src/services/content_manager.py:103-106 | a rendered path reads back to the same components |
| Disk.MovedEmptiesSource | src/services/content_manager.py:106 | after a directory has been moved, nothing is left below its old path |
| Disk.WithoutTree | src/services/content_utils.py:110-111 | removing a tree leaves no file below it and keeps every other file |
| Disk.Relocate | src/services/content_manager.py:106 | every file of the moved tree appears below the target, and files outside both trees stay |

## Left out

- `SongIni.Fetch`: the text of the three interpolation errors is not modelled; each is one `Bad` outcome. Interpolation of the `DEFAULT` section read on its own is not modelled, because the code reads only `[song]`.
- `SongIni.FromConfigNonEmpty` and `SongIni.ParsedShape` promise non-empty title, artist and album only for files without `%` in their values, because a reference can make a field non-empty as read and empty once stripped (`SongIni.BlankTitleThroughReference`).
- `SongIni.Metadata` looks the whitelisted names up without lower-casing them; they are all lower-case, so `has_option` and `get` find the same options.
- `SongIni.Load`: a parse error that `configparser` defers to the end of the file is modelled as stopping at the first error. The outcome is the same (the file is skipped), but the partial configuration is not modelled.
- `Text.Lower` lower-cases ASCII letters only. Python's Unicode case mapping and PostgreSQL's collation-dependent `ILIKE` are not modelled.
- `ILIKE` special characters inside the search text are treated as ordinary characters: the wildcards `%` and `_`, and `\`, which PostgreSQL takes as the escape character by default. The code escapes none of them, so a search holding any of them is matched only as plain text in the model.
- `Disk.Files` allows a file at a path that also has files below it, and `Disk.Relocate` does not check that the target's ancestors are directories. The ingestion code never reaches either case, because it creates the destination folders with `mkdir` before each move, and `mkdir` fails on such a path (`Disk.Blocked`).
- Beat times (floats) are modelled as exact reals, so binary floating-point rounding is not modelled.
- The order in which `rglob` finds `song.ini` files is a parameter: a sequence that holds each `song.ini` below the root exactly once, as the tree stands when the loop starts. Its lazy evaluation over a tree that changes during the loop is not modelled.
- Paths are lists of components with `.` and empty components removed, as `pathlib` does. A `..` in an artist or title is kept as a component and not resolved, as `pathlib` keeps it; what the operating system then does with it is not modelled.
- Directories exist only implicitly, through the files below them, so empty directories are not modelled. The temp directory is assumed to exist.
- The text of exception messages (`str(e)`) is not modelled. A crash is a `Crashed` answer without its message.
- `analyze_audio` (librosa) is a parameter: the tempo and beats it found, or its failure.
- The archive decoder behind `extract_archive` (zip and rar) is a parameter. Partial extraction before an error is not modelled.
- The database schema is not part of this model. Ids are assumed to be handed out in increasing order, as by a `SERIAL` column. Concurrent requests, and the lack of locking between the duplicate check and the insert, are not modelled.
- Whether the database can be reached is a parameter of each query. A failure is modelled at the start of the query only.
- `download_and_extract`: the network fetch and the decision based on `"songs"` in the URL are not modelled. Only the file name taken from the URL is modelled (`ContentRoutes.DownloadNameTail`).
- `list_all_content` always answers `[]`, because its `async with` fails on a synchronous connection. This is modelled as written and as intended (see Findings).
- `store_content`, which `process_song_file` calls after writing the chart, lives in `src/services/service_manager.py`, which is not part of this model; the call is left out.
- The `mkdir` of the output directory at import time is treated as already done.
- `uuid4` tokens are parameters.
- `ContentRoutes.ValidateFileSize` models the upload as a known size read in chunks of at most 1 MiB. The bytes themselves and the stream's rewinding are not modelled.
- The `aiofiles` chunked write of the temp file is modelled as one write of the whole upload.
- Logging is not modelled.
- The FastAPI routes for listing songs, deleting a song and generating a chart (src/routes/database_explorer.py, src/routes/song_generator.py) are outside the modelled core; two of them do not just forward the modelled function's answer, as the next two lines say.
- `delete_song` raises its 404 for a missing id inside the `try`, and the `except Exception` at src/routes/database_explorer.py:36-38 turns it into a 500.
- `process_song` awaits `process_song_file`, which is synchronous (src/services/song_generator.py:41); awaiting the returned dict raises `TypeError`, which becomes the 500 at src/routes/song_generator.py:64-66 after the chart has already been written.
- `ContentManager.SkipIsolated`: a move that fails part-way is treated as having no effect. Across file systems `shutil.move` copies and then deletes. A copy that fails midway leaves part of a song folder at the destination, and a failing delete of the source leaves a whole song folder under `songs/<artist>/` with no table row. The model promises the unchanged entries and table, and also unchanged files, which the source does not guarantee in these cases.
- `ContentUtils.FromFile`: "every other outcome leaves the files as they were" likewise treats a failed move as having no effect. A `copy2` across file systems that fails midway can leave a truncated file at the destination.
- `ContentRoutes.ListingBound`: this bound is stated only for a non-negative limit, because a negative limit is a Python negative slice bound (see `ContentRoutes.NegativeLimitPage`).

## Findings

| source | as written | input that shows it | evidently intended | confidence | as-written member | corrected member |
|---|---|---|---|---|---|---|
| src/services/content_utils.py:116-120 | `get_connection` is a generator-based context manager (src/database.py:53-54), so `asyncio.to_thread(get_connection)` gives a context-manager object without `__aenter__`; `async with conn` raises before any query, and the exception handler answers `[]` | a table holding any rows | one song per row of the table | not executed | ContentUtils.ListAllContentLosesRows | ContentUtils.ListAllContentExact |
