/** `generate_notes_chart` and the part of `process_song_file` around it:
    a chart with a fixed song header and one sync line per detected beat,
    written to `<output dir>/<stem>/notes.chart`. The beat detection is a
    parameter: its tempo and beat times in seconds. */
module SongGenerator {
  import opened Wrappers
  import opened Text
  import opened Paths
  import opened Disk

  /** `int(t * 1000)`: whole milliseconds, truncated toward zero. */
  function TruncMs(t: real): (ms: int)
    ensures t >= 0.0 ==> ms as real <= t * 1000.0 < ms as real + 1.0
    ensures t < 0.0 ==> ms as real - 1.0 < t * 1000.0 <= ms as real
  {
    if t >= 0.0 then (t * 1000.0).Floor else -((-t * 1000.0).Floor)
  }

  function Millis(beats: seq<real>): (ms: seq<int>)
    ensures |ms| == |beats|
    ensures forall i :: 0 <= i < |beats| ==> ms[i] == TruncMs(beats[i])
  {
    seq(|beats|, i requires 0 <= i < |beats| => TruncMs(beats[i]))
  }

  /** A line of the chart file with its line end. */
  function Line(text: string): string {
    text + "\n"
  }

  /** The `[Song]` section, as the first `write` gives it. */
  function Header(songName: string): string {
    Line("[Song]") + Line("{") + Line("  Name = " + songName)
      + Line("  Artist = Unknown") + Line("  Charter = AI") + Line("}")
  }

  /** The blank line and the `[SyncTrack]` opening. */
  function SyncOpen(): string {
    Line("") + Line("[SyncTrack]") + Line("{")
  }

  function Close(): string {
    Line("}")
  }

  /** `  <ms> = TS <ms>`, the milliseconds written twice. */
  function SyncText(ms: int): string {
    "  " + IntToDecimal(ms) + " = TS " + IntToDecimal(ms)
  }

  function SyncLine(ms: int): string {
    Line(SyncText(ms))
  }

  /** The sync lines of the beats, in their order. */
  function SyncLines(beats: seq<real>): string
    decreases |beats|
  {
    if beats == [] then "" else SyncLines(beats[..|beats| - 1]) + SyncLine(TruncMs(beats[|beats| - 1]))
  }

  /** The whole text the chart file receives. */
  function RenderChart(songName: string, beats: seq<real>): (r: string)
    ensures Header(songName) <= r
    ensures |r| >= 2 && r[|r| - 2..] == "}\n"
  {
    var r := Header(songName) + SyncOpen() + SyncLines(beats) + Close();
    assert r == Header(songName) + (SyncOpen() + SyncLines(beats) + Close());
    r
  }

  /** `generate_notes_chart`: the header and the sync-track opening, one
      line per beat as the loop goes, and the closing brace. */
  method GenerateNotesChart(songName: string, beats: seq<real>) returns (out: string)
    ensures out == RenderChart(songName, beats)
  {
    var syncs := "";
    var i := 0;
    while i < |beats|
      invariant 0 <= i <= |beats|
      invariant syncs == SyncLines(beats[..i])
    {
      assert beats[..i + 1][..i] == beats[..i];
      syncs := syncs + SyncLine(TruncMs(beats[i]));
      i := i + 1;
    }
    assert beats[..|beats|] == beats;
    out := Header(songName) + SyncOpen() + syncs + Close();
  }

  // ---- Reading a chart back ----

  function SyncTexts(ms: seq<int>): (r: seq<string>)
    ensures |r| == |ms|
    ensures forall i :: 0 <= i < |ms| ==> r[i] == SyncText(ms[i])
  {
    seq(|ms|, i requires 0 <= i < |ms| => SyncText(ms[i]))
  }

  /** The six lines of the `[Song]` section. */
  function SongLines(songName: string): seq<string> {
    ["[Song]", "{", "  Name = " + songName, "  Artist = Unknown", "  Charter = AI", "}"]
  }

  function SyncOpenLines(): seq<string> {
    ["", "[SyncTrack]", "{"]
  }

  /** The nine lines before the sync lines. */
  function HeadLines(songName: string): seq<string> {
    SongLines(songName) + SyncOpenLines()
  }

  /** The lines of a chart, without their line ends. */
  function ChartLines(songName: string, ms: seq<int>): seq<string> {
    HeadLines(songName) + SyncTexts(ms) + ["}"]
  }

  /** Lines each followed by a line end. */
  function Terminated(lines: seq<string>): string
    decreases |lines|
  {
    if lines == [] then "" else Line(lines[0]) + Terminated(lines[1..])
  }

  lemma {:induction false} TerminatedAppend(a: seq<string>, b: seq<string>)
    ensures Terminated(a + b) == Terminated(a) + Terminated(b)
    decreases |a|
  {
    if a != [] {
      assert (a + b)[0] == a[0];
      assert (a + b)[1..] == a[1..] + b;
      TerminatedAppend(a[1..], b);
      assert Terminated(a + b) == Line(a[0]) + (Terminated(a[1..]) + Terminated(b));
    } else {
      assert a + b == b;
    }
  }

  /** Terminated lines are the lines joined by line ends, with an empty
      last piece. */
  lemma {:induction false} TerminatedJoin(lines: seq<string>)
    ensures Terminated(lines) == JoinWith(lines + [""], '\n')
    decreases |lines|
  {
    if lines != [] {
      assert (lines + [""])[1..] == lines[1..] + [""];
      TerminatedJoin(lines[1..]);
    }
  }

  lemma {:induction false} SyncLinesTerminated(beats: seq<real>)
    ensures SyncLines(beats) == Terminated(SyncTexts(Millis(beats)))
    decreases |beats|
  {
    if beats != [] {
      var n := |beats| - 1;
      var front := beats[..n];
      SyncLinesTerminated(front);
      assert Millis(beats) == Millis(front) + [TruncMs(beats[n])];
      assert SyncTexts(Millis(beats)) == SyncTexts(Millis(front)) + [SyncText(TruncMs(beats[n]))];
      TerminatedAppend(SyncTexts(Millis(front)), [SyncText(TruncMs(beats[n]))]);
    }
  }

  lemma TerminatedCons(line: string, rest: seq<string>)
    ensures Terminated([line] + rest) == Line(line) + Terminated(rest)
  {
    assert ([line] + rest)[1..] == rest;
  }

  lemma Assoc6(a: string, b: string, c: string, d: string, e: string, f: string)
    ensures a + b + c + d + e + f == a + (b + (c + (d + (e + f))))
  {
  }

  lemma SongText(songName: string)
    ensures Terminated(SongLines(songName)) == Header(songName)
  {
    var t5: seq<string> := ["}"];
    TerminatedCons("}", []);
    assert [ "}" ] + [] == t5;
    var t4 := ["  Charter = AI"] + t5;
    TerminatedCons("  Charter = AI", t5);
    var t3 := ["  Artist = Unknown"] + t4;
    TerminatedCons("  Artist = Unknown", t4);
    var t2 := ["  Name = " + songName] + t3;
    TerminatedCons("  Name = " + songName, t3);
    var t1 := ["{"] + t2;
    TerminatedCons("{", t2);
    var t0 := ["[Song]"] + t1;
    TerminatedCons("[Song]", t1);
    assert SongLines(songName) == t0;
    Assoc6(Line("[Song]"), Line("{"), Line("  Name = " + songName), Line("  Artist = Unknown"),
           Line("  Charter = AI"), Line("}"));
  }

  lemma SyncOpenText()
    ensures Terminated(SyncOpenLines()) == SyncOpen()
  {
    var t2: seq<string> := ["{"];
    TerminatedCons("{", []);
    assert [ "{" ] + [] == t2;
    var t1 := ["[SyncTrack]"] + t2;
    TerminatedCons("[SyncTrack]", t2);
    var t0 := [""] + t1;
    TerminatedCons("", t1);
    assert SyncOpenLines() == t0;
  }

  /** The header and the sync-track opening are the first nine lines. */
  lemma HeadText(songName: string)
    ensures Terminated(HeadLines(songName)) == Header(songName) + SyncOpen()
  {
    SongText(songName);
    SyncOpenText();
    TerminatedAppend(SongLines(songName), SyncOpenLines());
  }

  /** The chart text is its lines, each with a line end. */
  lemma RenderLines(songName: string, beats: seq<real>)
    ensures RenderChart(songName, beats) == Terminated(ChartLines(songName, Millis(beats)))
  {
    var ms := Millis(beats);
    SyncLinesTerminated(beats);
    TerminatedAppend(HeadLines(songName), SyncTexts(ms));
    TerminatedAppend(HeadLines(songName) + SyncTexts(ms), ["}"]);
    TerminatedCons("}", []);
    HeadText(songName);
  }

  /** Reading one sync line: two spaces, a number, ` = TS `, the same
      number. */
  function ReadSyncText(line: string): Option<int> {
    var w := Split(line, ' ');
    if |w| == 6 && w[0] == "" && w[1] == "" && w[3] == "=" && w[4] == "TS" && w[2] == w[5]
    then DecimalToInt(w[2])
    else None
  }

  function ReadSyncTexts(lines: seq<string>): Option<seq<int>>
    decreases |lines|
  {
    if lines == [] then Some([])
    else match (ReadSyncText(lines[0]), ReadSyncTexts(lines[1..]))
      case (Some(m), Some(rest)) => Some([m] + rest)
      case _ => None
  }

  /** A chart read back: the song name and the milliseconds of the sync
      lines, or `None` when the text does not have the chart's shape. */
  function ReadChart(text: string): Option<(string, seq<int>)> {
    ReadChartLines(Split(text, '\n'))
  }

  function ReadChartLines(lines: seq<string>): Option<(string, seq<int>)> {
    if |lines| < 11 then None
    else if lines[..2] != ["[Song]", "{"] || !("  Name = " <= lines[2]) then None
    else if lines[3..9] != ["  Artist = Unknown", "  Charter = AI", "}", "", "[SyncTrack]", "{"] then None
    else if lines[|lines| - 2..] != ["}", ""] then None
    else match ReadSyncTexts(lines[9..|lines| - 2])
      case None => None
      case Some(ms) => Some((lines[2][9..], ms))
  }

  /** The number of a sync line is written without spaces or line
      ends. */
  lemma DecimalPlain(n: int)
    ensures ' ' !in IntToDecimal(n) && '\n' !in IntToDecimal(n)
  {
    var d := IntToDecimal(n);
    forall k | 0 <= k < |d| ensures d[k] != ' ' && d[k] != '\n' {
      if k > 0 {
        assert IsDigit(d[k]);
      }
    }
  }

  lemma JoinCons(part: string, rest: seq<string>, sep: char)
    requires rest != []
    ensures JoinWith([part] + rest, sep) == part + [sep] + JoinWith(rest, sep)
  {
    assert ([part] + rest)[1..] == rest;
  }

  lemma SyncTextWords(ms: int)
    ensures var d := IntToDecimal(ms);
      SyncText(ms) == JoinWith(["", "", d, "=", "TS", d], ' ')
  {
    var d := IntToDecimal(ms);
    var w := ["", "", d, "=", "TS", d];
    assert JoinWith(w[5..], ' ') == d;
    JoinCons(w[4], w[5..], ' ');
    assert w[4..] == [w[4]] + w[5..];
    JoinCons(w[3], w[4..], ' ');
    assert w[3..] == [w[3]] + w[4..];
    JoinCons(w[2], w[3..], ' ');
    assert w[2..] == [w[2]] + w[3..];
    var tail := JoinWith(w[2..], ' ');
    assert tail == d + " = TS " + d;
    JoinCons(w[1], w[2..], ' ');
    assert w[1..] == [w[1]] + w[2..];
    JoinCons(w[0], w[1..], ' ');
    assert w == [w[0]] + w[1..];
    assert JoinWith(w, ' ') == "  " + tail;
  }

  /** A sync line reads back as its number. */
  lemma ReadSyncTextRoundTrip(ms: int)
    ensures ReadSyncText(SyncText(ms)) == Some(ms)
  {
    var d := IntToDecimal(ms);
    var w := ["", "", d, "=", "TS", d];
    SyncTextWords(ms);
    DecimalPlain(ms);
    SplitJoin(w, ' ');
    DecimalRoundTrip(ms);
  }

  lemma {:induction false} ReadSyncTextsRoundTrip(ms: seq<int>)
    ensures ReadSyncTexts(SyncTexts(ms)) == Some(ms)
    decreases |ms|
  {
    if ms != [] {
      ReadSyncTextRoundTrip(ms[0]);
      assert SyncTexts(ms)[1..] == SyncTexts(ms[1..]);
      ReadSyncTextsRoundTrip(ms[1..]);
      assert ms == [ms[0]] + ms[1..];
    }
  }

  lemma HeadLinesPlain(songName: string)
    requires '\n' !in songName
    ensures forall k :: 0 <= k < 9 ==> '\n' !in HeadLines(songName)[k]
  {
  }

  /** No line of a chart holds a line end, when the song name has none. */
  lemma ChartLinesPlain(songName: string, ms: seq<int>)
    requires '\n' !in songName
    ensures var lines := ChartLines(songName, ms) + [""];
      forall k :: 0 <= k < |lines| ==> '\n' !in lines[k]
  {
    var lines := ChartLines(songName, ms) + [""];
    HeadLinesPlain(songName);
    forall k | 0 <= k < |lines| ensures '\n' !in lines[k] {
      if k < 9 {
        assert lines[k] == HeadLines(songName)[k];
      } else if k < 9 + |ms| {
        assert lines[k] == SyncText(ms[k - 9]);
        DecimalPlain(ms[k - 9]);
      }
    }
  }

  /** Reading a rendered chart gives back the song name and, one per
      beat and in the beats' order, each beat's truncated milliseconds;
      beats in the same millisecond stay separate lines. */
  lemma ChartRoundTrip(songName: string, beats: seq<real>)
    requires '\n' !in songName
    ensures ReadChart(RenderChart(songName, beats)) == Some((songName, Millis(beats)))
  {
    var ms := Millis(beats);
    RenderedLines(songName, beats);
    ReadChartLinesRoundTrip(songName, ms);
  }

  lemma RenderedLines(songName: string, beats: seq<real>)
    requires '\n' !in songName
    ensures Split(RenderChart(songName, beats), '\n') == ChartLines(songName, Millis(beats)) + [""]
  {
    var ms := Millis(beats);
    RenderLines(songName, beats);
    TerminatedJoin(ChartLines(songName, ms));
    ChartLinesPlain(songName, ms);
    SplitJoin(ChartLines(songName, ms) + [""], '\n');
  }

  lemma ReadChartLinesRoundTrip(songName: string, ms: seq<int>)
    ensures ReadChartLines(ChartLines(songName, ms) + [""]) == Some((songName, ms))
  {
    var h := HeadLines(songName);
    var lines := h + SyncTexts(ms) + ["}", ""];
    assert lines == ChartLines(songName, ms) + [""];
    assert lines[..2] == h[..2];
    assert lines[3..9] == h[3..9];
    assert lines[|lines| - 2..] == ["}", ""];
    assert lines[9..|lines| - 2] == SyncTexts(ms);
    ReadSyncTextsRoundTrip(ms);
    assert lines[2] == "  Name = " + songName;
  }

  /** Beats at 0 s, 0.5 s and 0.5005 s give the lines 0, 500 and 500. */
  lemma ExampleMillis()
    ensures Millis([0.0, 0.5, 0.5005]) == [0, 500, 500]
  {
    assert TruncMs(0.5005) == 500;
  }

  // ---- process_song_file ----

  /** `OUTPUT_DIR`, `/app/data/clonehero_content/generator`. */
  const OutputDir: Path := ["app", "data", "clonehero_content", "generator"]

  /** What the beat detection reports. */
  datatype Analysis = Analysis(tempo: real, beats: seq<real>)

  /** `{"message": …, "notes_chart": …, "tempo": …}`, or the
      `{"error": str(e)}` of an exception. */
  datatype SongResult = Processed(message: string, notesChart: string, tempo: real) | Failed

  /** `Path(file_path).stem`. */
  function SongName(file: string): string {
    Stem(Name(Parts(file)))
  }

  function ChartPath(file: string): Path {
    Join(Join(OutputDir, SongName(file)), "notes.chart")
  }

  /** `process_song_file(file_path)`; `None` for the analysis is an
      exception raised by it. The `mkdir` fails when a file stands at the
      song's folder or above it, and `open(..., "w")` fails on a
      directory; an existing chart is overwritten. */
  function ProcessSongFile(fs: Files, file: string, analysis: Option<Analysis>): (r: (Files, SongResult))
    ensures r.1.Failed? ==> r.0 == fs
    ensures r.1.Processed? ==>
      && analysis.Some? && r.1.tempo == analysis.value.tempo && r.1.notesChart == Render(ChartPath(file))
      && ChartPath(file) in r.0 && r.0[ChartPath(file)].Utf8?
      && forall p :: p in fs && p != ChartPath(file) ==> p in r.0 && r.0[p] == fs[p]
  {
    match analysis
    case None => (fs, Failed)
    case Some(a) =>
      var dir := Join(OutputDir, SongName(file));
      var chart := ChartPath(file);
      if Blocked(fs, dir) || IsDir(fs, chart) then (fs, Failed)
      else (fs[chart := Utf8(RenderChart(SongName(file), a.beats))],
            Processed("Song processed successfully", Render(chart), a.tempo))
  }

  /** `process_song_file` on the file system. */
  method ProcessSongFileOn(disk: FileSystem, file: string, analysis: Option<Analysis>) returns (result: SongResult)
    modifies disk
    ensures (disk.files, result) == ProcessSongFile(old(disk.files), file, analysis)
  {
    if analysis.None? {
      return Failed;
    }
    var ok := disk.MakeDirs(Join(OutputDir, SongName(file)));
    if !ok {
      return Failed;
    }
    var chart := ChartPath(file);
    if IsDir(disk.files, chart) {
      return Failed;
    }
    disk.Write(chart, Utf8(RenderChart(SongName(file), analysis.value.beats)));
    result := Processed("Song processed successfully", Render(chart), analysis.value.tempo);
  }

  /** For a file whose stem is a plain name, the chart goes to
      `<output dir>/<stem>/notes.chart`. */
  lemma ChartPathLayout(file: string)
    requires IsComponent(SongName(file))
    ensures ChartPath(file) == OutputDir + [SongName(file), "notes.chart"]
  {
    assert IsComponent("notes.chart");
    JoinTwo(OutputDir, SongName(file), "notes.chart");
  }

  lemma JoinTwo(base: Path, a: string, b: string)
    requires IsComponent(a) && IsComponent(b)
    ensures Join(Join(base, a), b) == base + [a, b]
  {
    JoinComponent(base, a);
    JoinComponent(base + [a], b);
    assert base + [a] + [b] == base + [a, b];
  }

  /** A song processed without error has its chart at
      `<output dir>/<stem>/notes.chart`, holding the rendered chart of its
      stem and beats, nothing else on disk changes, and the result names
      that file and the tempo. */
  lemma ProcessedLayout(fs: Files, file: string, a: Analysis)
    requires IsComponent(SongName(file))
    requires !Blocked(fs, OutputDir + [SongName(file)])
    requires !IsDir(fs, OutputDir + [SongName(file), "notes.chart"])
    ensures var chart := OutputDir + [SongName(file), "notes.chart"];
      ProcessSongFile(fs, file, Some(a))
        == (fs[chart := Utf8(RenderChart(SongName(file), a.beats))],
            Processed("Song processed successfully", Render(chart), a.tempo))
  {
    JoinComponent(OutputDir, SongName(file));
    ChartPathLayout(file);
    assert !IsDir(fs, ChartPath(file));
    assert !Blocked(fs, Join(OutputDir, SongName(file)));
  }

  /** The song's folder holding a file, or a directory standing where the
      chart goes, makes the call fail without writing anything. */
  lemma ProcessedOnlyIfFree(fs: Files, file: string, a: Analysis)
    requires IsComponent(SongName(file))
    requires Blocked(fs, OutputDir + [SongName(file)]) || IsDir(fs, OutputDir + [SongName(file), "notes.chart"])
    ensures ProcessSongFile(fs, file, Some(a)) == (fs, Failed)
  {
    JoinComponent(OutputDir, SongName(file));
    ChartPathLayout(file);
  }

  /** A chart left by an earlier run of the same song is replaced: the set
      of files stays the same and the chart holds the new text. */
  lemma ChartOverwritten(fs: Files, file: string, a: Analysis)
    requires IsComponent(SongName(file))
    requires OutputDir + [SongName(file), "notes.chart"] in fs
    requires !Blocked(fs, OutputDir + [SongName(file)])
    requires !IsDir(fs, OutputDir + [SongName(file), "notes.chart"])
    ensures var r := ProcessSongFile(fs, file, Some(a));
      var chart := OutputDir + [SongName(file), "notes.chart"];
      && r.1.Processed? && r.0.Keys == fs.Keys
      && r.0[chart] == Utf8(RenderChart(SongName(file), a.beats))
  {
    ProcessedLayout(fs, file, a);
  }

  /** A failed analysis writes nothing. */
  lemma AnalysisFailure(fs: Files, file: string)
    ensures ProcessSongFile(fs, file, None) == (fs, Failed)
  {
  }
}
