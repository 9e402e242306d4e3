/** Reading a song descriptor (`song.ini`). The first half models the
    line reader of Python's `configparser.ConfigParser` with its default
    settings: `#` and `;` full-line comments, `=` and `:` as delimiters,
    option names lower-cased, strict duplicate checks, continuation lines
    by indentation, empty lines kept inside values, and a `DEFAULT`
    section whose options every section inherits. The second half is
    `parse_song_ini`, which keeps a fixed whitelist of optional keys. */
module SongIni {
  import opened Wrappers
  import opened Text
  import opened Paths
  import opened Disk

  /** The optional descriptor keys copied into a song's metadata. */
  const OptionalFields: seq<string> := [
    "genre", "year", "album_track", "playlist_track", "charter", "icon",
    "diff_guitar", "diff_rhythm", "diff_bass", "diff_guitar_coop", "diff_drums",
    "diff_drums_real", "diff_guitarghl", "diff_bassghl", "diff_rhythm_ghl",
    "diff_guitar_coop_ghl", "diff_keys", "song_length", "preview_start_time",
    "video_start_time", "modchart", "loading_phrase", "delay"
  ]

  const DefaultSection: string := "DEFAULT"
  const SongSection: string := "song"

  /** The exceptions the reader raises; `parse_song_ini` turns each of
      them into "skip". */
  datatype IniError =
    | MissingSectionHeader
    | DuplicateSection(section: string)
    | DuplicateOption(section: string, option: string)
    | ParsingError

  /** The section the reader is filling. */
  datatype Target = Named(name: string) | Defaults

  /** The reader between two lines: the sections read so far (each value
      still a list of lines), the current section and option, and the
      indentation of the line that opened the current option. */
  datatype Reader = Reader(
    sections: map<string, map<string, seq<string>>>,
    defaults: map<string, seq<string>>,
    cur: Option<Target>,
    opt: Option<string>,
    indent: nat)

  datatype Read = Going(reader: Reader) | Stopped(error: IniError)

  /** A parsed file: every value joined into one string. */
  datatype Config = Config(sections: map<string, map<string, string>>, defaults: map<string, string>)

  const Start: Reader := Reader(map[], map[], None, None, 0)

  /** What the reader keeps true: the current section exists, the current
      option exists in it, and no ordinary section is called `DEFAULT`. */
  predicate Valid(r: Reader) {
    && DefaultSection !in r.sections
    && (r.cur.Some? && r.cur.value.Named? ==> r.cur.value.name in r.sections)
    && (r.opt.Some? ==> r.cur.Some? && r.opt.value in Section(r, r.cur.value))
  }

  function Section(r: Reader, t: Target): map<string, seq<string>> {
    match t
    case Named(n) => if n in r.sections then r.sections[n] else map[]
    case Defaults => r.defaults
  }

  function TargetName(t: Target): string {
    match t
    case Named(n) => n
    case Defaults => DefaultSection
  }

  /** Sets option `key` of the current section to `lines` and makes it the
      current option. */
  function Put(r: Reader, key: string, lines: seq<string>): (x: Reader)
    requires Valid(r) && r.cur.Some?
    ensures Valid(x)
    ensures x.cur == r.cur && x.opt == Some(key) && x.indent == r.indent
    ensures Section(x, x.cur.value) == Section(r, r.cur.value)[key := lines]
  {
    match r.cur.value
    case Named(n) => r.(sections := r.sections[n := r.sections[n][key := lines]], opt := Some(key))
    case Defaults => r.(defaults := r.defaults[key := lines], opt := Some(key))
  }

  /** A section header: `[`, at least one character, and the last `]` of
      the line; what follows that `]` is ignored. */
  function Header(s: string): (r: Option<string>)
    ensures r.Some? ==> |r.value| > 0
  {
    var j := LastIndexOf(s, ']');
    if |s| > 0 && s[0] == '[' && j >= 2 then Some(s[1..j]) else None
  }

  predicate IsDelimiter(c: char) {
    c == '=' || c == ':'
  }

  /** The index of the first `=` or `:`, or -1. */
  function FirstDelimiter(s: string): (i: int)
    ensures -1 <= i < |s|
    ensures i >= 0 ==> IsDelimiter(s[i])
    ensures forall k :: 0 <= k < |s| && (i < 0 || k < i) ==> !IsDelimiter(s[k])
    decreases |s|
  {
    if s == [] then -1
    else if IsDelimiter(s[0]) then 0
    else
      var j := FirstDelimiter(s[1..]);
      if j < 0 then -1 else j + 1
  }

  /** How the reader sees a line once it is stripped: empty, a comment,
      or text with the width of its indentation. */
  datatype LineKind = Blank | Comment | Content(text: string, indent: nat)

  function Classify(line: string): (k: LineKind)
    ensures k.Content? ==> k.text == Trim(line) && k.text != []
  {
    var s := Trim(line);
    if s == "" then Blank
    else if s[0] == '#' || s[0] == ';' then Comment
    else Content(s, |line| - |TrimLeft(line)|)
  }

  /** The reader's step on one line of the file. */
  function Feed(r: Reader, line: string): (x: Read)
    requires Valid(r)
    ensures x.Going? ==> Valid(x.reader)
  {
    match Classify(line)
    case Blank =>
      // an empty line belongs to the value being read, if there is one
      if r.opt.Some? then Going(Extend(r, "")) else Going(r)
    case Comment => Going(r)
    case Content(s, indent) =>
      if r.opt.Some? && indent > r.indent then Going(Extend(r, s))
      else Entry(r.(indent := indent), s)
  }

  /** Adds a line to the value of the current option. */
  function Extend(r: Reader, line: string): (x: Reader)
    requires Valid(r) && r.opt.Some?
    ensures Valid(x)
  {
    var key := r.opt.value;
    Put(r, key, Section(r, r.cur.value)[key] + [line])
  }

  /** A line that is not a continuation: a section header or an option. */
  function Entry(r: Reader, s: string): (x: Read)
    requires Valid(r)
    ensures x.Going? ==> Valid(x.reader)
  {
    match Header(s)
    case Some(name) =>
      if name in r.sections then Stopped(DuplicateSection(name))
      else if name == DefaultSection then Going(r.(cur := Some(Defaults), opt := None))
      else Going(r.(sections := r.sections[name := map[]], cur := Some(Named(name)), opt := None))
    case None =>
      if r.cur.None? then Stopped(MissingSectionHeader) else OptionEntry(r, s)
  }

  /** `name = value` or `name: value`, split at the first delimiter; the
      name is right-stripped and lower-cased, the value stripped. */
  function OptionEntry(r: Reader, s: string): (x: Read)
    requires Valid(r) && r.cur.Some?
    ensures x.Going? ==> Valid(x.reader)
  {
    var i := FirstDelimiter(s);
    if i <= 0 then Stopped(ParsingError)
    else
      var key := Lower(TrimRight(s[..i]));
      if key in Section(r, r.cur.value) then Stopped(DuplicateOption(TargetName(r.cur.value), key))
      else Going(Put(r, key, [Trim(s[i + 1..])]))
  }

  function FeedAll(r: Reader, lines: seq<string>): (x: Read)
    requires Valid(r)
    ensures x.Going? ==> Valid(x.reader)
    decreases |lines|
  {
    if lines == [] then Going(r)
    else
      match Feed(r, lines[0])
      case Stopped(e) => Stopped(e)
      case Going(next) => FeedAll(next, lines[1..])
  }

  /** A value has no white space at its end. */
  predicate Settled(v: string) {
    v == [] || !IsSpace(v[|v| - 1])
  }

  /** Every value's lines joined with newlines, trailing white space
      removed. */
  function Settle(m: map<string, seq<string>>): (r: map<string, string>)
    ensures r.Keys == m.Keys
    ensures forall k :: k in r ==> Settled(r[k])
  {
    map k | k in m :: TrimRight(JoinWith(m[k], '\n'))
  }

  function Finish(r: Reader): (c: Config)
    ensures c.sections.Keys == r.sections.Keys
    ensures AllSettled(c)
  {
    Config(map s | s in r.sections :: Settle(r.sections[s]), Settle(r.defaults))
  }

  /** Text-mode reading with universal newlines: `\r\n` and a lone `\r`
      both end a line. */
  function Universal(s: string): (r: string)
    ensures '\r' !in r
    decreases |s|
  {
    if s == [] then []
    else if s[0] == '\r' then
      if |s| > 1 && s[1] == '\n' then "\n" + Universal(s[2..]) else "\n" + Universal(s[1..])
    else [s[0]] + Universal(s[1..])
  }

  /** The lines of a file. A final empty piece after the last newline is
      kept: an empty line at the end only adds white space that `Settle`
      removes again. */
  function Lines(text: string): seq<string> {
    Split(Universal(text), '\n')
  }

  /** The `utf-8-sig` codec drops one leading byte order mark. */
  function StripBom(text: string): string {
    if |text| > 0 && text[0] == '\U{FEFF}' then text[1..] else text
  }

  /** Every value of a configuration is settled. */
  predicate AllSettled(c: Config) {
    && (forall s, k :: s in c.sections && k in c.sections[s] ==> Settled(c.sections[s][k]))
    && (forall k :: k in c.defaults ==> Settled(c.defaults[k]))
  }

  /** `ConfigParser().read_file` on the text of a file. */
  function Load(text: string): (r: Result<Config, IniError>)
    ensures r.Success? ==> DefaultSection !in r.value.sections && AllSettled(r.value)
  {
    match FeedAll(Start, Lines(text))
    case Stopped(e) => Failure(e)
    case Going(reader) => Success(Finish(reader))
  }

  /** The raw lookup behind `has_option` and `get`, for an option name
      that is already lower-cased: the section first, then `DEFAULT`. */
  function Lookup(c: Config, section: string, key: string): (r: Option<string>)
    ensures r.Some? ==> section in c.sections
    ensures r.Some? ==> r.value in c.sections[section].Values || r.value in c.defaults.Values
  {
    if section !in c.sections then None
    else if key in c.sections[section] then Some(c.sections[section][key])
    else if key in c.defaults then Some(c.defaults[key])
    else None
  }

  /** `config.has_option(section, option)`. */
  predicate HasOption(c: Config, section: string, option: string) {
    Lookup(c, section, Lower(option)).Some?
  }

  // ---- Interpolation ----

  /** `configparser.MAX_INTERPOLATION_DEPTH`. */
  const MaxDepth: nat := 10

  /** The names a `%(name)s` reference in a section can reach: the
      section's own options over those of `DEFAULT`. */
  function Vars(c: Config, section: string): (v: map<string, string>)
    requires section in c.sections
    ensures forall k :: k in v <==> Lookup(c, section, k).Some?
    ensures forall k :: k in v ==> v[k] == Lookup(c, section, k).value
  {
    c.defaults + c.sections[section]
  }

  /** The position of the first `ch` in `s`, or `|s|` when there is none. */
  function FirstIndex(s: string, ch: char): (r: nat)
    ensures r <= |s| && ch !in s[..r] && (r < |s| ==> s[r] == ch)
    decreases |s|
  {
    if s == [] then 0
    else if s[0] == ch then 0
    else
      var k := FirstIndex(s[1..], ch);
      assert s[1..][..k] == s[1..k + 1];
      1 + k
  }

  /** The reference `%(name)s` at the start of `rest`, matched as the
      pattern `%\(([^)]+)\)s`: the name and the length of the reference. */
  function KeyRef(rest: string): (r: Option<(string, nat)>)
    requires |rest| >= 2 && rest[0] == '%' && rest[1] == '('
    ensures r.Some? ==> 3 < r.value.1 <= |rest| && r.value.0 != [] && ')' !in r.value.0
  {
    var j := 2 + FirstIndex(rest[2..], ')');
    if j == 2 || j + 1 >= |rest| || rest[j + 1] != 's' then None
    else Some((rest[2..j], j + 2))
  }

  function Prepend(p: string, o: Option<string>): Option<string> {
    match o
    case None => None
    case Some(s) => Some(p + s)
  }

  /** `BasicInterpolation._interpolate_some` at depth `depth`: `None`
      stands for the exception it raises, when the depth passes the
      limit, a `%` is followed by neither `%` nor a well-formed
      reference, or a reference names no option. */
  function Interpolated(vars: map<string, string>, rest: string, depth: nat): Option<string>
    requires depth <= MaxDepth + 1
    decreases MaxDepth + 1 - depth, |rest|, 1
  {
    if depth > MaxDepth then None else Pieces(vars, rest, depth)
  }

  /** The scan of one value: plain text is kept, `%%` becomes `%`, and a
      reference is replaced by the value it names, itself interpolated one
      level deeper when it holds a `%`. */
  function Pieces(vars: map<string, string>, rest: string, depth: nat): Option<string>
    requires depth <= MaxDepth
    decreases MaxDepth + 1 - depth, |rest|, 0
  {
    if rest == [] then Some([])
    else if rest[0] != '%' then Prepend([rest[0]], Pieces(vars, rest[1..], depth))
    else if |rest| >= 2 && rest[1] == '%' then Prepend("%", Pieces(vars, rest[2..], depth))
    else if |rest| >= 2 && rest[1] == '(' then
      match KeyRef(rest)
      case None => None
      case Some((name, end)) =>
        var key := Lower(name);
        if key !in vars then None
        else
          var v := vars[key];
          var piece := if '%' in v then Interpolated(vars, v, depth + 1) else Some(v);
          match piece
          case None => None
          case Some(p) => Prepend(p, Pieces(vars, rest[end..], depth))
    else None
  }

  /** A value without `%` is returned as written. */
  lemma {:induction false} PiecesPlain(vars: map<string, string>, rest: string, depth: nat)
    requires depth <= MaxDepth && '%' !in rest
    ensures Pieces(vars, rest, depth) == Some(rest)
    decreases |rest|
  {
    if rest != [] {
      PiecesPlain(vars, rest[1..], depth);
      assert [rest[0]] + rest[1..] == rest;
    }
  }

  /** What `config.get(section, option, fallback=None)` gives: the
      fallback when the option is missing, the interpolated value, or the
      exception of a failed interpolation. */
  datatype Got = Missing | Found(value: string) | Bad

  /** `config.get(section, option, fallback=None)` for a section other
      than `DEFAULT`, once the option name has been lower-cased. */
  function Fetch(c: Config, section: string, key: string): (r: Got)
    ensures r.Missing? <==> Lookup(c, section, key).None?
    ensures Lookup(c, section, key).Some? && '%' !in Lookup(c, section, key).value
            ==> r == Found(Lookup(c, section, key).value)
  {
    match Lookup(c, section, key)
    case None => Missing
    case Some(raw) =>
      PiecesPlainTop(Vars(c, section), raw);
      match Interpolated(Vars(c, section), raw, 1)
      case None => Bad
      case Some(v) => Found(v)
  }

  /** `config.get(section, option, fallback=None)`: the option name is
      lower-cased first. */
  function Get(c: Config, section: string, option: string): (r: Got)
    ensures r.Missing? <==> !HasOption(c, section, option)
    ensures HasOption(c, section, option) && '%' !in Lookup(c, section, Lower(option)).value
            ==> r == Found(Lookup(c, section, Lower(option)).value)
  {
    Fetch(c, section, Lower(option))
  }

  lemma PiecesPlainTop(vars: map<string, string>, raw: string)
    ensures '%' !in raw ==> Interpolated(vars, raw, 1) == Some(raw)
  {
    if '%' !in raw {
      PiecesPlain(vars, raw, 1);
    }
  }

  /** `%%` stands for a single `%`. */
  lemma DoublePercent(vars: map<string, string>)
    ensures Interpolated(vars, "100%% FC", 1) == Some("100% FC")
  {
    var s3 := "%% FC";
    assert s3[2..] == " FC";
    PiecesPlain(vars, " FC", 1);
    assert "%" + " FC" == "% FC";
    assert Pieces(vars, s3, 1) == Some("% FC");
    var s2 := "0%% FC";
    assert s2[1..] == s3 && [s2[0]] + "% FC" == "0% FC";
    assert Pieces(vars, s2, 1) == Some("0% FC");
    var s1 := "00%% FC";
    assert s1[1..] == s2 && [s1[0]] + "0% FC" == "00% FC";
    assert Pieces(vars, s1, 1) == Some("00% FC");
    var s0 := "100%% FC";
    assert s0[1..] == s1 && [s0[0]] + "00% FC" == "100% FC";
  }

  /** A `%` followed by anything but `%` or `(` raises. */
  lemma BarePercentRaises(vars: map<string, string>)
    ensures Interpolated(vars, "100% FC", 1) == None
  {
    var s3 := "% FC";
    assert Pieces(vars, s3, 1) == None;
    var s2 := "0% FC";
    assert s2[1..] == s3;
    var s1 := "00% FC";
    assert s1[1..] == s2;
    var s0 := "100% FC";
    assert s0[1..] == s1;
  }

  /** `%(name)s` is replaced by the value of `name`, looked up in the
      section and then in `DEFAULT`. */
  lemma ReferenceReplaced(c: Config, section: string, option: string, name: string, v: string)
    requires section in c.sections && '%' !in v && name != [] && ')' !in name
    requires Lower(option) in c.sections[section] && c.sections[section][Lower(option)] == "%(" + name + ")s"
    requires Lookup(c, section, Lower(name)) == Some(v)
    ensures Get(c, section, option) == Found(v)
  {
    var vars := Vars(c, section);
    var raw := "%(" + name + ")s";
    assert raw[2..] == name + ")s";
    var j := FirstIndex(raw[2..], ')');
    assert (name + ")s")[|name|] == ')';
    assert forall k :: 0 <= k < |name| ==> raw[2..][k] == name[k];
    assert j == |name|;
    assert raw[2..j + 2] == name;
    assert raw[j + 4..] == [];
    assert KeyRef(raw) == Some((name, |name| + 4));
    assert Lower(name) in vars && vars[Lower(name)] == v;
    assert Pieces(vars, raw[|name| + 4..], 1) == Some([]);
    assert v + [] == v;
    assert Pieces(vars, raw, 1) == Some(v);
  }

  /** An option that refers to itself raises once the depth limit is
      passed. */
  lemma {:induction false} SelfReferenceRaises(vars: map<string, string>, depth: nat)
    requires depth <= MaxDepth + 1
    requires "a" in vars && vars["a"] == "%(a)s"
    ensures Interpolated(vars, "%(a)s", depth) == None
    decreases MaxDepth + 1 - depth
  {
    if depth <= MaxDepth {
      var raw := "%(a)s";
      assert raw[2..] == "a)s";
      assert FirstIndex(raw[2..], ')') == 1;
      assert raw[2..3] == "a";
      assert KeyRef(raw) == Some(("a", 5));
      assert Lower("a") == "a";
      SelfReferenceRaises(vars, depth + 1);
    }
  }

  /** Without `%` in the values, reading an option is a plain lookup. */
  predicate NoPercent(c: Config) {
    && (forall s, k :: s in c.sections && k in c.sections[s] ==> '%' !in c.sections[s][k])
    && (forall k :: k in c.defaults ==> '%' !in c.defaults[k])
  }

  /** A value the section does not set comes from `DEFAULT`: every
      section that does not set it reads the same raw value, and the same
      value when it holds no `%`. */
  lemma DefaultsShared(c: Config, s1: string, s2: string, option: string)
    requires s1 in c.sections && s2 in c.sections
    requires Lower(option) !in c.sections[s1] && Lower(option) !in c.sections[s2]
    ensures Lookup(c, s1, Lower(option)) == Lookup(c, s2, Lower(option))
    ensures Lower(option) !in c.defaults ==> Get(c, s1, option) == Missing && Get(c, s2, option) == Missing
    ensures Lower(option) in c.defaults && '%' !in c.defaults[Lower(option)] ==>
      Get(c, s1, option) == Found(c.defaults[Lower(option)]) && Get(c, s2, option) == Found(c.defaults[Lower(option)])
  {
  }

  /** An option the section sets hides whatever `DEFAULT` says. */
  lemma SectionShadowsDefaults(c: Config, section: string, option: string, defaults: map<string, string>)
    requires section in c.sections && Lower(option) in c.sections[section]
    ensures Lookup(c, section, Lower(option)) == Lookup(c.(defaults := defaults), section, Lower(option))
    ensures '%' !in c.sections[section][Lower(option)] ==>
      Get(c, section, option) == Found(c.sections[section][Lower(option)])
  {
  }

  /** `DEFAULT` alone can supply the three required fields: an empty
      `[song]` section is enough, and it then has no metadata. */
  lemma DefaultsSupplyFields(c: Config, name: string, artist: string, album: string)
    requires name != "" && artist != "" && album != ""
    requires '%' !in name && '%' !in artist && '%' !in album
    requires c == Config(map[SongSection := map[]], map["name" := name, "artist" := artist, "album" := album])
    ensures FromConfig(c) == Song(SongInfo(Trim(name), Trim(artist), Trim(album), map[]))
  {
    DefaultsRequired(c, name, artist, album);
    DefaultsNoMetadata(c, name, artist, album);
  }

  lemma DefaultsRequired(c: Config, name: string, artist: string, album: string)
    requires '%' !in name && '%' !in artist && '%' !in album
    requires c == Config(map[SongSection := map[]], map["name" := name, "artist" := artist, "album" := album])
    ensures Get(c, SongSection, "name") == Found(name)
    ensures Get(c, SongSection, "artist") == Found(artist)
    ensures Get(c, SongSection, "album") == Found(album)
  {
    assert Lower("name") == "name" && Lower("artist") == "artist" && Lower("album") == "album";
  }

  lemma DefaultsNoMetadata(c: Config, name: string, artist: string, album: string)
    requires c == Config(map[SongSection := map[]], map["name" := name, "artist" := artist, "album" := album])
    ensures Metadata(c) == Some(map[])
  {
    NameNotOptional();
    ArtistNotOptional();
    AlbumNotOptional();
    assert forall f :: f in OptionalFields ==> Lookup(c, SongSection, f).None?;
  }

  // ---- parse_song_ini ----

  /** A song's descriptor: title, artist, album and the optional keys. */
  datatype SongInfo = SongInfo(title: string, artist: string, album: string, metadata: map<string, string>)

  /** What `parse_song_ini` gives: the empty dict, a song, or an
      exception from `get`, which it does not catch. */
  datatype Parsed = Skipped | Song(info: SongInfo) | Raised

  /** A required field is present and not empty. */
  predicate Given(v: Got) {
    v.Found? && v.value != ""
  }

  /** The whitelisted options present in the song section, with the
      values `get` returns for them stripped; `None` when one of them
      raises. The whitelisted names are all lower-case, so `has_option`
      and `get` look them up as they are. */
  function Metadata(c: Config): (m: Option<map<string, string>>)
    ensures m.Some? <==> forall f :: f in OptionalFields ==> !Fetch(c, SongSection, f).Bad?
    ensures m.Some? ==> forall f :: f in m.value <==> f in OptionalFields && Lookup(c, SongSection, f).Some?
    ensures m.Some? ==> forall f :: f in m.value ==>
      Fetch(c, SongSection, f).Found? && m.value[f] == Trim(Fetch(c, SongSection, f).value)
  {
    Collect(c, OptionalFields)
  }

  function Collect(c: Config, fields: seq<string>): (m: Option<map<string, string>>)
    ensures m.Some? <==> forall f :: f in fields ==> !Fetch(c, SongSection, f).Bad?
    ensures m.Some? ==> forall f :: f in m.value <==> f in fields && Lookup(c, SongSection, f).Some?
    ensures m.Some? ==> forall f :: f in m.value ==>
      Fetch(c, SongSection, f).Found? && m.value[f] == Trim(Fetch(c, SongSection, f).value)
    decreases |fields|
  {
    if fields == [] then Some(map[])
    else
      var f := fields[|fields| - 1];
      var rest := Collect(c, fields[..|fields| - 1]);
      assert forall g :: g in fields <==> g in fields[..|fields| - 1] || g == f;
      match Fetch(c, SongSection, f)
      case Bad => None
      case Missing => rest
      case Found(v) => if rest.None? then None else Some(rest.value[f := Trim(v)])
  }

  /** The checks of `parse_song_ini` after the file has been read: the
      three `get` calls, the test that none is empty, then the metadata. */
  function FromConfig(c: Config): (r: Parsed)
    ensures r.Song? <==>
      && SongSection in c.sections
      && Given(Get(c, SongSection, "name"))
      && Given(Get(c, SongSection, "artist"))
      && Given(Get(c, SongSection, "album"))
      && Metadata(c).Some?
    ensures r.Raised? ==> SongSection in c.sections
    ensures r.Skipped? && SongSection in c.sections ==>
      !Get(c, SongSection, "name").Bad? && !Get(c, SongSection, "artist").Bad? && !Get(c, SongSection, "album").Bad?
  {
    if SongSection !in c.sections then Skipped
    else
      var name := Get(c, SongSection, "name");
      var artist := Get(c, SongSection, "artist");
      var album := Get(c, SongSection, "album");
      if name.Bad? || artist.Bad? || album.Bad? then Raised
      else if !Given(name) || !Given(artist) || !Given(album) then Skipped
      else match Metadata(c)
        case None => Raised
        case Some(m) => Song(SongInfo(Trim(name.value), Trim(artist.value), Trim(album.value), m))
  }

  /** Three given fields and metadata that reads without raising make a
      song from their stripped values. */
  lemma FromConfigFields(c: Config, name: string, artist: string, album: string, m: map<string, string>)
    requires SongSection in c.sections && name != "" && artist != "" && album != ""
    requires Get(c, SongSection, "name") == Found(name)
    requires Get(c, SongSection, "artist") == Found(artist)
    requires Get(c, SongSection, "album") == Found(album)
    requires Metadata(c) == Some(m)
    ensures FromConfig(c) == Song(SongInfo(Trim(name), Trim(artist), Trim(album), m))
  {
  }

  /** Opening the file as `utf-8-sig` and reading it: `None` when the
      file is missing, is not UTF-8 or does not parse. */
  function LoadFile(fs: Files, path: Path): (r: Option<Config>)
    ensures r.Some? ==> ReadText(fs, path).Some? && AllSettled(r.value)
  {
    match ReadText(fs, path)
    case None => None
    case Some(text) =>
      match Load(StripBom(text))
      case Failure(_) => None
      case Success(c) => Some(c)
  }

  /** `parse_song_ini(path)`: `Skipped` stands for the empty dict, returned
      when the file cannot be read or parsed, has no section named exactly
      `song`, or lacks a name, artist or album. */
  function ParseSongIni(fs: Files, path: Path): (r: Parsed)
    ensures !r.Skipped? ==> path in fs && fs[path].Utf8?
  {
    match LoadFile(fs, path)
    case None => Skipped
    case Some(c) => FromConfig(c)
  }

  /** A file that is missing or is not UTF-8 text is skipped. */
  lemma UnreadableSkipped(fs: Files, path: Path)
    requires ReadText(fs, path).None?
    ensures ParseSongIni(fs, path) == Skipped
  {
  }

  /** Stripping a settled, non-empty value leaves something. */
  lemma TrimSettled(v: string)
    requires v != [] && Settled(v)
    ensures Trim(v) != []
  {
    TrimLeftSuffix(v);
    assert |TrimLeft(v)| > 0;
  }

  /** A raw value found by the lookup keeps the configuration's shape. */
  lemma LookupKeeps(c: Config, section: string, key: string)
    requires Lookup(c, section, key).Some?
    ensures AllSettled(c) ==> Settled(Lookup(c, section, key).value)
    ensures NoPercent(c) ==> '%' !in Lookup(c, section, key).value
  {
    if key in c.sections[section] {
      assert Lookup(c, section, key).value == c.sections[section][key];
    } else {
      assert Lookup(c, section, key).value == c.defaults[key];
    }
  }

  /** A required field given in a settled configuration without `%` is
      still non-empty once stripped. */
  lemma GivenTrimmed(c: Config, field: string)
    requires AllSettled(c) && NoPercent(c) && Given(Get(c, SongSection, field))
    ensures Trim(Get(c, SongSection, field).value) != []
  {
    LookupKeeps(c, SongSection, Lower(field));
    var v := Get(c, SongSection, field).value;
    TrimSettled(v);
  }

  lemma NameNotOptional()
    ensures "name" !in OptionalFields
  {
  }

  lemma ArtistNotOptional()
    ensures "artist" !in OptionalFields
  {
  }

  lemma AlbumNotOptional()
    ensures "album" !in OptionalFields
  {
  }

  /** What the checks after reading deliver: title, artist and album
      carry no surrounding white space; the metadata holds only
      whitelisted keys, so never a required key, and its values carry no
      surrounding white space either. */
  lemma FromConfigShape(c: Config)
    requires FromConfig(c).Song?
    ensures var s := FromConfig(c).info;
      && NoEdgeSpace(s.title) && NoEdgeSpace(s.artist) && NoEdgeSpace(s.album)
      && "name" !in s.metadata && "artist" !in s.metadata && "album" !in s.metadata
      && (forall f :: f in s.metadata ==> f in OptionalFields && NoEdgeSpace(s.metadata[f]))
  {
    NameNotOptional();
    ArtistNotOptional();
    AlbumNotOptional();
    var s := FromConfig(c).info;
    FromConfigInfo(c);
    MetadataShape(Metadata(c).value, c);
  }

  lemma FromConfigInfo(c: Config)
    requires FromConfig(c).Song?
    ensures Metadata(c).Some? && FromConfig(c).info.metadata == Metadata(c).value
    ensures FromConfig(c).info.title == Trim(Get(c, SongSection, "name").value)
    ensures FromConfig(c).info.artist == Trim(Get(c, SongSection, "artist").value)
    ensures FromConfig(c).info.album == Trim(Get(c, SongSection, "album").value)
  {
  }

  lemma MetadataShape(m: map<string, string>, c: Config)
    requires Metadata(c) == Some(m)
    ensures forall f :: f in m ==> f in OptionalFields && NoEdgeSpace(m[f])
  {
  }

  /** From a settled configuration without `%`, title, artist and album
      are also not empty. */
  lemma FromConfigNonEmpty(c: Config)
    requires FromConfig(c).Song? && AllSettled(c) && NoPercent(c)
    ensures var s := FromConfig(c).info; s.title != [] && s.artist != [] && s.album != []
  {
    GivenTrimmed(c, "name");
    GivenTrimmed(c, "artist");
    GivenTrimmed(c, "album");
  }

  /** A successful parse of a file has the shape `FromConfigShape` states,
      and its fields are not empty when no value holds `%`. */
  lemma ParsedShape(fs: Files, path: Path)
    requires ParseSongIni(fs, path).Song?
    ensures var s := ParseSongIni(fs, path).info;
      && NoEdgeSpace(s.title) && NoEdgeSpace(s.artist) && NoEdgeSpace(s.album)
      && "name" !in s.metadata && "artist" !in s.metadata && "album" !in s.metadata
      && (forall f :: f in s.metadata ==> f in OptionalFields && NoEdgeSpace(s.metadata[f]))
      && (NoPercent(LoadFile(fs, path).value) ==> s.title != [] && s.artist != [] && s.album != [])
  {
    var c := LoadFile(fs, path).value;
    FromConfigShape(c);
    if NoPercent(c) {
      FromConfigNonEmpty(c);
    }
  }

  /** A reference to an empty option can make a required field pass the
      emptiness test and still strip to nothing: `name` is `\n%(e)s`, a
      value continued on a second line, with `e` empty. */
  lemma BlankTitleThroughReference(c: Config)
    requires c == Config(map[SongSection := map["name" := "\n%(e)s", "e" := "", "artist" := "Band", "album" := "Demo"]], map[])
    ensures FromConfig(c).Song? && FromConfig(c).info.title == ""
  {
    BlankNameRead(c);
    BlankOthersRead(c);
    BlankNameNoMetadata(c);
    FromConfigFields(c, "\n", "Band", "Demo", map[]);
    TrimNewline();
  }

  lemma TrimNewline()
    ensures Trim("\n") == ""
  {
  }

  lemma BlankNameRead(c: Config)
    requires c == Config(map[SongSection := map["name" := "\n%(e)s", "e" := "", "artist" := "Band", "album" := "Demo"]], map[])
    ensures Get(c, SongSection, "name") == Found("\n")
  {
    assert Lower("name") == "name";
    assert Lookup(c, SongSection, "name") == Some("\n%(e)s");
    var vars := Vars(c, SongSection);
    assert "e" in vars && vars["e"] == "";
    BlankPieces(vars);
  }

  lemma BlankPieces(vars: map<string, string>)
    requires "e" in vars && vars["e"] == ""
    ensures Interpolated(vars, "\n%(e)s", 1) == Some("\n")
  {
    var raw := "\n%(e)s";
    var ref := "%(e)s";
    assert raw[1..] == ref;
    EmptyRef(vars);
    assert [raw[0]] + "" == "\n";
  }

  lemma EmptyRef(vars: map<string, string>)
    requires "e" in vars && vars["e"] == ""
    ensures Pieces(vars, "%(e)s", 1) == Some("")
  {
    var ref := "%(e)s";
    KeyRefE();
    assert Lower("e") == "e";
    assert ref[5..] == [];
    assert Pieces(vars, ref[5..], 1) == Some([]);
    assert "" + [] == "";
  }

  lemma KeyRefE()
    ensures KeyRef("%(e)s") == Some(("e", 5))
  {
    var ref := "%(e)s";
    assert ref[2..] == "e)s";
    assert FirstIndex(ref[2..], ')') == 1;
    assert ref[2..3] == "e";
  }

  lemma BlankOthersRead(c: Config)
    requires c == Config(map[SongSection := map["name" := "\n%(e)s", "e" := "", "artist" := "Band", "album" := "Demo"]], map[])
    ensures Get(c, SongSection, "artist") == Found("Band")
    ensures Get(c, SongSection, "album") == Found("Demo")
  {
    assert Lower("artist") == "artist" && Lower("album") == "album";
    assert '%' !in "Band" && '%' !in "Demo";
  }

  lemma BlankNameNoMetadata(c: Config)
    requires c == Config(map[SongSection := map["name" := "\n%(e)s", "e" := "", "artist" := "Band", "album" := "Demo"]], map[])
    ensures Metadata(c) == Some(map[])
  {
    NameNotOptional();
    ArtistNotOptional();
    AlbumNotOptional();
    assert "e" !in OptionalFields;
    assert forall f :: f in OptionalFields ==> Lookup(c, SongSection, f).None?;
  }

  /** A byte order mark in front of a descriptor changes nothing. */
  lemma BomTolerated(fs: Files, path: Path, text: string)
    requires text == [] || text[0] != '\U{FEFF}'
    ensures ParseSongIni(fs[path := Utf8("\U{FEFF}" + text)], path)
         == ParseSongIni(fs[path := Utf8(text)], path)
  {
    BomLoad(fs, path, text);
  }

  lemma BomLoad(fs: Files, path: Path, text: string)
    requires text == [] || text[0] != '\U{FEFF}'
    ensures LoadFile(fs[path := Utf8("\U{FEFF}" + text)], path) == LoadFile(fs[path := Utf8(text)], path)
  {
    assert StripBom("\U{FEFF}" + text) == text;
    assert StripBom(text) == text;
  }

  // ---- Writing a descriptor and reading it back ----

  /** A key that reads back as itself: no white space, no delimiter, and
      not starting like a comment or a header. */
  predicate PlainKey(k: string) {
    && k != []
    && k[0] != '#' && k[0] != ';' && k[0] != '['
    && forall i :: 0 <= i < |k| ==> !IsSpace(k[i]) && !IsDelimiter(k[i])
  }

  /** A one-line value without surrounding white space. */
  predicate PlainValue(v: string) {
    NoEdgeSpace(v) && '\n' !in v && '\r' !in v
  }

  predicate PlainSection(name: string) {
    name != [] && name != DefaultSection && '\n' !in name && '\r' !in name
  }

  predicate AllPlain(opts: seq<(string, string)>) {
    forall i :: 0 <= i < |opts| ==> PlainKey(opts[i].0) && PlainValue(opts[i].1)
  }

  /** No two keys are the same once lower-cased. */
  predicate DistinctKeys(opts: seq<(string, string)>) {
    forall i, j :: 0 <= i < j < |opts| ==> Lower(opts[i].0) != Lower(opts[j].0)
  }

  predicate PlainOptions(opts: seq<(string, string)>) {
    AllPlain(opts) && DistinctKeys(opts)
  }

  function OptionLine(key: string, value: string): string {
    key + "=" + value
  }

  function HeaderLine(section: string): string {
    "[" + section + "]"
  }

  /** The option lines `key=value` of a descriptor. */
  function OptionLines(opts: seq<(string, string)>): (r: seq<string>)
    ensures |r| == |opts|
    ensures forall i :: 0 <= i < |opts| ==> r[i] == OptionLine(opts[i].0, opts[i].1)
  {
    seq(|opts|, i requires 0 <= i < |opts| => OptionLine(opts[i].0, opts[i].1))
  }

  /** A descriptor with one section holding the given options. */
  function IniText(section: string, opts: seq<(string, string)>): string {
    JoinWith([HeaderLine(section)] + OptionLines(opts), '\n')
  }

  /** The options as the reader stores them: lower-cased key, one line. */
  function LineMap(opts: seq<(string, string)>): map<string, seq<string>>
    decreases |opts|
  {
    if opts == [] then map[] else LineMap(opts[1..])[Lower(opts[0].0) := [opts[0].1]]
  }

  /** The options as a successful load returns them. */
  function ValueMap(opts: seq<(string, string)>): map<string, string>
    decreases |opts|
  {
    if opts == [] then map[] else ValueMap(opts[1..])[Lower(opts[0].0) := opts[0].1]
  }

  lemma {:induction false} LineMapMissing(opts: seq<(string, string)>, k: string)
    requires forall i :: 0 <= i < |opts| ==> Lower(opts[i].0) != k
    ensures k !in LineMap(opts)
    decreases |opts|
  {
    if opts != [] {
      assert forall i :: 0 <= i < |opts[1..]| ==> opts[1..][i] == opts[i + 1];
      LineMapMissing(opts[1..], k);
    }
  }

  lemma PlainTail(opts: seq<(string, string)>)
    requires |opts| > 0 && PlainOptions(opts)
    ensures PlainOptions(opts[1..])
    ensures forall i :: 0 <= i < |opts[1..]| ==> Lower(opts[1..][i].0) != Lower(opts[0].0)
  {
    assert forall i :: 0 <= i < |opts[1..]| ==> opts[1..][i] == opts[i + 1];
  }

  /** A stripped line that is not a comment is read as content with no
      indentation. */
  lemma ClassifyStripped(line: string)
    requires line != [] && NoEdgeSpace(line) && line[0] != '#' && line[0] != ';'
    ensures Classify(line) == Content(line, 0)
  {
    TrimPadded([], line, []);
    assert [] + line + [] == line;
    assert TrimLeft(line) == line;
  }

  lemma OptionLineClass(key: string, value: string)
    requires PlainKey(key) && PlainValue(value)
    ensures Classify(OptionLine(key, value)) == Content(OptionLine(key, value), 0)
    ensures Header(OptionLine(key, value)) == None
  {
    var line := OptionLine(key, value);
    assert line[0] == key[0];
    if value == [] {
      assert line[|line| - 1] == '=';
    } else {
      assert line[|line| - 1] == value[|value| - 1];
    }
    ClassifyStripped(line);
  }

  lemma OptionLineSplit(key: string, value: string)
    requires PlainKey(key) && PlainValue(value)
    ensures var line := OptionLine(key, value);
      && FirstDelimiter(line) == |key|
      && Lower(TrimRight(line[..|key|])) == Lower(key)
      && Trim(line[|key| + 1..]) == value
  {
    var line := OptionLine(key, value);
    assert line[|key|] == '=';
    assert forall j :: 0 <= j < |key| ==> line[j] == key[j];
    assert line[..|key|] == key;
    assert !IsSpace(key[|key| - 1]);
    assert TrimRight(key) == key;
    assert line[|key| + 1..] == value;
    TrimPadded([], value, []);
    assert [] + value + [] == value;
  }

  lemma OptionLinePlain(key: string, value: string)
    requires PlainKey(key) && PlainValue(value)
    ensures '\n' !in OptionLine(key, value) && '\r' !in OptionLine(key, value)
  {
    assert !IsSpace(key[0]);
    assert '\n' !in key && '\r' !in key by {
      assert forall i :: 0 <= i < |key| ==> !IsSpace(key[i]);
    }
  }

  /** Reading one option line `key=value`. */
  lemma FeedOption(r: Reader, key: string, value: string)
    requires Valid(r) && r.cur.Some? && r.indent == 0
    requires PlainKey(key) && PlainValue(value)
    requires Lower(key) !in Section(r, r.cur.value)
    ensures Feed(r, OptionLine(key, value)) == Going(Put(r, Lower(key), [value]))
  {
    OptionLineClass(key, value);
    OptionLineSplit(key, value);
    assert r.(indent := 0) == r;
  }

  lemma HeaderLineFacts(section: string)
    requires PlainSection(section)
    ensures Classify(HeaderLine(section)) == Content(HeaderLine(section), 0)
    ensures Header(HeaderLine(section)) == Some(section)
    ensures '\n' !in HeaderLine(section) && '\r' !in HeaderLine(section)
  {
    var h := HeaderLine(section);
    assert h[0] == '[' && h[|h| - 1] == ']';
    ClassifyStripped(h);
    assert LastIndexOf(h, ']') == |h| - 1;
    assert h[1..|h| - 1] == section;
  }

  /** The header line opens its section. */
  lemma FeedHeader(section: string)
    requires PlainSection(section)
    ensures Feed(Start, HeaderLine(section))
         == Going(Reader(map[section := map[]], map[], Some(Named(section)), None, 0))
  {
    HeaderLineFacts(section);
  }

  lemma MapUpdateUnion(a: map<string, seq<string>>, b: map<string, seq<string>>, k: string, x: seq<string>)
    requires k !in b
    ensures a[k := x] + b == a + b[k := x]
  {
  }

  /** The first option line is read, then the rest. */
  lemma FeedOptionsStep(r: Reader, opts: seq<(string, string)>)
    requires Valid(r) && r.cur.Some? && r.indent == 0 && |opts| > 0
    requires PlainKey(opts[0].0) && PlainValue(opts[0].1)
    requires Lower(opts[0].0) !in Section(r, r.cur.value)
    ensures FeedAll(r, OptionLines(opts))
         == FeedAll(Put(r, Lower(opts[0].0), [opts[0].1]), OptionLines(opts[1..]))
  {
    FeedOption(r, opts[0].0, opts[0].1);
    assert OptionLines(opts)[1..] == OptionLines(opts[1..]);
  }

  lemma PutNamed(r: Reader, key: string, lines: seq<string>)
    requires Valid(r) && r.cur.Some? && r.cur.value.Named?
    ensures Put(r, key, lines).sections
         == r.sections[r.cur.value.name := Section(r, r.cur.value)[key := lines]]
    ensures Put(r, key, lines).defaults == r.defaults
  {
  }

  /** After the first option line the reader still meets the conditions
      for the rest. */
  lemma FeedOptionsNext(r: Reader, opts: seq<(string, string)>)
    requires Valid(r) && r.cur.Some? && r.cur.value.Named? && r.indent == 0
    requires |opts| > 0 && PlainOptions(opts)
    requires forall i :: 0 <= i < |opts| ==> Lower(opts[i].0) !in Section(r, r.cur.value)
    ensures var next := Put(r, Lower(opts[0].0), [opts[0].1]);
      && Valid(next) && next.cur == r.cur && next.indent == 0
      && PlainOptions(opts[1..])
      && (forall i :: 0 <= i < |opts[1..]| ==> Lower(opts[1..][i].0) !in Section(next, next.cur.value))
      && next.sections == r.sections[r.cur.value.name := Section(r, r.cur.value)[Lower(opts[0].0) := [opts[0].1]]]
      && next.defaults == r.defaults
      && Lower(opts[0].0) !in LineMap(opts[1..])
  {
    PlainTail(opts);
    PutNamed(r, Lower(opts[0].0), [opts[0].1]);
    LineMapMissing(opts[1..], Lower(opts[0].0));
  }

  lemma SectionsBook(sections: map<string, map<string, seq<string>>>, n: string, sec: map<string, seq<string>>,
                     opts: seq<(string, string)>)
    requires |opts| > 0 && Lower(opts[0].0) !in LineMap(opts[1..])
    ensures var key := Lower(opts[0].0);
      sections[n := sec[key := [opts[0].1]]][n := sec[key := [opts[0].1]] + LineMap(opts[1..])]
      == sections[n := sec + LineMap(opts)]
  {
    MapUpdateUnion(sec, LineMap(opts[1..]), Lower(opts[0].0), [opts[0].1]);
  }

  /** Reading the option lines of a descriptor into the current section. */
  lemma {:induction false} FeedOptions(r: Reader, opts: seq<(string, string)>)
    requires Valid(r) && r.cur.Some? && r.cur.value.Named? && r.indent == 0
    requires PlainOptions(opts)
    requires forall i :: 0 <= i < |opts| ==> Lower(opts[i].0) !in Section(r, r.cur.value)
    ensures FeedAll(r, OptionLines(opts)).Going?
    ensures var x := FeedAll(r, OptionLines(opts)).reader;
      && x.defaults == r.defaults
      && x.sections == r.sections[r.cur.value.name := Section(r, r.cur.value) + LineMap(opts)]
    decreases |opts|
  {
    if opts == [] {
      assert Section(r, r.cur.value) + map[] == r.sections[r.cur.value.name];
    } else {
      FeedOptionsStep(r, opts);
      FeedOptionsNext(r, opts);
      FeedOptions(Put(r, Lower(opts[0].0), [opts[0].1]), opts[1..]);
      SectionsBook(r.sections, r.cur.value.name, Section(r, r.cur.value), opts);
    }
  }

  lemma SettleUpdate(m: map<string, seq<string>>, k: string, lines: seq<string>)
    ensures Settle(m[k := lines]) == Settle(m)[k := TrimRight(JoinWith(lines, '\n'))]
  {
  }

  lemma {:induction false} SettleLineMap(opts: seq<(string, string)>)
    requires forall i :: 0 <= i < |opts| ==> PlainValue(opts[i].1)
    ensures Settle(LineMap(opts)) == ValueMap(opts)
    decreases |opts|
  {
    if opts != [] {
      assert forall i :: 0 <= i < |opts[1..]| ==> opts[1..][i] == opts[i + 1];
      SettleLineMap(opts[1..]);
      var v := opts[0].1;
      SettleUpdate(LineMap(opts[1..]), Lower(opts[0].0), [v]);
      assert JoinWith([v], '\n') == v;
      TrimRightPadded(v, []);
      assert v + [] == v;
    }
  }

  lemma {:induction false} JoinWithout(parts: seq<string>, sep: char, c: char)
    requires c != sep
    requires forall k :: 0 <= k < |parts| ==> c !in parts[k]
    ensures c !in JoinWith(parts, sep)
    decreases |parts|
  {
    if |parts| > 1 {
      JoinWithout(parts[1..], sep, c);
    }
  }

  lemma {:induction false} UniversalPlain(s: string)
    requires '\r' !in s
    ensures Universal(s) == s
    decreases |s|
  {
    if s != [] {
      UniversalPlain(s[1..]);
      assert s == [s[0]] + s[1..];
    }
  }

  /** The lines the reader sees in a written descriptor are the lines that
      were written. */
  lemma IniLines(section: string, opts: seq<(string, string)>)
    requires PlainSection(section) && AllPlain(opts)
    ensures Lines(IniText(section, opts)) == [HeaderLine(section)] + OptionLines(opts)
  {
    var lines := [HeaderLine(section)] + OptionLines(opts);
    HeaderLineFacts(section);
    forall k | 0 <= k < |lines| ensures '\n' !in lines[k] && '\r' !in lines[k] {
      if k > 0 {
        OptionLinePlain(opts[k - 1].0, opts[k - 1].1);
      }
    }
    JoinWithout(lines, '\n', '\r');
    UniversalPlain(IniText(section, opts));
    SplitJoin(lines, '\n');
  }

  /** The reader after a written descriptor holds its one section. */
  lemma FeedIni(section: string, opts: seq<(string, string)>)
    requires PlainSection(section) && PlainOptions(opts)
    ensures FeedAll(Start, [HeaderLine(section)] + OptionLines(opts)).Going?
    ensures var x := FeedAll(Start, [HeaderLine(section)] + OptionLines(opts)).reader;
      x.sections == map[section := LineMap(opts)] && x.defaults == map[]
  {
    var r1 := Reader(map[section := map[]], map[], Some(Named(section)), None, 0);
    FeedAfterHeader(section, OptionLines(opts));
    FreshSection(section, opts);
    FeedOptions(r1, opts);
    SingleSection(section, LineMap(opts));
  }

  lemma SingleSection(section: string, m: map<string, seq<string>>)
    ensures map[section := map[]][section := map[] + m] == map[section := m]
  {
    assert map[] + m == m;
  }

  /** Right after its header, a section is empty and the reader is ready
      for options. */
  lemma FreshSection(section: string, opts: seq<(string, string)>)
    requires PlainSection(section)
    ensures var r1 := Reader(map[section := map[]], map[], Some(Named(section)), None, 0);
      && Valid(r1) && Section(r1, r1.cur.value) == map[]
      && forall i :: 0 <= i < |opts| ==> Lower(opts[i].0) !in Section(r1, r1.cur.value)
  {
  }

  lemma FeedAfterHeader(section: string, rest: seq<string>)
    requires PlainSection(section)
    ensures FeedAll(Start, [HeaderLine(section)] + rest)
         == FeedAll(Reader(map[section := map[]], map[], Some(Named(section)), None, 0), rest)
  {
    var lines := [HeaderLine(section)] + rest;
    FeedHeader(section);
    assert lines[0] == HeaderLine(section) && lines[1..] == rest;
  }

  lemma FinishIni(x: Reader, section: string, opts: seq<(string, string)>)
    requires AllPlain(opts)
    requires x.sections == map[section := LineMap(opts)] && x.defaults == map[]
    ensures Finish(x) == Config(map[section := ValueMap(opts)], map[])
  {
    SettleLineMap(opts);
    assert Settle(map[]) == map[];
  }

  /** Writing a section of plain options and reading the text back gives
      that section and nothing else: the keys lower-cased, the values as
      written. */
  lemma IniRoundTrip(section: string, opts: seq<(string, string)>)
    requires PlainSection(section) && PlainOptions(opts)
    ensures Load(IniText(section, opts)) == Success(Config(map[section := ValueMap(opts)], map[]))
  {
    IniLines(section, opts);
    FeedIni(section, opts);
    FinishIni(FeedAll(Start, [HeaderLine(section)] + OptionLines(opts)).reader, section, opts);
  }

  lemma {:induction false} ValueMapAt(opts: seq<(string, string)>, i: nat)
    requires PlainOptions(opts) && i < |opts|
    ensures Lower(opts[i].0) in ValueMap(opts) && ValueMap(opts)[Lower(opts[i].0)] == opts[i].1
    decreases i
  {
    if i > 0 {
      PlainTail(opts);
      ValueMapAt(opts[1..], i - 1);
      assert opts[1..][i - 1] == opts[i];
    }
  }

  /** Option names are case-insensitive: after writing `key=value`, asking
      for any spelling of `key` that lower-cases alike gives `value`. */
  lemma OptionNamesFolded(section: string, opts: seq<(string, string)>, i: nat, query: string)
    requires PlainSection(section) && PlainOptions(opts) && i < |opts|
    requires Lower(query) == Lower(opts[i].0)
    ensures Load(IniText(section, opts)).Success?
    ensures Lookup(Load(IniText(section, opts)).value, section, Lower(query)) == Some(opts[i].1)
    ensures '%' !in opts[i].1 ==> Get(Load(IniText(section, opts)).value, section, query) == Found(opts[i].1)
  {
    IniRoundTrip(section, opts);
    ValueMapAt(opts, i);
  }

  /** Section names are case-sensitive: the same options under `[Song]`
      are skipped. */
  lemma SectionNameCaseSensitive(fs: Files, path: Path, opts: seq<(string, string)>)
    requires PlainOptions(opts)
    requires path in fs && fs[path] == Utf8(IniText("Song", opts))
    ensures ParseSongIni(fs, path) == Skipped
  {
    IniRoundTrip("Song", opts);
    var text := IniText("Song", opts);
    assert text[0] == '[';
    assert StripBom(text) == text;
  }

  /** An example descriptor: a `[song]` section with name, artist, album
      and genre. */
  const ExampleOptions: seq<(string, string)> :=
    [("name", "Test"), ("artist", "Band"), ("album", "Demo"), ("genre", "Rock")]

  lemma ExampleDistinct()
    ensures DistinctKeys(ExampleOptions)
  {
    assert Lower("name") == "name" && Lower("artist") == "artist";
    assert Lower("album") == "album" && Lower("genre") == "genre";
  }

  lemma ExampleAllPlain()
    ensures AllPlain(ExampleOptions)
  {
    assert PlainKey("name") && PlainValue("Test");
    assert PlainKey("artist") && PlainValue("Band");
    assert PlainKey("album") && PlainValue("Demo");
    assert PlainKey("genre") && PlainValue("Rock");
  }

  lemma ExamplePlain()
    ensures PlainOptions(ExampleOptions)
  {
    ExampleDistinct();
    ExampleAllPlain();
  }

  const ExampleSection: map<string, string> :=
    map["name" := "Test", "artist" := "Band", "album" := "Demo", "genre" := "Rock"]

  lemma ExampleLookup(c: Config)
    requires c == Config(map[SongSection := ExampleSection], map[])
    ensures forall f :: f in OptionalFields && f != "genre" ==> Lookup(c, SongSection, f).None?
    ensures Lookup(c, SongSection, "genre") == Some("Rock")
  {
    NameNotOptional();
    ArtistNotOptional();
    AlbumNotOptional();
  }

  lemma ExampleMetadata(c: Config)
    requires c == Config(map[SongSection := ExampleSection], map[])
    ensures Metadata(c) == Some(map["genre" := "Rock"])
  {
    ExampleLookup(c);
    GenreMetadata(c);
  }

  /** A song section whose only whitelisted option is `genre = Rock` has
      that option alone as metadata. */
  lemma GenreMetadata(c: Config)
    requires forall f :: f in OptionalFields && f != "genre" ==> Lookup(c, SongSection, f).None?
    requires Lookup(c, SongSection, "genre") == Some("Rock")
    ensures Metadata(c) == Some(map["genre" := "Rock"])
  {
    GenreNoRaise(c);
    var m := Metadata(c).value;
    GenreKeys(c, m);
    GenreOnly(m);
    assert Metadata(c) == Some(m);
  }

  lemma GenreNoRaise(c: Config)
    requires forall f :: f in OptionalFields && f != "genre" ==> Lookup(c, SongSection, f).None?
    requires Lookup(c, SongSection, "genre") == Some("Rock")
    ensures Metadata(c).Some?
  {
    assert '%' !in "Rock";
    assert forall f :: f in OptionalFields ==> !Fetch(c, SongSection, f).Bad?;
  }

  lemma GenreKeys(c: Config, m: map<string, string>)
    requires forall f :: f in OptionalFields && f != "genre" ==> Lookup(c, SongSection, f).None?
    requires Lookup(c, SongSection, "genre") == Some("Rock")
    requires Metadata(c) == Some(m)
    ensures m.Keys == {"genre"} && m["genre"] == "Rock"
  {
    GenreKeySet(c, m);
    GenreValue(c);
  }

  lemma GenreKeySet(c: Config, m: map<string, string>)
    requires forall f :: f in OptionalFields && f != "genre" ==> Lookup(c, SongSection, f).None?
    requires Lookup(c, SongSection, "genre") == Some("Rock")
    requires Metadata(c) == Some(m)
    ensures m.Keys == {"genre"}
  {
    assert "genre" in OptionalFields;
  }

  lemma GenreValue(c: Config)
    requires Lookup(c, SongSection, "genre") == Some("Rock")
    ensures Fetch(c, SongSection, "genre").Found? && Trim(Fetch(c, SongSection, "genre").value) == "Rock"
  {
    assert '%' !in "Rock";
    TrimStripped("Rock");
  }

  lemma GenreOnly(m: map<string, string>)
    requires m.Keys == {"genre"} && m["genre"] == "Rock"
    ensures m == map["genre" := "Rock"]
  {
  }

  lemma ExampleRequired(c: Config)
    requires c == Config(map[SongSection := ExampleSection], map[])
    ensures Get(c, SongSection, "name") == Found("Test")
    ensures Get(c, SongSection, "artist") == Found("Band")
    ensures Get(c, SongSection, "album") == Found("Demo")
  {
    assert Lower("name") == "name" && Lower("artist") == "artist" && Lower("album") == "album";
  }

  lemma ExampleConfig(c: Config)
    requires c == Config(map[SongSection := ExampleSection], map[])
    ensures FromConfig(c) == Song(SongInfo("Test", "Band", "Demo", map["genre" := "Rock"]))
  {
    ExampleRequired(c);
    ExampleMetadata(c);
    ExampleStripped();
    FromConfigPlain(c, "Test", "Band", "Demo", map["genre" := "Rock"]);
  }

  lemma ExampleStripped()
    ensures NoEdgeSpace("Test") && NoEdgeSpace("Band") && NoEdgeSpace("Demo")
  {
  }

  lemma FromConfigPlain(c: Config, name: string, artist: string, album: string, m: map<string, string>)
    requires SongSection in c.sections && name != "" && artist != "" && album != ""
    requires NoEdgeSpace(name) && NoEdgeSpace(artist) && NoEdgeSpace(album)
    requires Get(c, SongSection, "name") == Found(name)
    requires Get(c, SongSection, "artist") == Found(artist)
    requires Get(c, SongSection, "album") == Found(album)
    requires Metadata(c) == Some(m)
    ensures FromConfig(c) == Song(SongInfo(name, artist, album, m))
  {
    FromConfigFields(c, name, artist, album, m);
    TrimStripped(name);
    TrimStripped(artist);
    TrimStripped(album);
  }

  lemma ExampleValues()
    ensures ValueMap(ExampleOptions) == ExampleSection
  {
    assert Lower("name") == "name" && Lower("artist") == "artist";
    assert Lower("album") == "album" && Lower("genre") == "genre";
  }

  /** A descriptor with `name`, `artist`, `album` and `genre` gives the
      three fields and metadata holding `genre` alone. */
  lemma ExampleDescriptor(fs: Files, path: Path)
    requires path in fs && fs[path] == Utf8(IniText(SongSection, ExampleOptions))
    ensures ParseSongIni(fs, path) == Song(SongInfo("Test", "Band", "Demo", map["genre" := "Rock"]))
  {
    ExamplePlain();
    IniRoundTrip(SongSection, ExampleOptions);
    var text := IniText(SongSection, ExampleOptions);
    assert text[0] == '[';
    assert StripBom(text) == text;
    ExampleValues();
    ExampleConfig(Config(map[SongSection := ExampleSection], map[]));
  }

  /** A file whose first line is an option, before any header, is
      refused. */
  lemma MissingHeaderRefused(key: string, value: string, rest: seq<string>)
    requires PlainKey(key) && PlainValue(value)
    ensures FeedAll(Start, [OptionLine(key, value)] + rest) == Stopped(MissingSectionHeader)
  {
    OptionLineClass(key, value);
    assert Feed(Start, OptionLine(key, value)) == Stopped(MissingSectionHeader);
  }

  /** Reading `key=v2` when `key` is already set is refused. */
  lemma FeedDuplicate(r: Reader, key: string, value: string)
    requires Valid(r) && r.cur.Some? && r.indent == 0
    requires PlainKey(key) && PlainValue(value)
    requires Lower(key) in Section(r, r.cur.value)
    ensures Feed(r, OptionLine(key, value)) == Stopped(DuplicateOption(TargetName(r.cur.value), Lower(key)))
  {
    OptionLineClass(key, value);
    OptionLineSplit(key, value);
    assert r.(indent := 0) == r;
  }

  /** The same option twice in one section is refused. */
  lemma DuplicateOptionRefused(section: string, key: string, v1: string, v2: string)
    requires PlainSection(section) && PlainKey(key) && PlainValue(v1) && PlainValue(v2)
    ensures Load(IniText(section, [(key, v1), (key, v2)])).Failure?
  {
    var opts := [(key, v1), (key, v2)];
    assert AllPlain(opts);
    IniLines(section, opts);
    var lines := [HeaderLine(section)] + OptionLines(opts);
    assert lines == [HeaderLine(section), OptionLine(key, v1), OptionLine(key, v2)];
    FeedHeader(section);
    var r1 := Reader(map[section := map[]], map[], Some(Named(section)), None, 0);
    assert FeedAll(Start, lines) == FeedAll(r1, lines[1..]);
    FeedOption(r1, key, v1);
    var r2 := Put(r1, Lower(key), [v1]);
    assert FeedAll(r1, lines[1..]) == FeedAll(r2, lines[2..]);
    FeedDuplicate(r2, key, v2);
  }
}
