/** Paths as the ingestion code builds them: `pathlib.Path` values (a root
    and a list of components), `posixpath.join` on strings, and the three
    ways the code takes a file name apart (`Path.name`, `Path.suffix` /
    `Path.stem`, `os.path.splitext`). */
module Paths {
  import opened Text

  /** An absolute path, as the components after the root directory:
      `/app/data` is `["app", "data"]`. */
  type Path = seq<string>

  /** A component pathlib keeps: not empty, not `.`, no `/`. */
  predicate IsComponent(c: string) {
    c != "" && c != "." && '/' !in c
  }

  /** pathlib's parsing of a string: split at `/`, dropping the empty and
      `.` components (`..` is kept). */
  function Parts(s: string): (r: Path)
    ensures forall k :: 0 <= k < |r| ==> IsComponent(r[k])
  {
    Components(Split(s, '/'))
  }

  function Components(pieces: seq<string>): (r: Path)
    requires forall k :: 0 <= k < |pieces| ==> '/' !in pieces[k]
    ensures forall k :: 0 <= k < |r| ==> IsComponent(r[k])
    ensures |r| <= |pieces|
  {
    if pieces == [] then []
    else if pieces[0] == "" || pieces[0] == "." then Components(pieces[1..])
    else [pieces[0]] + Components(pieces[1..])
  }

  predicate IsAbsolute(s: string) {
    |s| > 0 && s[0] == '/'
  }

  /** pathlib's `base / s`: an absolute `s` replaces `base` altogether. */
  function Join(base: Path, s: string): (r: Path) {
    if IsAbsolute(s) then Parts(s) else base + Parts(s)
  }

  /** Joining a plain name (one component) appends exactly that name. */
  lemma JoinComponent(base: Path, c: string)
    requires IsComponent(c)
    ensures Join(base, c) == base + [c]
  {
    SplitNoSep(c, '/');
  }

  /** Joining a string that holds no `/` never leaves `base`: the result
      is `base` itself or `base` with one more component. */
  lemma JoinNoSlash(base: Path, s: string)
    requires '/' !in s
    ensures Join(base, s) == base || Join(base, s) == base + [s]
  {
    SplitNoSep(s, '/');
  }

  /** `d` is `p` or one of its ancestors. */
  predicate Within(p: Path, d: Path) {
    d <= p
  }

  /** `p` lies strictly below `d`. */
  predicate Below(p: Path, d: Path) {
    d <= p && |d| < |p|
  }

  /** `str(p)` of an absolute path. */
  function Render(p: Path): (r: string)
    ensures |r| > 0 && r[0] == '/'
  {
    "/" + JoinWith(p, '/')
  }

  lemma {:induction false} ComponentsKeep(p: Path)
    requires forall k :: 0 <= k < |p| ==> IsComponent(p[k])
    ensures (forall k :: 0 <= k < |p| ==> '/' !in p[k]) && Components(p) == p
    decreases |p|
  {
    if p != [] {
      ComponentsKeep(p[1..]);
      assert p == [p[0]] + p[1..];
    }
  }

  /** Reading a rendered path back gives the same path. */
  lemma RenderParts(p: Path)
    requires forall k :: 0 <= k < |p| ==> IsComponent(p[k])
    ensures Parts(Render(p)) == p
  {
    var body := JoinWith(p, '/');
    if p == [] {
      assert Render(p) == "/";
      assert Split("/", '/') == ["", ""];
    } else {
      SplitJoin(p, '/');
      assert Render(p)[1..] == body;
      assert Split(Render(p), '/') == [""] + p;
      assert ([""] + p)[1..] == p;
      ComponentsKeep(p);
    }
  }

  /** `Path.name`: the last component, or `""` for the root. */
  function Name(p: Path): string {
    if p == [] then "" else p[|p| - 1]
  }

  /** `Path.parent`. */
  function Parent(p: Path): Path {
    if p == [] then [] else p[..|p| - 1]
  }

  /** The index of the last occurrence of `c` in `s`, or -1. */
  function LastIndexOf(s: string, c: char): (i: int)
    ensures -1 <= i < |s|
    ensures i >= 0 ==> s[i] == c
    ensures forall k :: i < k < |s| ==> s[k] != c
    decreases |s|
  {
    if s == [] then -1
    else if s[|s| - 1] == c then |s| - 1
    else LastIndexOf(s[..|s| - 1], c)
  }

  /** `Path.suffix` of a file name: from its last dot on, unless that dot
      is the first or the last character. */
  function Suffix(name: string): (r: string)
    ensures r == "" || (|r| >= 2 && r[0] == '.' && '.' !in r[1..])
  {
    var i := LastIndexOf(name, '.');
    if 0 < i < |name| - 1 then name[i..] else ""
  }

  /** `Path.stem`: the file name without its suffix. */
  function Stem(name: string): string {
    var i := LastIndexOf(name, '.');
    if 0 < i < |name| - 1 then name[..i] else name
  }

  /** The stem and the suffix make up the name again. */
  lemma StemSuffix(name: string)
    ensures Stem(name) + Suffix(name) == name
  {
  }

  /** `posixpath.join(a, b)` for two strings. */
  function PosixJoin(a: string, b: string): string {
    if IsAbsolute(b) then b
    else if a == "" || a[|a| - 1] == '/' then a + b
    else a + "/" + b
  }

  /** `os.path.splitext(p)[1]`: the text from the last dot of the last
      component, provided some character before that dot in the
      component is not a dot; otherwise `""`. */
  function SplitExt(p: string): (r: string)
    ensures r == "" || (r[0] == '.' && '.' !in r[1..] && '/' !in r)
  {
    var sep := LastIndexOf(p, '/');
    var dot := LastIndexOf(p, '.');
    if dot > sep && exists k :: sep < k < dot && p[k] != '.' then p[dot..] else ""
  }
}
