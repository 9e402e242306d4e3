/** The file system the ingestion code changes, reduced to what it does
    with it: regular files at absolute paths, with directories implied by
    the files below them. The operations follow `os.remove`,
    `shutil.move`, `shutil.rmtree(..., ignore_errors=True)` and
    `Path.mkdir(parents=True, exist_ok=True)`. */
module Disk {
  import opened Wrappers
  import opened Paths

  /** What a file holds: text that decodes as UTF-8, or anything else
      (archive bytes, images). */
  datatype Blob = Utf8(text: string) | Binary

  type Files = map<Path, Blob>

  /** A directory exists exactly when some file lies below it. */
  predicate IsDir(fs: Files, d: Path) {
    exists p :: p in fs && Below(p, d)
  }

  predicate Exists(fs: Files, p: Path) {
    p in fs || IsDir(fs, p)
  }

  function Prefix(p: Path, k: nat): Path
    requires k <= |p|
  {
    p[..k]
  }

  /** `mkdir(parents=True, exist_ok=True)` on `p` raises: `p` or one of
      its ancestors is a regular file. */
  predicate Blocked(fs: Files, p: Path) {
    exists k :: 0 < k <= |p| && Prefix(p, k) in fs
  }

  /** The text of a file opened for reading as UTF-8; `None` when the file
      is missing or does not decode. */
  function ReadText(fs: Files, p: Path): (r: Option<string>)
    ensures r.Some? <==> p in fs && fs[p].Utf8?
  {
    if p in fs && fs[p].Utf8? then Some(fs[p].text) else None
  }

  /** `shutil.rmtree(d, ignore_errors=True)`: every file below `d` goes,
      nothing else changes. */
  function WithoutTree(fs: Files, d: Path): (r: Files)
    ensures forall p :: p in r <==> p in fs && !Below(p, d)
    ensures forall p :: p in r ==> r[p] == fs[p]
  {
    map p | p in fs && !Below(p, d) :: fs[p]
  }

  /** `os.remove(p)`: `None` when there is no regular file at `p`. */
  function WithoutFile(fs: Files, p: Path): (r: Option<Files>)
    ensures r.Some? <==> p in fs
    ensures r.Some? ==> r.value == fs - {p}
  {
    if p in fs then Some(fs - {p}) else None
  }

  /** Writes `entries` (paths relative to `root`) below `root`, replacing
      files of the same name. */
  function Placed(fs: Files, root: Path, entries: map<Path, Blob>): (r: Files)
    ensures forall e :: e in entries ==> root + e in r && r[root + e] == entries[e]
    ensures forall p :: p in fs && !(root <= p) ==> p in r && r[p] == fs[p]
    ensures forall p :: p in r ==> p in fs || root <= p
  {
    var written := set e | e in entries :: root + e;
    assert forall q :: q in written ==> root <= q && q[|root|..] in entries by {
      forall q | q in written ensures root <= q && q[|root|..] in entries {
        var e :| e in entries && q == root + e;
        assert q[|root|..] == e;
      }
    }
    var r := map q | q in fs.Keys + written ::
      if root <= q && q[|root|..] in entries then entries[q[|root|..]] else fs[q];
    assert forall e :: e in entries ==> root + e in r && r[root + e] == entries[e] by {
      forall e | e in entries ensures root + e in r && r[root + e] == entries[e] {
        assert (root + e)[|root|..] == e;
      }
    }
    r
  }

  /** The files of the tree `src` renamed to lie below `dst` instead; a file
      already below `dst` gives way to a moved one of the same name. */
  function Relocate(fs: Files, src: Path, dst: Path): (r: Files)
    ensures forall p :: p in fs && Below(p, src) ==> dst + p[|src|..] in r && r[dst + p[|src|..]] == fs[p]
    ensures forall p :: p in fs && !Below(p, src) && !Below(p, dst) ==> p in r && r[p] == fs[p]
    ensures forall p :: p in r ==> (p in fs && !Below(p, src)) || Below(p, dst)
  {
    var kept := set p | p in fs && !Below(p, src);
    var moved := set p | p in fs && Below(p, src) :: dst + p[|src|..];
    assert forall q :: q in moved ==> Below(q, dst) && src + q[|dst|..] in fs by {
      forall q | q in moved ensures Below(q, dst) && src + q[|dst|..] in fs {
        var p :| p in fs && Below(p, src) && q == dst + p[|src|..];
        assert q[|dst|..] == p[|src|..];
        assert p == src + p[|src|..];
      }
    }
    var r := map q | q in kept + moved ::
      if Below(q, dst) && src + q[|dst|..] in fs then fs[src + q[|dst|..]] else fs[q];
    assert forall p :: p in fs && Below(p, src) ==> dst + p[|src|..] in r && r[dst + p[|src|..]] == fs[p] by {
      forall p | p in fs && Below(p, src)
        ensures dst + p[|src|..] in r && r[dst + p[|src|..]] == fs[p]
      {
        assert (dst + p[|src|..])[|dst|..] == p[|src|..];
        assert p == src + p[|src|..];
      }
    }
    r
  }

  /** `shutil.move(src, dst)` for the two cases the ingestion code meets.
      When `dst` is a directory the source goes into it under its own
      name. A file replaces a file of the same name; a directory is
      renamed and never merged. `None` is the exception the call raises:
      nothing at `src`, a destination that is taken, or a directory moved
      into itself. */
  function Moved(fs: Files, src: Path, dst: Path): (r: Option<Files>)
    ensures r.Some? ==> Exists(fs, src)
  {
    if !Exists(fs, src) then None
    else if src == dst then Some(fs)
    else
      var target := if IsDir(fs, dst) then dst + [Name(src)] else dst;
      if src in fs then
        if (IsDir(fs, dst) && Exists(fs, target)) || IsDir(fs, target) then None
        else if target == src then Some(fs)
        else Some((fs - {src})[target := fs[src]])
      else
        if Exists(fs, target) || Within(target, src) then None
        else Some(Relocate(fs, src, target))
  }

  /** Where `Move` puts the source. */
  function MoveTarget(fs: Files, src: Path, dst: Path): Path {
    if IsDir(fs, dst) then dst + [Name(src)] else dst
  }

  /** A path below `target` is not below `src` when neither path lies
      within the other and `target` is not an existing directory that
      holds `w`. */
  lemma NotBelowBoth(fs: Files, src: Path, target: Path, p: Path, w: Path)
    requires Below(p, target) && !Within(target, src) && !IsDir(fs, target)
    requires w in fs && Below(w, src)
    ensures !Below(p, src)
  {
    if |src| <= |target| {
      assert p[..|src|] == target[..|src|];
    } else {
      assert w[..|target|] == src[..|target|];
      assert !Below(w, target);
      assert p[..|target|] == target;
    }
  }

  /** A directory that is moved is emptied: after a successful move of a
      directory no file is left below its old path. */
  lemma MovedEmptiesSource(fs: Files, src: Path, dst: Path)
    requires src !in fs && src != dst
    requires Moved(fs, src, dst).Some?
    ensures forall p :: p in Moved(fs, src, dst).value ==> !Below(p, src)
  {
    var target := MoveTarget(fs, src, dst);
    var r := Moved(fs, src, dst).value;
    assert r == Relocate(fs, src, target);
    var w :| w in fs && Below(w, src);
    forall p | p in r ensures !Below(p, src) {
      if !(p in fs && !Below(p, src)) {
        NotBelowBoth(fs, src, target, p, w);
      }
    }
  }

  /** The file system as a mutable object, one method per call the
      ingestion code makes on it. */
  class FileSystem {
    var files: Files

    constructor (initial: Files)
      ensures files == initial
    {
      files := initial;
    }

    /** `Path.mkdir(parents=True, exist_ok=True)`; directories are implied
        by files, so success leaves the files as they are. */
    method MakeDirs(d: Path) returns (ok: bool)
      ensures ok == !Blocked(files, d)
    {
      ok := !Blocked(files, d);
    }

    /** `os.remove(p)`. */
    method RemoveFile(p: Path) returns (ok: bool)
      modifies this
      ensures ok == (p in old(files))
      ensures files == if ok then old(files) - {p} else old(files)
    {
      ok := p in files;
      if ok {
        files := files - {p};
      }
    }

    /** `shutil.rmtree(d, ignore_errors=True)`. */
    method RemoveTree(d: Path)
      modifies this
      ensures files == WithoutTree(old(files), d)
    {
      files := WithoutTree(files, d);
    }

    /** `shutil.move(src, dst)`; `refused` stands for an error the model
        does not derive from the files (permissions, a full disk). A
        refused move is taken to change nothing, even where a copy across
        file systems would leave part of it behind. */
    method Move(src: Path, dst: Path, refused: bool) returns (ok: bool)
      modifies this
      ensures ok == (!refused && Moved(old(files), src, dst).Some?)
      ensures files == if ok then Moved(old(files), src, dst).value else old(files)
    {
      var r := Moved(files, src, dst);
      ok := !refused && r.Some?;
      if ok {
        files := r.value;
      }
    }

    /** Writes a file, replacing what was there. */
    method Write(p: Path, b: Blob)
      modifies this
      ensures files == old(files)[p := b]
    {
      files := files[p := b];
    }

    /** Writes archive entries below `root`. */
    method Place(root: Path, entries: map<Path, Blob>)
      modifies this
      ensures files == Placed(old(files), root, entries)
    {
      files := Placed(files, root, entries);
    }
  }
}
