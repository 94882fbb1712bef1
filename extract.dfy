/** Extract of downloader/extract.go: pick the regular part files of a
    directory in sorted order, read them as one gzip+tar stream and write
    each tar entry below the destination directory.

    gzip and tar decoding are not modelled: the decoded archive is an input,
    given as a function of the list of part files. The operating system's
    file system is a map from cleaned path names to nodes. */
module Extract {
  import opened Common
  import GoStrings
  import Paths

  /** The type bits of an fs.DirEntry as os.ReadDir reports them. */
  datatype FileType = Regular | Directory | Symlink | Irregular

  datatype DirEntry = DirEntry(name: string, fileType: FileType)

  /** filepath.Join(srcDir, name) for the regular entries, in listing order. */
  function RegularPaths(srcDir: string, entries: seq<DirEntry>): seq<string>
  {
    if entries == [] then []
    else
      var last := entries[|entries| - 1];
      RegularPaths(srcDir, entries[..|entries| - 1])
      + (if last.fileType.Regular? then [Paths.Join(srcDir, last.name)] else [])
  }

  /** A path is selected exactly when some regular entry joins to it. */
  lemma {:induction false} RegularPathsMembers(srcDir: string, entries: seq<DirEntry>, p: string)
    ensures p in RegularPaths(srcDir, entries) <==>
      exists i | 0 <= i < |entries| :: entries[i].fileType.Regular? && Paths.Join(srcDir, entries[i].name) == p
  {
    if entries != [] {
      var init := entries[..|entries| - 1];
      RegularPathsMembers(srcDir, init, p);
      if p in RegularPaths(srcDir, init) {
        var i :| 0 <= i < |init| && init[i].fileType.Regular? && Paths.Join(srcDir, init[i].name) == p;
        assert entries[i] == init[i];
      }
      if exists i | 0 <= i < |entries| :: entries[i].fileType.Regular? && Paths.Join(srcDir, entries[i].name) == p {
        var i :| 0 <= i < |entries| && entries[i].fileType.Regular? && Paths.Join(srcDir, entries[i].name) == p;
        if i < |init| {
          assert init[i] == entries[i];
        }
      }
    }
  }

  /** The part-file list (lines 59-65, shared with ExtractWithNativeTar):
      the joined paths of the regular entries, sorted ascending. */
  method SelectPartFiles(srcDir: string, entries: seq<DirEntry>) returns (fileNames: seq<string>)
    ensures GoStrings.Sorted(fileNames)
    ensures multiset(fileNames) == multiset(RegularPaths(srcDir, entries))
    ensures fileNames == GoStrings.SortStrings(RegularPaths(srcDir, entries))
  {
    fileNames := [];
    var i := 0;
    while i < |entries|
      invariant 0 <= i <= |entries|
      invariant fileNames == RegularPaths(srcDir, entries[..i])
    {
      assert entries[..i + 1][..i] == entries[..i];
      if entries[i].fileType.Regular? {
        fileNames := fileNames + [Paths.Join(srcDir, entries[i].name)];
      }
      i := i + 1;
    }
    assert entries[..|entries|] == entries;
    fileNames := GoStrings.SortStrings(fileNames);
  }

  /** The selection is empty exactly when no entry is a regular file. */
  lemma NoPartFiles(srcDir: string, entries: seq<DirEntry>)
    ensures |GoStrings.SortStrings(RegularPaths(srcDir, entries))| == 0 <==>
      forall i | 0 <= i < |entries| :: !entries[i].fileType.Regular?
  {
    var r := RegularPaths(srcDir, entries);
    assert |multiset(GoStrings.SortStrings(r))| == |multiset(r)|;
    if exists i | 0 <= i < |entries| :: entries[i].fileType.Regular? {
      var i :| 0 <= i < |entries| && entries[i].fileType.Regular?;
      RegularPathsMembers(srcDir, entries, Paths.Join(srcDir, entries[i].name));
      assert |r| > 0;
    }
    if |r| > 0 {
      RegularPathsMembers(srcDir, entries, r[0]);
    }
  }

  // ---------------------------------------------------------------------
  // The file system

  /** A directory with its permission bits, or a regular file with its
      contents and permission bits. */
  datatype Node = DirNode(mode: int) | FileNode(data: seq<byte>, mode: int)

  /** The file system: cleaned path names to nodes. The current directory
      "." and the root "/" always exist and are not entries of the map. */
  type Tree = map<string, Node>

  predicate IsRoot(key: string)
  {
    key == "." || key == "/"
  }

  predicate IsDirIn(t: Tree, key: string)
  {
    IsRoot(key) || (key in t && t[key].DirNode?)
  }

  /** Where os.MkdirAll cuts path to find the parent it creates first: the
      separator before the last element, trailing separators skipped; 0
      when there is no parent to create. */
  function ParentCut(path: string): (k: nat)
    ensures k < |path| || k == 0
  {
    var j := TrailingStart(path);
    var k := Paths.LastSlash(path[..j]);
    if k > 0 then k else 0
  }

  /** The length of path without its trailing separators. */
  function TrailingStart(path: string): (j: nat)
    ensures j <= |path|
    ensures forall i | j <= i < |path| :: path[i] == '/'
    ensures j > 0 ==> path[j - 1] != '/'
  {
    if path == [] || path[|path| - 1] != '/' then |path| else TrailingStart(path[..|path| - 1])
  }

  /** os.MkdirAll(path, perm): nothing to do when path is already a
      directory; a "not a directory" error when it is a file; otherwise
      the parent first, then the directory itself (where an existing
      directory, as for "a/.", is success). */
  function MkdirAllIn(t: Tree, path: string, perm: int): (r: (Tree, Option<Error>))
    decreases |path|
  {
    var key := Paths.Clean(path);
    if IsDirIn(t, key) then (t, None)
    else if key in t then (t, Some(Error("mkdir " + path + ": not a directory")))
    else
      var k := ParentCut(path);
      var (t1, e) := if k > 0 then MkdirAllIn(t, path[..k], perm) else (t, None);
      if e.Some? then (t1, e)
      else if IsDirIn(t1, key) then (t1, None)
      else if key in t1 then (t1, Some(Error("mkdir " + path + ": file exists")))
      else (t1[key := DirNode(perm)], None)
  }

  /** MkdirAll never touches an existing node; every node it adds is a
      directory with the requested permission bits. */
  lemma {:induction false} MkdirAllOnlyAdds(t: Tree, path: string, perm: int)
    ensures var (t', _) := MkdirAllIn(t, path, perm);
      && (forall q | q in t :: q in t' && t'[q] == t[q])
      && (forall q | q in t' && q !in t :: t'[q] == DirNode(perm))
    decreases |path|
  {
    var key := Paths.Clean(path);
    if !IsDirIn(t, key) && key !in t {
      var k := ParentCut(path);
      var (t1, e) := if k > 0 then MkdirAllIn(t, path[..k], perm) else (t, None);
      if k > 0 {
        MkdirAllOnlyAdds(t, path[..k], perm);
      }
      assert forall q | q in t :: q in t1 && t1[q] == t[q];
      if e.None? && !IsDirIn(t1, key) && key !in t1 {
        assert MkdirAllIn(t, path, perm).0 == t1[key := DirNode(perm)];
      } else {
        assert MkdirAllIn(t, path, perm).0 == t1;
      }
    }
  }

  /** A regular file of t at the cleaned text of q. */
  predicate FileAt(t: Tree, q: string)
  {
    Paths.Clean(q) in t && t[Paths.Clean(q)].FileNode?
  }

  /** The parent MkdirAll creates first is a proper ancestor of the path,
      and so are that parent's own ancestors. */
  lemma ParentCutAncestors(path: string)
    requires ParentCut(path) > 0
    ensures path[..ParentCut(path)] in Paths.ProperAncestors(path)
    ensures Paths.ProperAncestors(path[..ParentCut(path)]) <= Paths.ProperAncestors(path)
  {
    var k := ParentCut(path);
    var j := TrailingStart(path);
    assert path[..j][k] == '/';
    assert path[k] == '/';
    forall q | q in Paths.ProperAncestors(path[..k]) ensures q in Paths.ProperAncestors(path) {
      var m :| 0 < m < k && path[..k][m] == '/' && q == path[..k][..m];
      assert path[m] == '/' && q == path[..m];
    }
  }

  /** On success the path names a directory; a failure means an existing
      regular file is in the way, at the path itself or at one of the
      ancestors MkdirAll creates first. */
  lemma {:induction false} MkdirAllOutcome(t: Tree, path: string, perm: int)
    ensures var (t', e) := MkdirAllIn(t, path, perm);
      && (e.None? ==> IsDirIn(t', Paths.Clean(path)))
      && (e.Some? ==> FileAt(t, path) || exists q | q in Paths.ProperAncestors(path) :: FileAt(t, q))
    decreases |path|
  {
    var key := Paths.Clean(path);
    if IsDirIn(t, key) {
    } else if key in t {
      assert FileAt(t, path);
    } else {
      var k := ParentCut(path);
      if k > 0 {
        MkdirAllOutcome(t, path[..k], perm);
        MkdirAllOnlyAdds(t, path[..k], perm);
        var (t1, e) := MkdirAllIn(t, path[..k], perm);
        assert MkdirAllIn(t, path, perm) ==
          if e.Some? then (t1, e)
          else if IsDirIn(t1, key) then (t1, None)
          else if key in t1 then (t1, Some(Error("mkdir " + path + ": file exists")))
          else (t1[key := DirNode(perm)], None);
        if e.Some? {
          ParentCutAncestors(path);
          if FileAt(t, path[..k]) {
            assert path[..k] in Paths.ProperAncestors(path);
          } else {
            var q :| q in Paths.ProperAncestors(path[..k]) && FileAt(t, q);
            assert q in Paths.ProperAncestors(path);
          }
        } else if key in t1 {
          assert t1[key] == DirNode(perm);
        }
      }
    }
  }

  /** MkdirAll is idempotent: once it has succeeded, a second call changes
      nothing and succeeds again. */
  lemma MkdirAllIdempotent(t: Tree, path: string, perm: int, perm': int)
    requires MkdirAllIn(t, path, perm).1.None?
    ensures var t' := MkdirAllIn(t, path, perm).0; MkdirAllIn(t', path, perm') == (t', None)
  {
    MkdirAllOutcome(t, path, perm);
  }

  /** os.OpenFile(path, O_CREATE|O_WRONLY|O_TRUNC, mode) followed by
      io.Copy of an entry's body: a directory in the way is an error; an
      existing file is emptied and keeps its permission bits (the mode of
      OpenFile applies only on creation); the copied bytes become the
      contents, even those copied before a read error. */
  function WriteFileIn(t: Tree, path: string, mode: int, body: seq<byte>, bodyErr: Option<Error>): (r: (Tree, Option<Error>))
    ensures var key := Paths.Clean(path);
      && (IsDirIn(t, key) ==> r == (t, Some(Error("open " + path + ": is a directory"))))
      && (!IsDirIn(t, key) ==>
            && r.0 == t[key := FileNode(body, if key in t then t[key].mode else mode)]
            && r.1 == bodyErr)
  {
    var key := Paths.Clean(path);
    if IsDirIn(t, key) then (t, Some(Error("open " + path + ": is a directory")))
    else
      var perm := if key in t then t[key].mode else mode;
      var truncated := t[key := FileNode([], perm)];
      (truncated[key := FileNode(body, perm)], bodyErr)
  }

  /** The file system as a mutable object. */
  class FileSystem {
    var tree: Tree

    constructor (tree: Tree)
      ensures this.tree == tree
    {
      this.tree := tree;
    }

    method MkdirAll(path: string, perm: int) returns (err: Option<Error>)
      modifies this
      ensures (tree, err) == MkdirAllIn(old(tree), path, perm)
    {
      var (t, e) := MkdirAllIn(tree, path, perm);
      tree, err := t, e;
    }

    method WriteFile(path: string, mode: int, body: seq<byte>, bodyErr: Option<Error>) returns (err: Option<Error>)
      modifies this
      ensures (tree, err) == WriteFileIn(old(tree), path, mode, body, bodyErr)
    {
      var (t, e) := WriteFileIn(tree, path, mode, body, bodyErr);
      tree, err := t, e;
    }
  }

  // ---------------------------------------------------------------------
  // Tar entries

  datatype TypeFlag = TypeDir | TypeReg | TypeOther

  datatype TarHeader = TarHeader(name: string, typeflag: TypeFlag, mode: int)

  /** One entry as tarReader.Next and io.Copy see it: the header, the body
      bytes io.Copy manages to copy and the read error that stopped it. */
  datatype TarEntry = TarEntry(header: TarHeader, body: seq<byte>, bodyErr: Option<Error>)

  /** The decoded archive: gzip.NewReader's error, or the entries followed
      by the error (other than io.EOF) of the Next call after the last one. */
  datatype Archive = Archive(gzipErr: Option<Error>, entries: seq<TarEntry>, nextErr: Option<Error>)

  /** The file system after some entries, the "x <path>" lines printed and
      the error that made Extract panic, if any. */
  datatype Applied = Applied(tree: Tree, log: seq<string>, panic: Option<Error>)

  /** The permission bits of parent directories for regular entries. */
  const PARENT_PERM: int := 0x1ED // 0755

  /** One iteration of the entry loop (lines 87-109). */
  function ApplyEntry(t: Tree, dstDir: string, e: TarEntry): Applied
  {
    var target := Paths.Join(dstDir, e.header.name);
    match e.header.typeflag
    case TypeDir => ApplyDir(t, target, e.header.mode)
    case TypeReg => ApplyReg(t, target, e)
    case TypeOther => Applied(t, [], None)
  }

  /** tar.TypeDir: os.MkdirAll(target, mode). */
  function ApplyDir(t: Tree, target: string, mode: int): Applied
  {
    var (t1, err) := MkdirAllIn(t, target, mode);
    Applied(t1, [], err)
  }

  /** tar.TypeReg: the parent directory, then the file, then the log line. */
  function ApplyReg(t: Tree, target: string, e: TarEntry): Applied
  {
    var (t1, err) := MkdirAllIn(t, Paths.Dir(target), PARENT_PERM);
    if err.Some? then Applied(t1, [], err)
    else
      var (t2, err2) := WriteFileIn(t1, target, e.header.mode, e.body, e.bodyErr);
      if err2.Some? then Applied(t2, [], err2)
      else Applied(t2, ["x " + target], None)
  }

  /** The entry loop over any per-entry step, stopping at the first panic. */
  function RunEntries(step: (Tree, TarEntry) -> Applied, t: Tree, es: seq<TarEntry>): Applied
    decreases |es|
  {
    if es == [] then Applied(t, [], None)
    else
      var first := step(t, es[0]);
      if first.panic.Some? then first
      else
        var rest := RunEntries(step, first.tree, es[1..]);
        Applied(rest.tree, first.log + rest.log, rest.panic)
  }

  /** The step of Extract's loop for a destination directory. */
  function EntryStep(dstDir: string): (Tree, TarEntry) -> Applied
  {
    (t: Tree, e: TarEntry) => ApplyEntry(t, dstDir, e)
  }

  /** Extract's entry loop. */
  function ApplyEntries(t: Tree, dstDir: string, es: seq<TarEntry>): Applied
  {
    RunEntries(EntryStep(dstDir), t, es)
  }

  /** Entries that are neither directories nor regular files are skipped:
      removing them changes nothing. */
  function WithoutOthers(es: seq<TarEntry>): seq<TarEntry>
  {
    if es == [] then []
    else (if es[0].header.typeflag.TypeOther? then [] else [es[0]]) + WithoutOthers(es[1..])
  }

  /** A step that leaves the tree alone on other entries ignores them. */
  lemma {:induction false} RunSkipsOthers(step: (Tree, TarEntry) -> Applied, t: Tree, es: seq<TarEntry>)
    requires forall u: Tree, e: TarEntry | e.header.typeflag.TypeOther? :: step(u, e) == Applied(u, [], None)
    ensures RunEntries(step, t, WithoutOthers(es)) == RunEntries(step, t, es)
    decreases |es|
  {
    if es != [] {
      if es[0].header.typeflag.TypeOther? {
        RunSkipsOthers(step, t, es[1..]);
        assert WithoutOthers(es) == WithoutOthers(es[1..]);
        var rest := RunEntries(step, t, es[1..]);
        assert [] + rest.log == rest.log;
      } else {
        var w := [es[0]] + WithoutOthers(es[1..]);
        assert WithoutOthers(es) == w;
        assert w[0] == es[0] && w[1..] == WithoutOthers(es[1..]);
        var first := step(t, es[0]);
        if first.panic.None? {
          RunSkipsOthers(step, first.tree, es[1..]);
        }
      }
    }
  }

  /** Symlinks and other entry types are skipped (the switch has no case
      for them). */
  lemma OtherEntriesSkipped(t: Tree, dstDir: string, es: seq<TarEntry>)
    ensures ApplyEntries(t, dstDir, WithoutOthers(es)) == ApplyEntries(t, dstDir, es)
  {
    RunSkipsOthers(EntryStep(dstDir), t, es);
  }

  /** Running a list in two pieces is running it whole: a, then, unless a
      panicked, b on the tree a left, with the printed lines end to end. */
  lemma {:induction false} RunAppend(step: (Tree, TarEntry) -> Applied, t: Tree, a: seq<TarEntry>, b: seq<TarEntry>)
    ensures var ra := RunEntries(step, t, a);
      RunEntries(step, t, a + b) ==
        if ra.panic.Some? then ra
        else
          var rb := RunEntries(step, ra.tree, b);
          Applied(rb.tree, ra.log + rb.log, rb.panic)
    decreases |a|
  {
    if a == [] {
      assert a + b == b;
      assert [] + RunEntries(step, t, b).log == RunEntries(step, t, b).log;
    } else {
      assert (a + b)[0] == a[0] && (a + b)[1..] == a[1..] + b;
      var first := step(t, a[0]);
      if first.panic.None? {
        RunAppend(step, first.tree, a[1..], b);
        var ra1 := RunEntries(step, first.tree, a[1..]);
        if ra1.panic.None? {
          var rb := RunEntries(step, ra1.tree, b);
          assert first.log + (ra1.log + rb.log) == (first.log + ra1.log) + rb.log;
        }
      }
    }
  }

  /** The cleaned path a regular entry writes. */
  function RegTarget(dstDir: string, e: TarEntry): Option<string>
  {
    if e.header.typeflag.TypeReg? then Some(Paths.Clean(Paths.Join(dstDir, e.header.name))) else None
  }

  /** One entry keeps every node it does not write as a regular file:
      directory entries and parent creation only add nodes. */
  lemma ApplyEntryKeeps(t: Tree, dstDir: string, e: TarEntry, k: string)
    requires k in t && RegTarget(dstDir, e) != Some(k)
    ensures var r := ApplyEntry(t, dstDir, e); k in r.tree && r.tree[k] == t[k]
  {
    var target := Paths.Join(dstDir, e.header.name);
    match e.header.typeflag {
      case TypeDir =>
        MkdirAllOnlyAdds(t, target, e.header.mode);
      case TypeReg =>
        MkdirAllOnlyAdds(t, Paths.Dir(target), PARENT_PERM);
      case TypeOther =>
    }
  }

  /** A node every step keeps survives the whole loop. */
  lemma {:induction false} RunKeeps(step: (Tree, TarEntry) -> Applied, t: Tree, es: seq<TarEntry>,
                                    k: string, keeps: TarEntry -> bool)
    requires k in t
    requires forall i | 0 <= i < |es| :: keeps(es[i])
    requires forall u: Tree, e: TarEntry | k in u && keeps(e) :: k in step(u, e).tree && step(u, e).tree[k] == u[k]
    ensures var r := RunEntries(step, t, es); k in r.tree && r.tree[k] == t[k]
    decreases |es|
  {
    if es != [] {
      var first := step(t, es[0]);
      if first.panic.None? {
        assert forall i | 0 <= i < |es[1..]| :: keeps(es[1..][i]) by {
          forall i | 0 <= i < |es[1..]| ensures keeps(es[1..][i]) {
            assert es[1..][i] == es[i + 1];
          }
        }
        RunKeeps(step, first.tree, es[1..], k, keeps);
      }
    }
  }

  /** A node no regular entry writes to keeps its value. */
  lemma UntouchedNodeKept(t: Tree, dstDir: string, es: seq<TarEntry>, k: string)
    requires k in t
    requires forall i | 0 <= i < |es| :: RegTarget(dstDir, es[i]) != Some(k)
    ensures var r := ApplyEntries(t, dstDir, es); k in r.tree && r.tree[k] == t[k]
  {
    var keeps := (e: TarEntry) => RegTarget(dstDir, e) != Some(k);
    forall u: Tree, e: TarEntry | k in u && keeps(e)
      ensures k in EntryStep(dstDir)(u, e).tree && EntryStep(dstDir)(u, e).tree[k] == u[k]
    {
      ApplyEntryKeeps(u, dstDir, e, k);
    }
    RunKeeps(EntryStep(dstDir), t, es, k, keeps);
  }

  /** O_TRUNC: of several regular entries for the same path, the last one
      written decides the contents; when the file already existed, it
      keeps the permission bits it had. */
  lemma LastRegularEntryWins(t: Tree, dstDir: string, pre: seq<TarEntry>, e: TarEntry, post: seq<TarEntry>)
    requires e.header.typeflag.TypeReg?
    requires ApplyEntries(t, dstDir, pre + [e] + post).panic.None?
    requires forall i | 0 <= i < |post| :: RegTarget(dstDir, post[i]) != RegTarget(dstDir, e)
    ensures var k := RegTarget(dstDir, e).value;
      var before := ApplyEntries(t, dstDir, pre).tree;
      var r := ApplyEntries(t, dstDir, pre + [e] + post).tree;
      && k in r && r[k].FileNode? && r[k].data == e.body
      && (k in before && before[k].FileNode? ==> r[k].mode == before[k].mode)
  {
    var k := RegTarget(dstDir, e).value;
    var target := Paths.Join(dstDir, e.header.name);
    RunAppend(EntryStep(dstDir), t, pre, [e] + post);
    assert pre + [e] + post == pre + ([e] + post);
    var ra := ApplyEntries(t, dstDir, pre);
    var t0 := ra.tree;
    assert ([e] + post)[0] == e && ([e] + post)[1..] == post;
    var (t1, err1) := MkdirAllIn(t0, Paths.Dir(target), PARENT_PERM);
    MkdirAllOnlyAdds(t0, Paths.Dir(target), PARENT_PERM);
    var (t2, err2) := WriteFileIn(t1, target, e.header.mode, e.body, e.bodyErr);
    assert ApplyEntry(t0, dstDir, e) == Applied(t2, ["x " + target], None);
    assert k in t2 && t2[k] == FileNode(e.body, if k in t1 then t1[k].mode else e.header.mode);
    UntouchedNodeKept(t2, dstDir, post, k);
  }

  /** A directory entry that does not panic leaves a directory at its path. */
  lemma DirectoryEntryMakesDirectory(t: Tree, dstDir: string, e: TarEntry)
    requires e.header.typeflag.TypeDir?
    requires ApplyEntry(t, dstDir, e).panic.None?
    ensures IsDirIn(ApplyEntry(t, dstDir, e).tree, Paths.Clean(Paths.Join(dstDir, e.header.name)))
  {
    MkdirAllOutcome(t, Paths.Join(dstDir, e.header.name), e.header.mode);
  }

  /** How Extract ends: it returns, or it panics with an error. */
  datatype Outcome = Returned | Panicked(reason: Error)

  /** Extract(srcDir, dstDir). listing is what os.ReadDir(srcDir) gives;
      archiveOf(files) is the archive the concatenation of files decodes
      to. The result names how it ended and the lines it printed. */
  method Extract(fs: FileSystem, srcDir: string, dstDir: string,
                 listing: Result<seq<DirEntry>>, archiveOf: seq<string> -> Archive)
    returns (outcome: Outcome, log: seq<string>)
    modifies fs
    ensures listing.Failure? ==> outcome == Panicked(listing.error) && log == [] && fs.tree == old(fs.tree)
    ensures listing.Success? && RegularPaths(srcDir, listing.value) == [] ==>
      outcome == Panicked(Error("no files to extract")) && log == [] && fs.tree == old(fs.tree)
    ensures listing.Success? && RegularPaths(srcDir, listing.value) != [] ==>
      var archive := archiveOf(GoStrings.SortStrings(RegularPaths(srcDir, listing.value)));
      if archive.gzipErr.Some? then
        outcome == Panicked(archive.gzipErr.value) && log == [] && fs.tree == old(fs.tree)
      else
        var r := ApplyEntries(old(fs.tree), dstDir, archive.entries);
        && fs.tree == r.tree && log == r.log
        && outcome == (if r.panic.Some? then Panicked(r.panic.value)
                       else if archive.nextErr.Some? then Panicked(archive.nextErr.value)
                       else Returned)
  {
    log := [];
    if listing.Failure? {
      return Panicked(listing.error), log;
    }
    var fileNames := SelectPartFiles(srcDir, listing.value);
    if |fileNames| == 0 {
      return Panicked(Error("no files to extract")), log;
    }
    var archive := archiveOf(fileNames);
    if archive.gzipErr.Some? {
      return Panicked(archive.gzipErr.value), log;
    }
    var panic;
    panic, log := ApplyAll(fs, dstDir, archive.entries);
    if panic.Some? {
      return Panicked(panic.value), log;
    }
    if archive.nextErr.Some? {
      return Panicked(archive.nextErr.value), log;
    }
    return Returned, log;
  }

  /** The entry loop of Extract (lines 78-110) over the decoded entries. */
  method ApplyAll(fs: FileSystem, dstDir: string, entries: seq<TarEntry>)
    returns (panic: Option<Error>, log: seq<string>)
    modifies fs
    ensures Applied(fs.tree, log, panic) == ApplyEntries(old(fs.tree), dstDir, entries)
  {
    log := [];
    var i := 0;
    while i < |entries|
      invariant 0 <= i <= |entries|
      invariant var r := ApplyEntries(fs.tree, dstDir, entries[i..]);
        ApplyEntries(old(fs.tree), dstDir, entries) == Applied(r.tree, log + r.log, r.panic)
    {
      assert entries[i..][0] == entries[i] && entries[i..][1..] == entries[i + 1..];
      ghost var before := fs.tree;
      var err, lines := ApplyOne(fs, dstDir, entries[i]);
      if err.Some? {
        assert ApplyEntries(before, dstDir, entries[i..]) == Applied(fs.tree, [], err);
        assert log + [] == log;
        return err, log;
      }
      ghost var rest := ApplyEntries(fs.tree, dstDir, entries[i + 1..]);
      assert ApplyEntries(before, dstDir, entries[i..]) == Applied(rest.tree, lines + rest.log, rest.panic);
      assert log + (lines + rest.log) == (log + lines) + rest.log;
      log := log + lines;
      i := i + 1;
    }
    assert entries[i..] == [];
    assert log + [] == log;
    return None, log;
  }

  /** One pass of the entry loop: the directory, or the parent directory
      and the file, and the printed line. */
  method ApplyOne(fs: FileSystem, dstDir: string, e: TarEntry)
    returns (err: Option<Error>, lines: seq<string>)
    modifies fs
    ensures Applied(fs.tree, lines, err) == ApplyEntry(old(fs.tree), dstDir, e)
    ensures err.Some? ==> lines == []
  {
    lines := [];
    var target := Paths.Join(dstDir, e.header.name);
    match e.header.typeflag {
      case TypeDir =>
        err := fs.MkdirAll(target, e.header.mode);
      case TypeReg =>
        err := fs.MkdirAll(Paths.Dir(target), PARENT_PERM);
        if err.Some? {
          return;
        }
        err := fs.WriteFile(target, e.header.mode, e.body, e.bodyErr);
        if err.None? {
          lines := ["x " + target];
        }
      case TypeOther =>
        err := None;
    }
  }
}
