/** ExtractWithNativeTar of downloader/extractNative.go: the part files of
    shard-<id> are streamed, in sorted order, into the standard input of an
    external `tar xzvf - -C dstDir`, and every line tar prints is turned
    into a progress event carrying the running number of bytes written.

    The external process is not modelled: whether its pipes and start
    succeed, the lines it prints on each output stream and its exit status
    are inputs. The three goroutines send on one channel; here each keeps
    its own event sequence, in the order it sends them. */
module ExtractNative {
  import opened Common
  import GoStrings
  import Paths
  import Extract

  /** The progress record of this file. */
  datatype XUpdMsg = XUpdMsg(shard: int, idx: int, total: int, file: string,
                             totalBytes: int64, error: Option<Error>, quit: bool)

  /** A failure that ends the extraction of a shard. */
  function ErrorQuit(shard: int, e: Error): XUpdMsg
  {
    XUpdMsg(shard, 0, 0, "", 0, Some(e), true)
  }

  /** A failure of one goroutine; the others go on. */
  function ErrorOnly(shard: int, e: Error): XUpdMsg
  {
    XUpdMsg(shard, 0, 0, "", 0, Some(e), false)
  }

  /** Input file idx (counting from 1) of total has been fed to tar. */
  function Tick(shard: int, idx: int, total: int): XUpdMsg
  {
    XUpdMsg(shard, idx, total, "", 0, None, false)
  }

  /** tar reported file; totalBytes have been written so far. */
  function Written(shard: int, file: string, totalBytes: int64): XUpdMsg
  {
    XUpdMsg(shard, 0, 0, file, totalBytes, None, false)
  }

  /** The directory of a shard's part files: filepath.Join(root,
      fmt.Sprintf("shard-%d", id)). */
  function ShardDir(rootSrcDir: string, shard: int): string
  {
    Paths.Join(rootSrcDir, "shard-" + GoStrings.FormatInt(shard))
  }

  // ---------------------------------------------------------------------
  // Feeding tar's standard input (lines 101-132)

  /** What opening and copying an input file gives: os.Open's error, else
      io.CopyBuffer's error. */
  function FeedError(path: string, openErr: string -> Option<Error>, copyErr: string -> Option<Error>): Option<Error>
  {
    if openErr(path).Some? then openErr(path) else copyErr(path)
  }

  /** The index of the first input file that fails, or |names|. */
  function FirstFailure(names: seq<string>, openErr: string -> Option<Error>, copyErr: string -> Option<Error>): (k: nat)
    ensures k <= |names|
    ensures forall j | 0 <= j < k :: FeedError(names[j], openErr, copyErr).None?
    ensures k < |names| ==> FeedError(names[k], openErr, copyErr).Some?
  {
    if names == [] then 0
    else if FeedError(names[0], openErr, copyErr).Some? then 0
    else 1 + FirstFailure(names[1..], openErr, copyErr)
  }

  /** The events of the input goroutine: one tick per file fed, then the
      error of the first file that fails, if any. */
  function InputEvents(shard: int, names: seq<string>,
                       openErr: string -> Option<Error>, copyErr: string -> Option<Error>): (evs: seq<XUpdMsg>)
    ensures var k := FirstFailure(names, openErr, copyErr);
      && |evs| == (if k < |names| then k + 1 else k)
      && (forall j | 0 <= j < k :: evs[j] == Tick(shard, j + 1, |names|))
      && (k < |names| ==> evs[k] == ErrorOnly(shard, FeedError(names[k], openErr, copyErr).value))
  {
    var k := FirstFailure(names, openErr, copyErr);
    var ticks := seq(k, j => Tick(shard, j + 1, |names|));
    if k < |names| then ticks + [ErrorOnly(shard, FeedError(names[k], openErr, copyErr).value)] else ticks
  }

  /** The input goroutine: each file is opened and copied into tar's
      standard input; success is a tick, a failure is reported and ends
      the goroutine. */
  method StreamInputs(shard: int, names: seq<string>,
                      openErr: string -> Option<Error>, copyErr: string -> Option<Error>)
    returns (events: seq<XUpdMsg>)
    ensures events == InputEvents(shard, names, openErr, copyErr)
  {
    events := [];
    var i := 0;
    while i < |names|
      invariant 0 <= i <= |names| && i <= FirstFailure(names, openErr, copyErr)
      invariant |events| == i
      invariant forall j | 0 <= j < i :: events[j] == Tick(shard, j + 1, |names|)
    {
      var err := openErr(names[i]);
      if err.Some? {
        events := events + [ErrorOnly(shard, err.value)];
        return;
      }
      err := copyErr(names[i]);
      if err.Some? {
        events := events + [ErrorOnly(shard, err.value)];
        return;
      }
      events := events + [Tick(shard, i + 1, |names|)];
      i := i + 1;
    }
  }

  /** Ticks count the files fed so far: strictly increasing from 1, all
      out of the same total. */
  lemma TicksCountUp(shard: int, names: seq<string>,
                     openErr: string -> Option<Error>, copyErr: string -> Option<Error>)
    ensures var evs := InputEvents(shard, names, openErr, copyErr);
      forall i, j | 0 <= i < j < |evs| && evs[j].error.None? ::
        evs[i].error.None? && evs[i].idx == i + 1 && evs[i].idx < evs[j].idx && evs[j].total == |names|
  {
  }

  /** When every file is fed, there is one tick per file and no error; the
      last tick reports the whole list. */
  lemma AllFedGivesAllTicks(shard: int, names: seq<string>,
                            openErr: string -> Option<Error>, copyErr: string -> Option<Error>)
    requires forall j | 0 <= j < |names| :: FeedError(names[j], openErr, copyErr).None?
    ensures var evs := InputEvents(shard, names, openErr, copyErr);
      && |evs| == |names|
      && (forall j | 0 <= j < |evs| :: evs[j].error.None? && !evs[j].quit)
      && (names != [] ==> evs[|evs| - 1].idx == |names|)
  {
    var k := FirstFailure(names, openErr, copyErr);
  }

  /** A failing file stops the stream: exactly one error, without Quit, as
      the last event, and no tick for that file or any later one. */
  lemma FailureStopsStream(shard: int, names: seq<string>,
                           openErr: string -> Option<Error>, copyErr: string -> Option<Error>, k: nat)
    requires k < |names| && FeedError(names[k], openErr, copyErr).Some?
    ensures var evs := InputEvents(shard, names, openErr, copyErr);
      && 0 < |evs| <= k + 1
      && evs[|evs| - 1].error.Some? && !evs[|evs| - 1].quit
      && (forall j | 0 <= j < |evs| - 1 :: evs[j].error.None? && evs[j].idx <= k)
  {
    var f := FirstFailure(names, openErr, copyErr);
  }

  // ---------------------------------------------------------------------
  // Watching tar's output (trackTarOutput, lines 146-186)

  /** The file name in one line tar prints: BSD tar writes "x name", GNU
      tar the bare name. */
  function ParseTarLine(line: string): string
  {
    GoStrings.TrimPrefix(GoStrings.TrimSpace(line), "x ")
  }

  /** A name in BSD tar's "x name" form comes back unchanged, whatever
      white space surrounds the line. */
  lemma ParseVerboseLine(name: string, lead: string, trail: string)
    requires name != [] && !GoStrings.IsSpace(name[|name| - 1])
    requires GoStrings.AllSpace(lead) && GoStrings.AllSpace(trail)
    ensures ParseTarLine(lead + "x " + name + trail) == name
  {
    var core := "x " + name;
    assert lead + "x " + name + trail == lead + core + trail;
    GoStrings.TrimSpaceAround(lead, core, trail);
    assert "x " <= core;
    assert core[2..] == name;
  }

  /** A GNU tar line that does not start with "x " is the name itself. */
  lemma ParseBareLine(name: string, lead: string, trail: string)
    requires name != [] && !GoStrings.IsSpace(name[0]) && !GoStrings.IsSpace(name[|name| - 1])
    requires !("x " <= name)
    requires GoStrings.AllSpace(lead) && GoStrings.AllSpace(trail)
    ensures ParseTarLine(lead + name + trail) == name
  {
    GoStrings.TrimSpaceAround(lead, name, trail);
  }

  /** "x " alone trims to "x", which no longer carries the prefix: the
      name is "x". */
  lemma ParseLoneMarker()
    ensures ParseTarLine("x ") == "x"
  {
    assert GoStrings.AllSpace(" ");
    assert "x " == "" + "x" + " ";
    GoStrings.TrimSpaceAround("", "x", " ");
  }

  /** What os.Lstat reports about a path: whether it is a regular file,
      and its size. */
  type FileSize = s: int | 0 <= s <= INT64_MAX

  datatype FileInfo = FileInfo(regular: bool, size: FileSize)

  /** One output stream of tar as bufio.Scanner reads it: the lines, the
      scanner's final error, and what os.Lstat reports for a path when
      the line at a given index arrives. */
  datatype TarStream = TarStream(lines: seq<string>, scanErr: Option<Error>,
                                 lstat: (nat, string) -> Option<FileInfo>)

  /** The full path of the file named on line i. */
  function PathAt(dstDir: string, s: TarStream, i: nat): string
    requires i < |s.lines|
  {
    Paths.Join(dstDir, ParseTarLine(s.lines[i]))
  }

  /** The bytes line i adds: the size of a regular file, 0 for a missing
      path or any other kind of file. */
  function SizeAt(dstDir: string, s: TarStream, i: nat): FileSize
    requires i < |s.lines|
  {
    var info := s.lstat(i, PathAt(dstDir, s, i));
    if info.Some? && info.value.regular then info.value.size else 0
  }

  /** The bytes each line adds, in line order. */
  function Sizes(dstDir: string, s: TarStream): seq<FileSize>
  {
    SizesUpTo(dstDir, s, |s.lines|)
  }

  function SizesUpTo(dstDir: string, s: TarStream, n: nat): (sizes: seq<FileSize>)
    requires n <= |s.lines|
    ensures |sizes| == n
  {
    if n == 0 then [] else SizesUpTo(dstDir, s, n - 1) + [SizeAt(dstDir, s, n - 1)]
  }

  lemma {:induction false} SizesUpToAt(dstDir: string, s: TarStream, n: nat, i: nat)
    requires i < n <= |s.lines|
    ensures SizesUpTo(dstDir, s, n)[i] == SizeAt(dstDir, s, i)
  {
    if i < n - 1 {
      SizesUpToAt(dstDir, s, n - 1, i);
    }
  }

  /** totalBytesWritten after the first n sizes, with int64 wrap-around. */
  function RunningTotal(sizes: seq<FileSize>, n: nat): int64
    requires n <= |sizes|
  {
    if n == 0 then 0 else Wrap64(RunningTotal(sizes, n - 1) + sizes[n - 1])
  }

  /** The exact sum of the first n sizes. */
  function SizeSum(sizes: seq<FileSize>, n: nat): nat
    requires n <= |sizes|
  {
    if n == 0 then 0 else SizeSum(sizes, n - 1) + sizes[n - 1]
  }

  /** The event for line i: the full path and the total so far. */
  function LineEvent(shard: int, dstDir: string, s: TarStream, i: nat): XUpdMsg
    requires i < |s.lines|
  {
    Written(shard, PathAt(dstDir, s, i), RunningTotal(Sizes(dstDir, s), i + 1))
  }

  /** The events for the first n lines. */
  function LineEvents(shard: int, dstDir: string, s: TarStream, n: nat): (evs: seq<XUpdMsg>)
    requires n <= |s.lines|
    ensures |evs| == n
  {
    if n == 0 then [] else LineEvents(shard, dstDir, s, n - 1) + [LineEvent(shard, dstDir, s, n - 1)]
  }

  lemma {:induction false} LineEventsAt(shard: int, dstDir: string, s: TarStream, n: nat)
    requires n <= |s.lines|
    ensures var evs := LineEvents(shard, dstDir, s, n);
      |evs| == n && forall i | 0 <= i < n :: evs[i] == LineEvent(shard, dstDir, s, i)
  {
    if n > 0 {
      LineEventsAt(shard, dstDir, s, n - 1);
    }
  }

  /** The events of one output goroutine: one per line, then the
      scanner's error, if any. */
  function TrackEvents(shard: int, dstDir: string, s: TarStream): (evs: seq<XUpdMsg>)
    ensures |evs| == |s.lines| + (if s.scanErr.Some? then 1 else 0)
  {
    var lines := LineEvents(shard, dstDir, s, |s.lines|);
    if s.scanErr.Some? then lines + [ErrorOnly(shard, s.scanErr.value)] else lines
  }

  /** Exactly one event per scanned line, with the full path and the
      running total, and one more for a scanner error. */
  lemma TrackEventsShape(shard: int, dstDir: string, s: TarStream)
    ensures var evs := TrackEvents(shard, dstDir, s);
      && |evs| == |s.lines| + (if s.scanErr.Some? then 1 else 0)
      && (forall i | 0 <= i < |s.lines| ::
            evs[i] == Written(shard, PathAt(dstDir, s, i), RunningTotal(Sizes(dstDir, s), i + 1)))
      && (s.scanErr.Some? ==> evs[|s.lines|] == ErrorOnly(shard, s.scanErr.value))
  {
    LineEventsAt(shard, dstDir, s, |s.lines|);
  }

  /** trackTarOutput: one event per line, then the scanner's error. */
  method TrackTarOutput(shard: int, dstDir: string, s: TarStream) returns (events: seq<XUpdMsg>)
    ensures events == TrackEvents(shard, dstDir, s)
  {
    events := [];
    var total: int64 := 0;
    var i := 0;
    while i < |s.lines|
      invariant 0 <= i <= |s.lines|
      invariant total == RunningTotal(Sizes(dstDir, s), i)
      invariant events == LineEvents(shard, dstDir, s, i)
    {
      var event;
      total, event := ReportLine(shard, dstDir, s, i, total);
      events := events + [event];
      i := i + 1;
    }
    if s.scanErr.Some? {
      events := events + [ErrorOnly(shard, s.scanErr.value)];
    }
  }

  /** One scanned line: parse the name, stat the file, add its size. */
  method ReportLine(shard: int, dstDir: string, s: TarStream, i: nat, total: int64)
    returns (total': int64, event: XUpdMsg)
    requires i < |s.lines| && total == RunningTotal(Sizes(dstDir, s), i)
    ensures total' == RunningTotal(Sizes(dstDir, s), i + 1)
    ensures event == LineEvent(shard, dstDir, s, i)
  {
    var fileName := ParseTarLine(s.lines[i]);
    var fullPath := Paths.Join(dstDir, fileName);
    var info := s.lstat(i, fullPath);
    var size := 0;
    if info.Some? && info.value.regular {
      size := info.value.size;
    }
    SizesUpToAt(dstDir, s, |s.lines|, i);
    assert size == Sizes(dstDir, s)[i];
    total' := Wrap64(total + size);
    event := Written(shard, fullPath, total');
  }

  /** While the exact sum fits in an int64, the running total is that sum. */
  lemma {:induction false} RunningTotalIsSum(sizes: seq<FileSize>, n: nat)
    requires n <= |sizes| && SizeSum(sizes, n) <= INT64_MAX
    ensures RunningTotal(sizes, n) == SizeSum(sizes, n)
  {
    if n > 0 {
      RunningTotalIsSum(sizes, n - 1);
    }
  }

  lemma {:induction false} SizeSumMonotone(sizes: seq<FileSize>, m: nat, n: nat)
    requires m <= n <= |sizes|
    ensures SizeSum(sizes, m) <= SizeSum(sizes, n)
    decreases n - m
  {
    if m < n {
      SizeSumMonotone(sizes, m, n - 1);
    }
  }

  /** While the sum fits in an int64, the running totals never decrease
      and each adds exactly the next size. */
  lemma TotalsOfSizes(sizes: seq<FileSize>)
    requires SizeSum(sizes, |sizes|) <= INT64_MAX
    ensures forall i, j | 0 <= i < j <= |sizes| :: RunningTotal(sizes, i) <= RunningTotal(sizes, j)
    ensures forall i | 0 <= i < |sizes| :: RunningTotal(sizes, i + 1) == RunningTotal(sizes, i) + sizes[i]
  {
    forall m | 0 <= m <= |sizes| ensures RunningTotal(sizes, m) == SizeSum(sizes, m) {
      SizeSumMonotone(sizes, m, |sizes|);
      RunningTotalIsSum(sizes, m);
    }
    forall i, j | 0 <= i < j <= |sizes| ensures SizeSum(sizes, i) <= SizeSum(sizes, j) {
      SizeSumMonotone(sizes, i, j);
    }
  }

  /** Events carrying the running totals of sizes, one per size. */
  lemma EventTotalsFollow(evs: seq<XUpdMsg>, sizes: seq<FileSize>)
    requires |sizes| <= |evs| && SizeSum(sizes, |sizes|) <= INT64_MAX
    requires forall i | 0 <= i < |sizes| :: evs[i].totalBytes == RunningTotal(sizes, i + 1)
    ensures forall i, j | 0 <= i < j < |sizes| :: evs[i].totalBytes <= evs[j].totalBytes
    ensures forall i | 0 < i < |sizes| :: evs[i].totalBytes == evs[i - 1].totalBytes + sizes[i]
  {
    TotalsOfSizes(sizes);
    forall i, j | 0 <= i < j < |sizes| ensures evs[i].totalBytes <= evs[j].totalBytes {
      assert RunningTotal(sizes, i + 1) <= RunningTotal(sizes, j + 1);
    }
  }

  /** The reported totals never decrease, and each line adds the size of
      the regular file it names, or nothing (while the sum fits in an
      int64). */
  lemma TotalsGrowBySizes(shard: int, dstDir: string, s: TarStream)
    requires SizeSum(Sizes(dstDir, s), |s.lines|) <= INT64_MAX
    ensures var evs := TrackEvents(shard, dstDir, s);
      && (forall i, j | 0 <= i < j < |s.lines| :: evs[i].totalBytes <= evs[j].totalBytes)
      && (forall i | 0 < i < |s.lines| :: evs[i].totalBytes == evs[i - 1].totalBytes + SizeAt(dstDir, s, i))
      && (|s.lines| > 0 ==> evs[0].totalBytes == SizeAt(dstDir, s, 0))
  {
    var evs := TrackEvents(shard, dstDir, s);
    var sizes := Sizes(dstDir, s);
    var n := |s.lines|;
    forall i | 0 <= i < n ensures evs[i].totalBytes == RunningTotal(sizes, i + 1) {
      TrackEventsShape(shard, dstDir, s);
    }
    forall i | 0 <= i < n ensures sizes[i] == SizeAt(dstDir, s, i) {
      SizesUpToAt(dstDir, s, n, i);
    }
    EventTotalsFollow(evs, sizes);
    if n > 0 {
      assert RunningTotal(sizes, 1) == sizes[0];
    }
  }

  // ---------------------------------------------------------------------
  // ExtractWithNativeTar (lines 31-144)

  /** The external tar process: the errors of the three pipe requests and
      of Start, its two output streams and the error of Wait. */
  datatype TarProcess = TarProcess(stdinErr: Option<Error>, stdoutErr: Option<Error>,
                                   stderrErr: Option<Error>, startErr: Option<Error>,
                                   stdout: TarStream, stderr: TarStream, waitErr: Option<Error>)

  /** The first setup step of the process that fails, in the order the
      pipes are requested and the process started. */
  function SetupError(p: TarProcess): Option<Error>
  {
    if p.stdinErr.Some? then p.stdinErr
    else if p.stdoutErr.Some? then p.stdoutErr
    else if p.stderrErr.Some? then p.stderrErr
    else p.startErr
  }

  /** What one call sends and prints: the events of the function itself
      and those of each goroutine, and the lines written to standard
      output. */
  datatype NativeRun = NativeRun(main: seq<XUpdMsg>, input: seq<XUpdMsg>,
                                 stdout: seq<XUpdMsg>, stderr: seq<XUpdMsg>, printed: seq<string>)

  /** os.ModePerm */
  const MODE_PERM: int := 0x1FF // 0777

  /** ExtractWithNativeTar(rootSrcDir, dstDir, shard). readDir is os.ReadDir;
      openErr and copyErr what opening an input file and copying it into
      tar give; tar the external process. */
  method ExtractWithNativeTar(fs: Extract.FileSystem, rootSrcDir: string, dstDir: string, shard: int,
                              readDir: string -> Result<seq<Extract.DirEntry>>,
                              openErr: string -> Option<Error>, copyErr: string -> Option<Error>,
                              tar: TarProcess)
    returns (run: NativeRun)
    modifies fs
    ensures var srcDir := ShardDir(rootSrcDir, shard);
      var listing := readDir(srcDir);
      if listing.Failure? then
        run == NativeRun([ErrorQuit(shard, listing.error)], [], [], [], []) && fs.tree == old(fs.tree)
      else
        var names := GoStrings.SortStrings(Extract.RegularPaths(srcDir, listing.value));
        if names == [] then
          run == NativeRun([ErrorQuit(shard, Error("no files to extract"))], [], [], [], [])
          && fs.tree == old(fs.tree)
        else
          var (t, mkdirErr) := Extract.MkdirAllIn(old(fs.tree), dstDir, MODE_PERM);
          && fs.tree == t
          && if mkdirErr.Some? then
               run == NativeRun([], [], [], [], ["Error creating output directory: " + mkdirErr.value.msg + "\n"])
             else if SetupError(tar).Some? then
               run == NativeRun([ErrorQuit(shard, SetupError(tar).value)], [], [], [], [])
             else
               && run.input == InputEvents(shard, names, openErr, copyErr)
               && run.stdout == TrackEvents(shard, dstDir, tar.stdout)
               && run.stderr == TrackEvents(shard, dstDir, tar.stderr)
               && run.main == (if tar.waitErr.Some? then [ErrorQuit(shard, tar.waitErr.value)] else [])
               && run.printed == []
  {
    var srcDir := ShardDir(rootSrcDir, shard);
    var listing := readDir(srcDir);
    if listing.Failure? {
      return NativeRun([ErrorQuit(shard, listing.error)], [], [], [], []);
    }
    var names := Extract.SelectPartFiles(srcDir, listing.value);
    if |names| == 0 {
      return NativeRun([ErrorQuit(shard, Error("no files to extract"))], [], [], [], []);
    }
    var mkdirErr := fs.MkdirAll(dstDir, MODE_PERM);
    if mkdirErr.Some? {
      return NativeRun([], [], [], [], ["Error creating output directory: " + mkdirErr.value.msg + "\n"]);
    }
    if tar.stdinErr.Some? {
      return NativeRun([ErrorQuit(shard, tar.stdinErr.value)], [], [], [], []);
    }
    if tar.stdoutErr.Some? {
      return NativeRun([ErrorQuit(shard, tar.stdoutErr.value)], [], [], [], []);
    }
    if tar.stderrErr.Some? {
      return NativeRun([ErrorQuit(shard, tar.stderrErr.value)], [], [], [], []);
    }
    if tar.startErr.Some? {
      return NativeRun([ErrorQuit(shard, tar.startErr.value)], [], [], [], []);
    }
    var outEvents := TrackTarOutput(shard, dstDir, tar.stdout);
    var errEvents := TrackTarOutput(shard, dstDir, tar.stderr);
    var inEvents := StreamInputs(shard, names, openErr, copyErr);
    var main := [];
    if tar.waitErr.Some? {
      main := [ErrorQuit(shard, tar.waitErr.value)];
    }
    return NativeRun(main, inEvents, outEvents, errEvents, []);
  }
}
