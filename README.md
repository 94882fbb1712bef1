# snapdown, modelled in Dafny

snapdown downloads a sharded snapshot as named chunk files over HTTP. It
then joins each shard's part files into one gzip+tar stream and unpacks
that stream, either with Go's own tar reader or by piping the parts into
an external `tar xzvf -`. Progress travels as records on channels, and
terminal or plain-log consumers fold those records into counters.

This project models the parts of that pipeline that can be stated exactly:

- the reader that chains the part files into one stream;
- the selection and sorting of the part files;
- Go-native extraction over a list of tar entries and a map-based file tree;
- the bookkeeping of the native-tar extractor: its input ticks, parsing of
  tar's output lines, and the running byte total;
- the chunk fetcher: the resume decision, the copy loop with its progress
  records, and the per-chunk bracket of progress records;
- the two small arithmetic functions: the buffer-size clamp and the
  relative-time buckets;
- the seven progress consumers under `ui/`.

The network, the operating system, the external `tar` process and the
channels are inputs. A response body is the list of results of its Read
calls. A directory listing, an `os.Stat`, a HEAD or GET request, and the
lines tar prints are given values. A channel is the finite list of records
sent on it. A Go panic becomes an outcome value rather than a
precondition.

Modules, one per source file, plus shared helpers:

- `Common`: Option, Result, bytes, int64 wrap-around, truncating division,
  Concat.
- `GoStrings`: byte-wise string order, `sort.Strings`,
  `strings.TrimSpace`/`TrimPrefix`, `%d`.
- `Paths`: `filepath.Clean`/`Join`/`Dir`.
- `ChainedReader`: `chainedFileReader` in downloader/extract.go.
- `Extract`: `Extract` in downloader/extract.go, over a file-tree class.
- `ExtractNative`: downloader/extractNative.go.
- `Downloader`: downloader/downloader.go.
- `ExtractUnix` and `ExtractWindows`: `getOptimalBufferSize`.
- `DownloadCmd`: `formatRelativeTime`.
- `Tea`: the follow-up command an Update returns.
- `DownloadProgress`: the six-field progress record and the chunk and
  shard records shared by ui/tty-download.go, ui/downloadUI.go and
  ui/notty-download.go.
- `UiModel`, `UiTtyDownload`, `UiDownloadModel`, `UiTtyExtract`,
  `UiNottyExtract`, `UiNottyDownload`, `UiExtractModel`: the files under
  `ui/`.

The files under `ui/` read three different shapes of progress record.
Each module gives its file the record with exactly the fields that file
reads:

- ui/ui.go reads `{ChunkName, Percent}` from downloader/downloader.go, so
  `UiModel` consumes `Downloader.ProgressUpdate`.
- The download views read the later six-field record.
- The extraction views read `XUpdMsg`.

State that the source updates in place is kept in classes:

- the reader's `files`/`index`/`curr`;
- the file tree;
- the fields of every UI model.

Each class's methods are proved against a function of the old state. The
properties are then lemmas about those functions.

## Model

| member | source | states |
|---|---|---|
| Common.Wrap64 | downloader/extractNative.go:170 | int64 addition wraps modulo 2^64, and is exact when the sum fits |
| Common.Quot | cmd/download.go:32 | Go's integer division truncates toward zero, with bounds for negative dividends |
| GoStrings.SortStrings | downloader/extract.go:65 | the result is sorted by byte-wise order and is a permutation of the input |
| GoStrings.SortedPermutationUnique | downloader/extract.go:65 | a sorted permutation is unique, so any correct sort gives the same list |
| GoStrings.LessTotal | downloader/extract.go:65 | byte-wise string order is total on distinct strings |
| GoStrings.TrimSpaceSpec | downloader/extractNative.go:153 | TrimSpace removes only leading and trailing white space, and the result neither starts nor ends with white space |
| GoStrings.TrimSpaceAround | downloader/extractNative.go:153 | trimming space-padded text gives back the text |
| GoStrings.NatToDecimalInjective | downloader/extractNative.go:32 | distinct naturals have distinct decimal digits |
| GoStrings.DecimalRoundTrip | downloader/extractNative.go:32 | a natural number's decimal digits read back as the number |
| GoStrings.FormatIntInjective | downloader/extractNative.go:32 | distinct integers print differently under %d |
| GoStrings.FormatIntDashInjective | ui/tty-download.go:120 | "%d-%s" never gives two (shard, name) pairs the same text, even when a name contains '-' |
| Paths.JoinDropsTrailingSlash | downloader/extract.go:87 | for any plain directory and entry name without separators, joining the directory entry "name/" gives "dst/name": the trailing separator is dropped |
| Paths.JoinClimbsOut | downloader/extract.go:87 | for any plain directory and name without separators, joining the entry "../name" gives "name": a ".." entry climbs out of the directory it is joined under |
| Paths.DirIsParent | downloader/extract.go:94 | for every path, Dir is "." without a separator, "/" when the only separator is the first character, and otherwise the cleaned text before the last separator |
| Paths.CleanTrailingSlash | downloader/extract.go:87 | a trailing separator never changes Clean's result for a non-empty path |
| Paths.CleanNames | downloader/extract.go:87 | a relative path made only of plain names is already clean |
| Paths.DirOfEntry | downloader/extract.go:94 | the directory of an entry "dir/name", with no separator in name, is dir cleaned, whatever dir is |
| Paths.CleanRootParent | downloader/extract.go:87 | ".." at the root stays at the root |
| Paths.SplitJoinSegs | downloader/extract.go:87 | splitting joined separator-free segments gives the segments back |
| ChainedReader.Init | downloader/extract.go:21-23 | a new reader has nothing open and starts at the first part |
| ChainedReader.RestIsConcat | downloader/extract.go:25-50 | what remains from part i on is the concatenation of those parts' contents |
| ChainedReader.AdvanceContinues | downloader/extract.go:26-46 | each turn of the loop keeps the undelivered bytes the same and shrinks the measure: it either opens the part at index, or, at that part's end, closes it, resets curr and raises index by exactly one |
| ChainedReader.AdvanceReadsData | downloader/extract.go:38-48 | a read on the open part before its fault returns Ok with bytes from that part only |
| ChainedReader.ReadFromConsumes | downloader/extract.go:25-50 | one Read consumes exactly the bytes it returns: at most len(p), all from one part, and never 0 on success with a non-empty buffer; a failure returns no bytes, consumes nothing and carries the failing part's open or read error; EOF comes only when nothing is left |
| ChainedReader.EndOfStreamIsSticky | downloader/extract.go:28-30 | after EOF every later Read, with any buffer, returns (0, EOF) and changes nothing |
| ChainedReader.DrainIsPrefix | downloader/extract.go:25-50 | reading until EOF or an error delivers a prefix of the stream, and the whole stream when it ends at EOF |
| ChainedReader.DrainAll | downloader/extract.go:25-50 | when every part opens and reads, draining delivers exactly what remains and ends at EOF |
| ChainedReader.DrainYieldsConcatenation | downloader/extract.go:25-50 | for any positive buffer size, when every part opens and reads without error, draining a fresh reader yields files[0] ++ files[1] ++ … in list order |
| ChainedReader.BetweenIsConcat | downloader/extract.go:25-50 | the bytes of parts i to j-1 are the concatenation of those parts' contents |
| ChainedReader.ReadToFault | downloader/extract.go:25-50 | on the way to a part that faults, each Read returns some of the bytes still before the fault, or, once none are left, the fault's error |
| ChainedReader.DrainToFault | downloader/extract.go:25-50 | from any state on the way to a faulting part, draining delivers exactly the bytes before the fault and ends with its error |
| ChainedReader.DrainStopsAtFault | downloader/extract.go:38-48 | a read error in mid file: a fresh reader delivers every earlier part, then the faulting part's bytes before the fault, then returns that error |
| ChainedReader.CopyInto | downloader/extract.go:38 | a file Read fills the front of the caller's buffer and leaves the rest alone |
| ChainedReader.ChainedFileReader.constructor | downloader/extract.go:21-23 | newChainedFileReader starts with nothing open at index 0 |
| ChainedReader.ChainedFileReader.Read | downloader/extract.go:25-50 | Read's loop ends in the state, bytes and status of the Read function; the bytes land in p[..n], the rest of p is untouched, and the class invariant is kept |
| ChainedReader.ChainedFileReader.OpenNext | downloader/extract.go:27-36 | opening the next part is one turn of the loop: EOF past the last part, the open error, or curr set |
| ChainedReader.ChainedFileReader.ReadOpen | downloader/extract.go:38-48 | reading the open part is one turn of the loop: return (n, nil) or (n, err), or close, advance and go round |
| Extract.RegularPathsMembers | downloader/extract.go:59-64 | a path is selected exactly when some regular entry's name, joined under srcDir, gives it |
| Extract.SelectPartFiles | downloader/extract.go:59-65 | the selected paths are sorted and a permutation of the regular entries' paths |
| Extract.NoPartFiles | downloader/extract.go:66-68 | the selection is empty exactly when the listing has no regular entry |
| Extract.MkdirAllOnlyAdds | downloader/extract.go:89-95 | os.MkdirAll keeps every existing node and adds only directories with the given permission |
| Extract.MkdirAllOutcome | downloader/extract.go:89-95 | on success the cleaned path is a directory; it fails only when a regular file is in the way, at the path itself or at one of its proper ancestors |
| Extract.MkdirAllIdempotent | downloader/extract.go:89-95 | a second MkdirAll of the same path changes nothing and succeeds |
| Extract.WriteFileIn | downloader/extract.go:97-104 | opening a directory fails with "is a directory"; otherwise the file holds exactly the body (O_TRUNC), keeps the mode of an existing file, and the copy error is returned |
| Extract.FileSystem.MkdirAll | downloader/extract.go:89-95 | the tree becomes what MkdirAll gives |
| Extract.FileSystem.WriteFile | downloader/extract.go:97-105 | the tree becomes what the truncating write gives |
| Extract.RunSkipsOthers | downloader/extract.go:107-108 | a loop whose step ignores other entry types is unchanged by dropping those entries |
| Extract.OtherEntriesSkipped | downloader/extract.go:107-108 | entries other than directories and regular files have no effect |
| Extract.RunAppend | downloader/extract.go:78-110 | the entry loop over a + b is the loop over a, then, unless a panicked, the loop over b |
| Extract.ApplyEntryKeeps | downloader/extract.go:88-109 | an entry keeps every existing node other than its own regular-file target |
| Extract.UntouchedNodeKept | downloader/extract.go:78-110 | a node that no regular entry targets keeps its contents through the whole loop |
| Extract.LastRegularEntryWins | downloader/extract.go:93-105 | of several regular entries with one path, the last one's content wins, and an existing file keeps its mode |
| Extract.DirectoryEntryMakesDirectory | downloader/extract.go:89-92 | a directory entry leaves a directory at its joined path |
| Extract.Extract | downloader/extract.go:53-111 | a listing failure panics; an empty selection panics with "no files to extract"; a gzip error panics; otherwise the tree and printed "x path" lines are those of the entry loop, and a panic is that of the first failing entry or of the tar reader |
| Extract.ApplyAll | downloader/extract.go:78-110 | the imperative entry loop gives the tree, log and panic of the loop function |
| Extract.ApplyOne | downloader/extract.go:87-109 | one entry through the file-tree class is the entry function, and a failing entry prints nothing |
| ExtractNative.FirstFailure | downloader/extractNative.go:105-122 | the index of the first input that fails to open or copy: every earlier one succeeds |
| ExtractNative.InputEvents | downloader/extractNative.go:105-131 | one tick (Idx = j+1, Total = len) per file fed, then one error without Quit for the first failure |
| ExtractNative.StreamInputs | downloader/extractNative.go:101-132 | the stdin loop sends exactly those events |
| ExtractNative.TicksCountUp | downloader/extractNative.go:125-130 | Idx rises strictly from 1, and Total is the number of files |
| ExtractNative.AllFedGivesAllTicks | downloader/extractNative.go:105-131 | with no failure there are len ticks, none with an error, and the last has Idx = len |
| ExtractNative.FailureStopsStream | downloader/extractNative.go:106-122 | a failure ends the stream with one error event without Quit, and no later file is fed |
| ExtractNative.ParseVerboseLine | downloader/extractNative.go:153-156 | a space-padded "x name" line gives the name |
| ExtractNative.ParseBareLine | downloader/extractNative.go:157-160 | a line without the "x " prefix is the file name itself, once trimmed |
| ExtractNative.ParseLoneMarker | downloader/extractNative.go:153-156 | a line "x " trims to "x", which has no prefix to strip |
| ExtractNative.SizesUpToAt | downloader/extractNative.go:164-168 | the size recorded for line i is that line's size: the Lstat size of a regular file at the joined path, 0 for a missing or non-regular path |
| ExtractNative.LineEventsAt | downloader/extractNative.go:152-178 | line i gives one event with the full path and the running total after it |
| ExtractNative.TrackEventsShape | downloader/extractNative.go:152-185 | exactly one event per scanned line, then one error event without Quit if the scanner failed |
| ExtractNative.TrackTarOutput | downloader/extractNative.go:146-186 | the scanner loop sends exactly those events |
| ExtractNative.ReportLine | downloader/extractNative.go:153-177 | one turn of the loop moves the total on by the line's size and reports that line |
| ExtractNative.RunningTotalIsSum | downloader/extractNative.go:170 | without overflow the wrapped running total is the plain sum of sizes |
| ExtractNative.TotalsOfSizes | downloader/extractNative.go:170 | without overflow the running total never decreases and grows by each size |
| ExtractNative.TotalsGrowBySizes | downloader/extractNative.go:150-177 | the reported totals never decrease, and each grows by exactly its line's size |
| ExtractNative.ExtractWithNativeTar | downloader/extractNative.go:31-144 | a listing failure, an empty selection, a pipe failure or a Start failure each sends exactly one Error+Quit event; a MkdirAll failure prints a line and sends nothing; otherwise the per-goroutine events are the input ticks, the two output trackers, and one Error+Quit on a non-zero exit |
| ExtractUnix.OptimalBufferSize | downloader/extract_unix.go:9-26 | a Statfs failure gives 100 KiB; otherwise blockSize*128, clamped to [64 KiB, 4 MiB], computed with int wrap-around |
| ExtractUnix.BufferSizeMonotone | downloader/extract_unix.go:17-25 | without overflow a larger block never gives a smaller buffer |
| ExtractUnix.BufferSizeIsBlocks | downloader/extract_unix.go:25 | blocks from 512 B to 32 KiB give exactly blockSize*128 |
| ExtractUnix.HugeBlockWrapsToFloor | downloader/extract_unix.go:18-21 | a block of 2^56 makes blockSize*128 wrap to INT64_MIN = -2^63, which clamps up to the 64 KiB floor rather than the 4 MiB ceiling |
| ExtractWindows.OptimalBufferSize | downloader/extract_windows.go:5-7 | always 100 KiB |
| ExtractWindows.WindowsAgreesWithUnix | downloader/extract_windows.go:5-7 | the path is not consulted; the value is the Unix fallback and lies inside the Unix clamp |
| DownloadCmd.AgeTruncatesTowardZero | cmd/download.go:32-34 | the age is now minus the timestamp divided by 1000 with truncation, so -1500 ms counts as -1 s |
| DownloadCmd.Bucket | cmd/download.go:35-44 | below 60 s the raw difference, negative included; then minutes 1..59, hours 1..23, days ≥ 1 |
| DownloadCmd.BucketCountsWholeUnits | cmd/download.go:35-44 | the count is the number of whole units in the difference |
| DownloadCmd.BucketUnitMonotone | cmd/download.go:35-44 | an older timestamp never gets a finer unit |
| DownloadCmd.FormatRelativeTimeDeterminesBucket | cmd/download.go:35-44 | the printed text determines the bucket, so exactly one bucket applies |
| Downloader.PercentAboveOneOnlyFinished | downloader/downloader.go:88-180 | while no more bytes arrive than announced, only the 200.0 sentinel has Percent above 1.0 |
| Downloader.CompleteIffSizesAgree | downloader/downloader.go:49-67 | the file is complete exactly when the stat and HEAD succeed, a Content-Length is present and the sizes agree; a failed stat gives its error; a missing length is an error |
| Downloader.CopyWritesBody | downloader/downloader.go:158-177 | with no write failing, the file receives exactly the body's bytes, and the copy ends with the body's error, if any |
| Downloader.CopyCountsRise | downloader/downloader.go:158-170 | the reported byte counts rise strictly and end at the file's size |
| Downloader.CopyCountsBounded | downloader/downloader.go:158-170 | every reported count lies above what was written before and within the file, the last is the file's size, and no count means nothing was written |
| Downloader.CopyCountsIncrease | downloader/downloader.go:158-170 | each reported count is larger than every earlier one |
| Downloader.Transfers | downloader/downloader.go:167-169 | one progress record per reported count, in order, each carrying that count and the announced total |
| Downloader.DownloadChunk2 | downloader/downloader.go:127-183 | the fetch sends, leaves on disk and returns what the fetch function gives |
| Downloader.CopyWithProgress | downloader/downloader.go:158-177 | the read/write loop writes the copy's bytes, sends one record per count of the copy, and stops for the copy's reason; the copy is taken with the counts carried along, as the loop keeps them |
| Downloader.CopyOnResumes | downloader/downloader.go:158-177 | carrying the counts along writes the same bytes and stops for the same reason as the copy from that read on, with that copy's counts after the ones already made; so the loop performs the copy of the whole body |
| Downloader.CopyReportsEveryRead | downloader/downloader.go:158-170 | the copy sends exactly one count per read with n > 0 that it writes, up to where it stops; count j is the bytes written so far, so `downloaded` always equals the file's size; the file is the bytes of those reads |
| Downloader.RunningSizesAt | downloader/downloader.go:166 | the j-th running size is the base plus the length of the first j+1 pieces laid end to end |
| Downloader.InvalidLengthLeavesEmptyFile | downloader/downloader.go:145-155 | a Content-Length of 0 or less fails with "invalid content length: N" after the file was created, so the chunk file is left empty and no record is sent |
| Downloader.SkipOrFailCheck | downloader/downloader.go:128-136 | a complete local file gives one 1.0 record and no GET, and the file is left alone; a failed check returns its error with no record |
| Downloader.FetchOutcome | downloader/downloader.go:145-182 | with a positive length the file is created; success holds exactly when the last record is the final 1.0, and every record before the last is a byte count, so a success has exactly one 1.0 record; a failure sends only byte counts; each count stays within the file and carries the announced total; counts rise |
| Downloader.CopyWithinBody | downloader/downloader.go:161-177 | the file holds a prefix of the bytes the body delivers, never more |
| Downloader.FetchWithinLength | downloader/downloader.go:158-169 | when the body is no longer than its Content-Length, every byte count of the fetch is at most the announced total |
| Downloader.RunChunksWithinTotals | downloader/downloader.go:158-169 | when no chunk's body is longer than its Content-Length, no record Download sends reports more bytes than its total |
| Downloader.FetchWritesBody | downloader/downloader.go:139-182 | with no write failing, the chunk file is the body, and the fetch succeeds exactly when the body ends without an error |
| Downloader.FetchersAgree | downloader/downloader.go:100-183 | downloadChunk and downloadChunk2 write the same file and fail in the same cases when the length is positive |
| Downloader.Download | downloader/downloader.go:69-98 | a MkdirAll failure prints one line and sends nothing; otherwise the records, printed errors and chunk files are those of the chunks fetched in list order |
| Downloader.FetchOne | downloader/downloader.go:86-95 | one chunk sends 0.0, its fetch records and 200.0, and prints its error |
| Downloader.RunChunksStep | downloader/downloader.go:81-95 | one more chunk appends its bracket, its error line and its file |
| Downloader.EveryChunkHasAFile | downloader/downloader.go:81-95 | every chunk has a file entry at outputDir/name, and there are no others |
| Downloader.AtMostOneLinePerChunk | downloader/downloader.go:86-93 | at most one error line per chunk, and at least two records per chunk |
| Downloader.FetchHasNoSentinel | downloader/downloader.go:127-183 | a fetch never sends the 200.0 sentinel itself |
| Downloader.RunChunksEndsWithSentinel | downloader/downloader.go:87-93 | the last record Download sends is the 200.0 sentinel of the last chunk |
| Downloader.OneSentinelPerChunk | downloader/downloader.go:87-93 | Download sends exactly one 200.0 sentinel per chunk |
| DownloadProgress.ChunkKeyInjective | ui/tty-download.go:120 | distinct chunks never share a key |
| DownloadProgress.MergeChunk | ui/tty-download.go:125-138 | an unseen key takes the record's values; a known one is replaced only by a strictly larger byte count; no other key changes |
| DownloadProgress.CountCompletion | ui/tty-download.go:140-142 | a completion counts one chunk and adds its bytes, exactly when they fit in int64 |
| DownloadProgress.InitialStatus | ui/tty-download.go:46-55 | the status holds shards 0, 1 and 2, each with its metadata chunk count and nothing downloaded |
| UiModel.Model.constructor | ui/ui.go:25-47 | nothing downloaded, nothing in flight |
| UiModel.Model.Update | ui/ui.go:61-85 | the new fields and command are those of the step function: q, esc and ctrl+c quit; a record of at most 1.0 stores its fraction, a larger one counts the chunk and drops it; Quit once the count reaches the total, NextMessage otherwise |
| UiModel.ProgressStep | ui/ui.go:70-81 | Percent ≤ 1.0 records the fraction and counts nothing; above 1.0 counts a chunk and forgets it; the model quits exactly when the count reaches the total |
| UiModel.KeysAndOthers | ui/ui.go:63-84 | q, esc and ctrl+c quit; every other key or message changes nothing and returns no command |
| UiModel.FeedCountsSentinels | ui/ui.go:72-81 | while chunks remain, a run of records holding at least the remaining count of sentinels makes the model quit with the count reached; a byte-count record above 1.0 also counts a chunk, and then the model quits earlier |
| UiModel.FeedBelowTotal | ui/ui.go:72-81 | while no byte-count record exceeds its total, only sentinels are counted, and the model does not quit before they make up the total |
| UiModel.FeedQuitsOnLastUpdate | ui/ui.go:72-81 | a run ending in the sentinel with exactly the remaining count of sentinels and no byte-count record above its total: the model has not quit before the last record and has one chunk left |
| UiModel.DownloadRunCompletesView | ui/ui.go:74-79 | fed what Download sends for N > 0 chunks, whatever the bodies, a fresh model counts N chunks and quits |
| UiModel.FedRunQuitsOnLast | ui/ui.go:72-81 | a fresh model fed records ending in the sentinel, with as many sentinels as chunks and no byte-count record above its total, quits on none of them before the last |
| Downloader.RunChunksFeedFacts | downloader/downloader.go:80-93 | what Download sends ends in a sentinel and holds one sentinel per chunk, and, when no body is longer than its Content-Length, no byte count above its total |
| UiModel.DownloadRunQuitsOnLastUpdate | ui/ui.go:74-79 | when no GET body is longer than its Content-Length, the model fed what Download sends for N > 0 chunks quits only on the last record, the last chunk's sentinel |
| UiTtyDownload.TtyDownload.constructor | ui/tty-download.go:45-78 | shards 0, 1, 2 with their chunk counts, shard 0 current, nothing in flight |
| UiTtyDownload.TtyDownload.DropExpired | ui/tty-download.go:102-107 | the cleanup loop deletes exactly the completions older than 5 s and keeps the rest |
| UiTtyDownload.TtyDownload.Update | ui/tty-download.go:95-150 | the new fields and command are those of the step function: ctrl+c quits; a cleanup tick drops completions older than 5 s; a Quit record quits, an error is appended, a recent chunk is ignored, others are merged, and a completion counts in its shard and moves to the recent list; metadata and job count are unchanged |
| UiTtyDownload.QuitComesFirst | ui/tty-download.go:113-115 | a record with Quit set quits with no change, an error notwithstanding |
| UiTtyDownload.ErrorIsOnlyRecorded | ui/tty-download.go:116-119 | an error is appended and nothing else changes |
| UiTtyDownload.RecentChunkIgnored | ui/tty-download.go:120-124 | records for a recently completed chunk are ignored |
| UiTtyDownload.BytesNeverDecrease | ui/tty-download.go:125-130 | no message lowers a chunk's byte count, and no other chunk changes |
| UiTtyDownload.CompletionMovesChunk | ui/tty-download.go:140-147 | a completion counts one chunk in its shard only and moves the key from ActiveChunks to RecentlyCompleted at now |
| UiTtyDownload.CompletionCountedOnce | ui/tty-download.go:120-146 | the same completion delivered again inside the window changes nothing |
| UiTtyDownload.CleanupKeepsRecent | ui/tty-download.go:101-110 | the cleanup tick keeps exactly the completions no older than 5 s and re-arms itself |
| UiDownloadModel.DownloadModel.constructor | ui/downloadUI.go:41-73 | shards 0, 1, 2 with their chunk counts, nothing in flight |
| UiDownloadModel.DownloadModel.Update | ui/downloadUI.go:85-124 | the new fields and command are those of the step function: q, esc and ctrl+c quit; a Quit record quits before its error is seen; an error is appended; other records are merged, and every completion counts in its shard, an unknown shard panicking |
| UiDownloadModel.QuitPaths | ui/downloadUI.go:88-95 | q, esc and ctrl+c quit; Quit in a record quits before Error is looked at |
| UiDownloadModel.ErrorIsOnlyRecorded | ui/downloadUI.go:96-99 | an error is appended and nothing else changes |
| UiDownloadModel.ActiveChunkUpdate | ui/downloadUI.go:100-115 | a chunk's byte count never falls; an unseen key is inserted with the record's values |
| UiDownloadModel.RepeatedCompletionCountsTwice | ui/downloadUI.go:117-121 | every completion counts, repeats included, and the chunk stays in ActiveChunks |
| UiTtyExtract.TtyExtract.constructor | ui/tty-extract.go:25-43 | shard 0 current, empty maps, no errors |
| UiTtyExtract.TtyExtract.Update | ui/tty-extract.go:58-90 | the new fields and command are those of the step function: an error is appended and the record still handled; Quit clears the file and quits; a record with bytes sets the shard's total and file, one without sets the shard and its counters; QuitMsg and ctrl+c quit |
| UiTtyExtract.ErrorThenContinues | ui/tty-extract.go:69-76 | an error is appended and the record is then handled as if it had none; with Quit it clears the current file and quits |
| UiTtyExtract.RecordBranches | ui/tty-extract.go:77-84 | a record with bytes sets the shard's total and the current file only; one without sets the current shard and its two counters |
| UiTtyExtract.OnlyOwnShardChanges | ui/tty-extract.go:77-84 | only the entries keyed by the record's shard change |
| UiTtyExtract.ZeroRecordsResetCounters | ui/tty-extract.go:69-84 | a non-fatal error record of the native extractor, or a written record with a total of 0, resets its shard's counters to 0 of 0 |
| UiNottyExtract.NoTTYUnpack.constructor | ui/notty-extract.go:20-29 | shard 0 current, empty maps, no errors |
| UiNottyExtract.NoTTYUnpack.Run | ui/notty-extract.go:31-52 | the loop leaves the state that the fold over the records gives |
| UiNottyExtract.ErrorsInArrivalOrder | ui/notty-extract.go:32-41 | errors are stored in arrival order up to the first Quit without an error |
| UiNottyExtract.QuitEndsRun | ui/notty-extract.go:37-41 | a Quit without an error ends the run, so later records change nothing |
| UiNottyExtract.ErrorQuitDoesNotEndRun | ui/notty-extract.go:34-36 | an Error+Quit record is recorded as an error and the run goes on |
| UiNottyExtract.RecordCases | ui/notty-extract.go:42-49 | a record with bytes sets that shard's total and the current file; otherwise the current shard and its counters |
| UiNottyExtract.ClosedChannelEndsRun | ui/notty-extract.go:32 | a closed channel ends the run with the state as it is |
| UiNottyDownload.NoTTYDownload.constructor | ui/notty-download.go:16-22 | no errors stored |
| UiNottyDownload.NoTTYDownload.Run | ui/notty-download.go:24-41 | Errors gains the errors before the first Quit, in order, and it is the only field changed |
| UiNottyDownload.ErrorsBeforeQuitSplit | ui/notty-download.go:25-28 | Quit is checked first: records from the first Quit on, that one's error included, are not stored |
| UiNottyDownload.AllErrorsKept | ui/notty-download.go:30-34 | without a Quit, every error record's error is stored and nothing else is |
| UiExtractModel.ExtractModel.constructor | ui/extractUI.go:40-46 | no shards, empty order |
| UiExtractModel.ExtractModel.Update | ui/extractUI.go:58-84 | the new fields and command are those of the step function: a chunk start creates its shard with 10 chunks on first sight and counts it; files are appended; completion marks the shard done; a file or completion for an unknown shard panics; QuitMsg quits |
| UiExtractModel.StepKeepsValid | ui/extractUI.go:61-66 | ShardOrder stays free of repeats, and its elements are exactly the keys of Shards |
| UiExtractModel.StartChunkCounts | ui/extractUI.go:60-68 | the first chunk of a shard creates it with 10 chunks and appends it to the order; every chunk sets the current chunk and counts one more |
| UiExtractModel.FilesRecordedInOrder | ui/extractUI.go:70-72 | extracted files are appended to their shard in arrival order |
| UiExtractModel.CompletionAndQuit | ui/extractUI.go:74-80 | completion sets Completed and clears the current chunk; Quit quits with no change |

## Left out

- gzip and tar decoding (downloader/extract.go:70-86): the stream is an abstract `Archive`, a gzip error plus the entry list and the tar reader's final error. The chained reader's bytes are not fed to a decoder.
- Concurrency: the semaphore, goroutines and WaitGroup of `Download`, and the three goroutines of `ExtractWithNativeTar`. `Download` is modelled as fetching chunks one at a time in list order, and each native-tar goroutine keeps its own event list; how the channel interleaves them is not modelled.
- The external `tar` process: its pipes, Start, the lines it prints and its exit status are inputs. `Lstat` is an input indexed by line, the file as it is when the line arrives.
- The network and the file system calls of the fetcher: os.Stat, HEAD, GET, os.Create and each Write are inputs. Both `os.Stat` calls of `downloadChunk2` see the same result.
- Downloader.DownloadChunk2: a failing Write is modelled as writing none of its bytes; a partial write is left out.
- UiModel.DownloadRunQuitsOnLastUpdate: requires that no GET body delivers more bytes than its Content-Length. net/http stops a body at a positive Content-Length; the modelled body is otherwise unconstrained. A longer body gives a byte-count record above 1.0, which the view counts as a finished chunk and may quit early on (UiModel.DownloadRunCompletesView holds either way).
- Downloader.CopyWithProgress: `downloaded` is kept as an unbounded count, since a chunk cannot reach 2^63 bytes.
- ExtractNative.TotalsGrowBySizes: stated only when the sum of sizes fits in int64; the running total itself is modelled with wrap-around.
- Floating point: Percent is an exact real, and the 200.0 sentinel and 1.0 are its only constants; the byte-count fraction is not rounded.
- The `View` methods, `renderProgressBar`, `bytesHuman`, lipgloss styling, spinner state, `debugInfo` and `Init` wiring; a spinner tick only returns its follow-up command.
- The log and console output of ui/notty-extract.go and ui/notty-download.go, and the "x path" line of `Extract` beyond the log list.
- Time: `time.Now` is a parameter in nanoseconds, and durations are plain integers.
- `ShardMetadata`, a plain HTTP and JSON fetch; metadata is a value with a key prefix and chunk names.
- The rest of cmd/*.go: command wiring, the `must*` helpers, the metadata load-or-fetch, and `--jobs`, where any non-zero value sets `Concurrency` to 5.
- downloader/helpers.go, which only calls `exec.LookPath`.
- File names that are not valid UTF-8: strings are sequences of Unicode characters, so `sort.Strings` and `TrimSpace` are modelled by character, which agrees with Go's byte-wise handling only for valid UTF-8.
- Read faults: a part file's fault is at one byte offset and ends every later Read with (0, err); a Read that returns bytes together with an error is modelled as the bytes followed by a 0-byte failing Read.
- umask: directories and files get exactly the permission bits asked for.
- A nil `*Metadata` for shard 0, 1 or 2 in the two download-view constructors: they require the three shards to be present, which the source dereferences unconditionally.
- Path escape: a tar entry named "../x" is joined to a path outside `dstDir` (Paths.JoinClimbsOut). The model records this and does not restrict it, as the source does not.
