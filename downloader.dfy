/** The chunk fetcher of downloader/downloader.go: the resume decision
    (isLocalFileComplete), the two chunk fetchers (downloadChunk and its
    successor downloadChunk2, which reports progress) and the progress
    bracket Download sends around each chunk.

    The network and the operating system are inputs: the result of
    os.Stat, of the HEAD and GET requests, of os.Create, and of each Write
    are given; a response body is the list of results its Read calls
    return. A chunk file is its contents. */
module Downloader {
  import opened Common
  import GoStrings
  import Paths

  // ---------------------------------------------------------------------
  // Progress records

  /** How far a chunk is, as the sender computes Percent: 0.0 before the
      fetch, downloaded/total after a read, 1.0 when complete, and the
      200.0 sentinel after the fetch. The fraction is kept as its two
      byte counts. */
  datatype Progress = Started | Transferred(downloaded: nat, total: nat) | Complete | Finished

  /** ProgressUpdate{ChunkName, Percent}. */
  datatype ProgressUpdate = ProgressUpdate(chunkName: string, progress: Progress)

  /** The Percent field, as an exact real (total is positive whenever a
      Transferred update is sent). */
  function Percent(p: Progress): real
  {
    match p
    case Started => 0.0
    case Transferred(d, t) => if t == 0 then 0.0 else (d as real) / (t as real)
    case Complete => 1.0
    case Finished => 200.0
  }

  /** Only the sentinel lies above 1.0 while no more bytes arrive than
      the Content-Length announced. */
  lemma PercentAboveOneOnlyFinished(p: Progress)
    requires p.Transferred? ==> p.downloaded <= p.total
    ensures Percent(p) > 1.0 <==> p.Finished?
  {
    if p.Transferred? && p.total > 0 {
      assert (p.downloaded as real) <= (p.total as real);
      assert (p.downloaded as real) / (p.total as real) <= 1.0;
    }
  }

  // ---------------------------------------------------------------------
  // The resume decision (lines 49-67)

  /** os.Stat(localPath): the file's size, or the error. */
  datatype StatResult = StatFailed(err: Error) | Stat(size: int64)

  /** http.Head(remoteURL): the ContentLength (-1 when the response has
      none), or the error. */
  datatype HeadResult = HeadFailed(err: Error) | Head(contentLength: int64)

  /** isLocalFileComplete: the local file is complete when its size
      equals the Content-Length the server announces. */
  function IsLocalFileComplete(stat: StatResult, head: HeadResult, remoteURL: string): Result<bool>
  {
    if stat.StatFailed? then Failure(stat.err)
    else if head.HeadFailed? then Failure(head.err)
    else if head.contentLength == -1 then
      Failure(Error("missing Content-Length in response for " + remoteURL))
    else Success(stat.size == head.contentLength)
  }

  /** The file counts as complete exactly when both calls succeed, the
      length is present and the sizes agree; it fails exactly when a call
      fails or the length is missing. */
  lemma CompleteIffSizesAgree(stat: StatResult, head: HeadResult, url: string)
    ensures IsLocalFileComplete(stat, head, url) == Success(true) <==>
      stat.Stat? && head.Head? && head.contentLength != -1 && stat.size == head.contentLength
    ensures IsLocalFileComplete(stat, head, url).Failure? <==>
      stat.StatFailed? || head.HeadFailed? || head.contentLength == -1
    ensures stat.StatFailed? ==> IsLocalFileComplete(stat, head, url) == Failure(stat.err)
  {
  }

  // ---------------------------------------------------------------------
  // Copying a response body

  /** How one Read call on the body ends: more to come, io.EOF, or
      another error. A list that runs out behaves as io.EOF. */
  datatype ReadEnd = More | AtEof | Broken(err: Error)

  /** One Read call: the bytes it delivers and how it ends. */
  datatype BodyRead = BodyRead(data: seq<byte>, end: ReadEnd)

  /** Why copying stopped. */
  datatype Stop = Drained | ReadFailed(err: Error) | WriteFailed(err: Error)

  /** The file contents, the byte count after each write, and why the
      copy stopped. */
  datatype Copied = Copied(data: seq<byte>, counts: seq<nat>, stop: Stop)

  /** The copy loop from read i on, with written already in the file:
      each non-empty read is written (writeErr(i) is what that Write
      returns), then its end decides whether to go on. */
  function CopyFrom(body: seq<BodyRead>, writeErr: nat -> Option<Error>, i: nat, written: seq<byte>): Copied
    requires i <= |body|
    decreases |body| - i
  {
    if i == |body| then Copied(written, [], Drained)
    else
      var r := body[i];
      if |r.data| > 0 && writeErr(i).Some? then Copied(written, [], WriteFailed(writeErr(i).value))
      else
        var w := written + r.data;
        var c := if |r.data| > 0 then [|w|] else [];
        match r.end
        case More =>
          var rest := CopyFrom(body, writeErr, i + 1, w);
          Copied(rest.data, c + rest.counts, rest.stop)
        case AtEof => Copied(w, c, Drained)
        case Broken(e) => Copied(w, c, ReadFailed(e))
  }

  /** The bytes the body delivers from read i to its end. */
  function BodyBytes(body: seq<BodyRead>, i: nat): seq<byte>
    requires i <= |body|
    decreases |body| - i
  {
    if i == |body| then []
    else if body[i].end.More? then body[i].data + BodyBytes(body, i + 1)
    else body[i].data
  }

  /** The error the body ends with, if any. */
  function BodyError(body: seq<BodyRead>, i: nat): Option<Error>
    requires i <= |body|
    decreases |body| - i
  {
    if i == |body| then None
    else if body[i].end.More? then BodyError(body, i + 1)
    else if body[i].end.Broken? then Some(body[i].end.err)
    else None
  }

  /** When no write fails, the file receives exactly the bytes the body
      delivers, and the copy stops with the body's error, if any. */
  lemma {:induction false} CopyWritesBody(body: seq<BodyRead>, writeErr: nat -> Option<Error>, i: nat, written: seq<byte>)
    requires i <= |body|
    requires forall j | i <= j < |body| :: writeErr(j).None?
    ensures var r := CopyFrom(body, writeErr, i, written);
      && r.data == written + BodyBytes(body, i)
      && (r.stop == if BodyError(body, i).Some? then ReadFailed(BodyError(body, i).value) else Drained)
    decreases |body| - i
  {
    if i == |body| {
      assert written + [] == written;
    } else if body[i].end.More? {
      CopyWritesBody(body, writeErr, i + 1, written + body[i].data);
      assert written + body[i].data + BodyBytes(body, i + 1) == written + (body[i].data + BodyBytes(body, i + 1));
    }
  }

  /** The byte counts rise strictly, start above what was already
      written, and end at the final size of the file. */
  lemma CopyCountsRise(body: seq<BodyRead>, writeErr: nat -> Option<Error>, i: nat, written: seq<byte>)
    requires i <= |body|
    ensures var r := CopyFrom(body, writeErr, i, written);
      && written <= r.data
      && (forall a, b | 0 <= a < b < |r.counts| :: r.counts[a] < r.counts[b])
      && (forall a | 0 <= a < |r.counts| :: |written| < r.counts[a] <= |r.data|)
      && (r.counts != [] ==> r.counts[|r.counts| - 1] == |r.data|)
      && (r.counts == [] ==> r.data == written)
  {
    CopyCountsBounded(body, writeErr, i, written);
    CopyCountsIncrease(body, writeErr, i, written);
  }

  /** Every count lies above what was already written and within the
      file; the last is the file's size. */
  lemma {:induction false} CopyCountsBounded(body: seq<BodyRead>, writeErr: nat -> Option<Error>, i: nat, written: seq<byte>)
    requires i <= |body|
    ensures var r := CopyFrom(body, writeErr, i, written);
      && written <= r.data
      && (forall a | 0 <= a < |r.counts| :: |written| < r.counts[a] <= |r.data|)
      && (r.counts != [] ==> r.counts[|r.counts| - 1] == |r.data|)
      && (r.counts == [] ==> r.data == written)
    decreases |body| - i
  {
    if i < |body| && !(|body[i].data| > 0 && writeErr(i).Some?) && body[i].end.More? {
      CopyCountsBounded(body, writeErr, i + 1, written + body[i].data);
    }
  }

  /** The counts rise strictly. */
  lemma {:induction false} CopyCountsIncrease(body: seq<BodyRead>, writeErr: nat -> Option<Error>, i: nat, written: seq<byte>)
    requires i <= |body|
    ensures var r := CopyFrom(body, writeErr, i, written);
      forall a, b | 0 <= a < b < |r.counts| :: r.counts[a] < r.counts[b]
    decreases |body| - i
  {
    if i < |body| && !(|body[i].data| > 0 && writeErr(i).Some?) && body[i].end.More? {
      var w := written + body[i].data;
      CopyCountsBounded(body, writeErr, i + 1, w);
      CopyCountsIncrease(body, writeErr, i + 1, w);
    }
  }

  /** The file never holds more than the body delivers: what the copy
      writes is a prefix of the body's bytes. */
  lemma {:induction false} CopyWithinBody(body: seq<BodyRead>, writeErr: nat -> Option<Error>, i: nat, written: seq<byte>)
    requires i <= |body|
    ensures CopyFrom(body, writeErr, i, written).data <= written + BodyBytes(body, i)
    decreases |body| - i
  {
    if i == |body| {
      assert written + [] == written;
    } else if !(|body[i].data| > 0 && writeErr(i).Some?) {
      var w := written + body[i].data;
      if body[i].end.More? {
        CopyWithinBody(body, writeErr, i + 1, w);
        assert w + BodyBytes(body, i + 1) == written + BodyBytes(body, i);
      }
    }
  }

  /** Read j is written and the loop goes round after it. */
  predicate Continues(body: seq<BodyRead>, writeErr: nat -> Option<Error>, j: nat)
    requires j < |body|
  {
    body[j].end.More? && !(|body[j].data| > 0 && writeErr(j).Some?)
  }

  /** The read from i on at which the copy stops: the first that is not
      followed by more reads, or whose Write fails, or |body|. */
  function CopyStop(body: seq<BodyRead>, writeErr: nat -> Option<Error>, i: nat): (k: nat)
    requires i <= |body|
    ensures i <= k <= |body|
    ensures forall j | i <= j < k :: Continues(body, writeErr, j)
    ensures k < |body| ==> !Continues(body, writeErr, k)
    decreases |body| - i
  {
    if i == |body| || !Continues(body, writeErr, i) then i else CopyStop(body, writeErr, i + 1)
  }

  /** The reads the copy writes: those before the stop, and the stopping
      read itself unless its Write fails. */
  function WrittenEnd(body: seq<BodyRead>, writeErr: nat -> Option<Error>, i: nat): (e: nat)
    requires i <= |body|
    ensures i <= e <= |body|
  {
    var k := CopyStop(body, writeErr, i);
    if k < |body| && !(|body[k].data| > 0 && writeErr(k).Some?) then k + 1 else k
  }

  /** The data of the reads that returned n > 0, in order. */
  function NonEmptyReads(rs: seq<BodyRead>): seq<seq<byte>>
  {
    if rs == [] then []
    else (if |rs[0].data| > 0 then [rs[0].data] else []) + NonEmptyReads(rs[1..])
  }

  /** The file size after each piece is appended to base bytes. */
  function RunningSizes(base: nat, pieces: seq<seq<byte>>): (sizes: seq<nat>)
    ensures |sizes| == |pieces|
    decreases |pieces|
  {
    if pieces == [] then [] else [base + |pieces[0]|] + RunningSizes(base + |pieces[0]|, pieces[1..])
  }

  lemma {:induction false} RunningSizesAt(base: nat, pieces: seq<seq<byte>>, j: nat)
    requires j < |pieces|
    ensures RunningSizes(base, pieces)[j] == base + |Concat(pieces[..j + 1])|
    decreases j
  {
    assert pieces[..j + 1] == [pieces[0]] + pieces[1..][..j];
    ConcatCons(pieces[0], pieces[1..][..j]);
    if j == 0 {
      assert pieces[1..][..0] == [];
    } else {
      RunningSizesAt(base + |pieces[0]|, pieces[1..], j - 1);
    }
  }

  /** From read i on, the copy writes the non-empty reads up to its stop
      and reports their running sizes. */
  predicate CopyMatches(body: seq<BodyRead>, writeErr: nat -> Option<Error>, i: nat, written: seq<byte>)
    requires i <= |body|
  {
    var ne := NonEmptyReads(body[i..WrittenEnd(body, writeErr, i)]);
    var r := CopyFrom(body, writeErr, i, written);
    r.data == written + Concat(ne) && r.counts == RunningSizes(|written|, ne)
  }

  lemma CopyMatchesAtStop(body: seq<BodyRead>, writeErr: nat -> Option<Error>, i: nat, written: seq<byte>)
    requires i < |body| && !Continues(body, writeErr, i)
    ensures CopyMatches(body, writeErr, i, written)
  {
    var d := body[i].data;
    if |d| > 0 && writeErr(i).Some? {
      assert body[i..i] == [];
      assert written + [] == written;
    } else {
      var rs := body[i..i + 1];
      assert rs[0] == body[i] && rs[1..] == [];
      var ne := NonEmptyReads(rs);
      assert ne == (if |d| > 0 then [d] else []) + NonEmptyReads([]);
      if |d| > 0 {
        var one: seq<seq<byte>> := [d];
        assert ne == one && one[1..] == [];
        ConcatCons(d, []);
        assert d + [] == d;
      } else {
        assert ne == [];
        assert written + d == written + [];
      }
    }
  }

  lemma CopyMatchesGoingRound(body: seq<BodyRead>, writeErr: nat -> Option<Error>, i: nat, written: seq<byte>)
    requires i < |body| && Continues(body, writeErr, i)
    requires CopyMatches(body, writeErr, i + 1, written + body[i].data)
    ensures CopyMatches(body, writeErr, i, written)
  {
    var d := body[i].data;
    var w := written + d;
    var e := WrittenEnd(body, writeErr, i + 1);
    assert WrittenEnd(body, writeErr, i) == e;
    assert body[i..e][0] == body[i] && body[i..e][1..] == body[i + 1..e];
    var ne' := NonEmptyReads(body[i + 1..e]);
    var r' := CopyFrom(body, writeErr, i + 1, w);
    if |d| == 0 {
      assert w == written;
      assert NonEmptyReads(body[i..e]) == ne';
    } else {
      var ne := [d] + ne';
      assert NonEmptyReads(body[i..e]) == ne;
      ConcatCons(d, ne');
      assert ne[0] == d && ne[1..] == ne';
      assert RunningSizes(|written|, ne) == [|w|] + RunningSizes(|w|, ne');
    }
  }

  lemma {:induction false} CopyMatchesFrom(body: seq<BodyRead>, writeErr: nat -> Option<Error>, i: nat, written: seq<byte>)
    requires i <= |body|
    ensures CopyMatches(body, writeErr, i, written)
    decreases |body| - i
  {
    if i == |body| {
      assert body[i..i] == [];
      assert written + [] == written;
    } else if Continues(body, writeErr, i) {
      CopyMatchesFrom(body, writeErr, i + 1, written + body[i].data);
      CopyMatchesGoingRound(body, writeErr, i, written);
    } else {
      CopyMatchesAtStop(body, writeErr, i, written);
    }
  }

  /** The copy reports exactly one count per read with n > 0 that it
      writes, and each count is the number of bytes written so far
      (downloaded, in downloadChunk2): the file is what was there plus
      those reads' bytes, and the counts are the running sizes. */
  lemma CopyReportsEveryRead(body: seq<BodyRead>, writeErr: nat -> Option<Error>, i: nat, written: seq<byte>)
    requires i <= |body|
    ensures var ne := NonEmptyReads(body[i..WrittenEnd(body, writeErr, i)]);
      var r := CopyFrom(body, writeErr, i, written);
      && r.data == written + Concat(ne)
      && |r.counts| == |ne|
      && (forall j | 0 <= j < |r.counts| :: r.counts[j] == |written| + |Concat(ne[..j + 1])|)
  {
    CopyMatchesFrom(body, writeErr, i, written);
    var ne := NonEmptyReads(body[i..WrittenEnd(body, writeErr, i)]);
    forall j | 0 <= j < |ne| ensures RunningSizes(|written|, ne)[j] == |written| + |Concat(ne[..j + 1])| {
      RunningSizesAt(|written|, ne, j);
    }
  }

  // ---------------------------------------------------------------------
  // Fetching a chunk

  /** The response to the GET: its ContentLength and its body's reads. */
  datatype GetResult = GetFailed(err: Error) | Response(contentLength: int64, body: seq<BodyRead>)

  /** Everything a chunk fetch learns from outside. */
  datatype ChunkIO = ChunkIO(stat: StatResult, head: HeadResult, get: GetResult,
                             createErr: Option<Error>, writeErr: nat -> Option<Error>)

  /** The local chunk file: left alone, or created (emptied) with this
      contents. */
  datatype FileState = Untouched | Written(data: seq<byte>)

  /** What a fetch sends, leaves on disk and returns. */
  datatype Fetch = Fetch(events: seq<ProgressUpdate>, file: FileState, err: Option<Error>)

  /** One Transferred update per byte count. */
  function Transfers(chunkName: string, counts: seq<nat>, total: nat): (evs: seq<ProgressUpdate>)
    ensures |evs| == |counts|
    ensures forall j | 0 <= j < |counts| :: evs[j] == ProgressUpdate(chunkName, Transferred(counts[j], total))
  {
    if counts == [] then []
    else Transfers(chunkName, counts[..|counts| - 1], total)
         + [ProgressUpdate(chunkName, Transferred(counts[|counts| - 1], total))]
  }

  /** downloadChunk2(url, path, ..., chunkName): skip a complete local
      file, else GET, create, check the length and copy with progress. */
  function FetchChunk2(url: string, chunkName: string, io: ChunkIO): Fetch
  {
    var check := IsLocalFileComplete(io.stat, io.head, url);
    if io.stat.Stat? && check.Failure? then
      Fetch([], Untouched, Some(Error("  [!] Error checking remote file: " + check.error.msg + "\n")))
    else if io.stat.Stat? && check.value then
      Fetch([ProgressUpdate(chunkName, Complete)], Untouched, None)
    else if io.get.GetFailed? then
      Fetch([], Untouched, Some(Error("http get failed: " + io.get.err.msg)))
    else if io.createErr.Some? then
      Fetch([], Untouched, Some(Error("create file failed: " + io.createErr.value.msg)))
    else if io.get.contentLength <= 0 then
      Fetch([], Written([]), Some(Error("invalid content length: " + GoStrings.FormatInt(io.get.contentLength))))
    else
      var total := io.get.contentLength;
      var c := CopyFrom(io.get.body, io.writeErr, 0, []);
      var evs := Transfers(chunkName, c.counts, total);
      match c.stop
      case Drained => Fetch(evs + [ProgressUpdate(chunkName, Complete)], Written(c.data), None)
      case ReadFailed(e) => Fetch(evs, Written(c.data), Some(Error("read failed: " + e.msg)))
      case WriteFailed(e) => Fetch(evs, Written(c.data), Some(Error("write failed: " + e.msg)))
  }

  /** downloadChunk2 with its read/write loop. */
  method DownloadChunk2(url: string, path: string, chunkName: string, io: ChunkIO)
    returns (events: seq<ProgressUpdate>, file: FileState, err: Option<Error>)
    ensures Fetch(events, file, err) == FetchChunk2(url, chunkName, io)
  {
    events, file := [], Untouched;
    if io.stat.Stat? {
      var check := IsLocalFileComplete(io.stat, io.head, url);
      if check.Failure? {
        return events, file, Some(Error("  [!] Error checking remote file: " + check.error.msg + "\n"));
      } else if check.value {
        events := events + [ProgressUpdate(chunkName, Complete)];
        return events, file, None;
      }
    }
    if io.get.GetFailed? {
      return events, file, Some(Error("http get failed: " + io.get.err.msg));
    }
    if io.createErr.Some? {
      return events, file, Some(Error("create file failed: " + io.createErr.value.msg));
    }
    file := Written([]);
    var total := io.get.contentLength;
    if total <= 0 {
      return events, file, Some(Error("invalid content length: " + GoStrings.FormatInt(total)));
    }
    var stop;
    events, file, stop := CopyWithProgress(chunkName, io.get.body, io.writeErr, total);
    CopyOnResumes(io.get.body, io.writeErr, 0, [], []);
    assert [] + CopyFrom(io.get.body, io.writeErr, 0, []).counts == CopyFrom(io.get.body, io.writeErr, 0, []).counts;
    match stop {
      case Drained =>
        events := events + [ProgressUpdate(chunkName, Complete)];
        err := None;
      case ReadFailed(e) =>
        err := Some(Error("read failed: " + e.msg));
      case WriteFailed(e) =>
        err := Some(Error("write failed: " + e.msg));
    }
  }

  /** One more count adds one Transferred update at the end. */
  lemma TransfersSnoc(chunkName: string, counts: seq<nat>, d: nat, total: nat)
    ensures Transfers(chunkName, counts + [d], total)
      == Transfers(chunkName, counts, total) + [ProgressUpdate(chunkName, Transferred(d, total))]
  {
    assert (counts + [d])[..|counts|] == counts;
  }

  /** The same copy loop with the counts so far carried along, the shape
      the loop of CopyWithProgress takes step by step. */
  function CopyOn(body: seq<BodyRead>, writeErr: nat -> Option<Error>, i: nat, written: seq<byte>, counts: seq<nat>): Copied
    requires i <= |body|
    decreases |body| - i
  {
    if i == |body| then Copied(written, counts, Drained)
    else
      var r := body[i];
      if |r.data| > 0 && writeErr(i).Some? then Copied(written, counts, WriteFailed(writeErr(i).value))
      else
        var w := written + r.data;
        var c := counts + if |r.data| > 0 then [|w|] else [];
        match r.end
        case More => CopyOn(body, writeErr, i + 1, w, c)
        case AtEof => Copied(w, c, Drained)
        case Broken(e) => Copied(w, c, ReadFailed(e))
  }

  /** Carrying the counts along is the copy from read i on with those
      counts in front. */
  lemma {:induction false} CopyOnResumes(body: seq<BodyRead>, writeErr: nat -> Option<Error>, i: nat, written: seq<byte>, counts: seq<nat>)
    requires i <= |body|
    ensures var rest := CopyFrom(body, writeErr, i, written);
      CopyOn(body, writeErr, i, written, counts) == Copied(rest.data, counts + rest.counts, rest.stop)
    decreases |body| - i
  {
    if i == |body| {
      assert counts + [] == counts;
    } else {
      var r := body[i];
      if |r.data| > 0 && writeErr(i).Some? {
        assert counts + [] == counts;
      } else {
        var w := written + r.data;
        var c := if |r.data| > 0 then [|w|] else [];
        match r.end
        case More =>
          CopyOnResumes(body, writeErr, i + 1, w, counts + c);
          var rest := CopyFrom(body, writeErr, i + 1, w);
          assert (counts + c) + rest.counts == counts + (c + rest.counts);
        case AtEof =>
          assert counts + c + [] == counts + c;
        case Broken(e) =>
          assert counts + c + [] == counts + c;
      }
    }
  }

  /** The loop of downloadChunk2 (lines 158-177): read, write, count,
      report. downloaded is always the size of the file so far. */
  method CopyWithProgress(chunkName: string, body: seq<BodyRead>, writeErr: nat -> Option<Error>, total: nat)
    returns (events: seq<ProgressUpdate>, file: FileState, stop: Stop)
    ensures var c := CopyOn(body, writeErr, 0, [], []);
      events == Transfers(chunkName, c.counts, total) && file == Written(c.data) && stop == c.stop
  {
    ghost var whole := CopyOn(body, writeErr, 0, [], []);
    var data: seq<byte> := [];
    var downloaded := 0;
    ghost var counts: seq<nat> := [];
    events := [];
    var i := 0;
    while i < |body|
      invariant 0 <= i <= |body|
      invariant downloaded == |data|
      invariant events == Transfers(chunkName, counts, total)
      invariant whole == CopyOn(body, writeErr, i, data, counts)
      decreases |body| - i
    {
      var r := body[i];
      if |r.data| > 0 {
        var writeError := writeErr(i);
        if writeError.Some? {
          return events, Written(data), WriteFailed(writeError.value);
        }
        data := data + r.data;
        downloaded := downloaded + |r.data|;
        TransfersSnoc(chunkName, counts, downloaded, total);
        counts := counts + [downloaded];
        events := events + [ProgressUpdate(chunkName, Transferred(downloaded, total))];
      } else {
        assert data + r.data == data;
        assert counts + [] == counts;
      }
      match r.end {
        case More =>
          i := i + 1;
        case AtEof =>
          return events, Written(data), Drained;
        case Broken(e) =>
          return events, Written(data), ReadFailed(e);
      }
    }
    return events, Written(data), Drained;
  }

  /** A Content-Length of zero or less is refused after the file has been
      created, so the chunk file is left empty and no progress is sent. */
  lemma InvalidLengthLeavesEmptyFile(url: string, chunkName: string, io: ChunkIO)
    requires io.get.Response? && io.createErr.None? && io.get.contentLength <= 0
    requires !(io.stat.Stat? && IsLocalFileComplete(io.stat, io.head, url) != Success(false))
    ensures FetchChunk2(url, chunkName, io) ==
      Fetch([], Written([]), Some(Error("invalid content length: " + GoStrings.FormatInt(io.get.contentLength))))
  {
  }

  /** A local file of the announced size is skipped: one Complete update,
      no request for the body, the file left alone. A failed check is
      returned without any update. */
  lemma SkipOrFailCheck(url: string, chunkName: string, io: ChunkIO)
    requires io.stat.Stat?
    ensures var f := FetchChunk2(url, chunkName, io);
      && (IsLocalFileComplete(io.stat, io.head, url) == Success(true) ==>
            f == Fetch([ProgressUpdate(chunkName, Complete)], Untouched, None))
      && (IsLocalFileComplete(io.stat, io.head, url).Failure? ==> f.events == [] && f.file == Untouched && f.err.Some?)
  {
  }

  /** A successful transfer writes the whole body and ends with exactly
      one Complete update after the byte counts, which rise strictly and
      end at the size of the file; a read or write error leaves out the
      Complete update. */
  lemma FetchOutcome(url: string, chunkName: string, io: ChunkIO)
    requires io.get.Response? && io.createErr.None? && io.get.contentLength > 0
    requires !(io.stat.Stat? && IsLocalFileComplete(io.stat, io.head, url) != Success(false))
    ensures var f := FetchChunk2(url, chunkName, io);
      && f.file.Written?
      && (f.err.None? <==> f.events != [] && f.events[|f.events| - 1] == ProgressUpdate(chunkName, Complete))
      && (forall j | 0 <= j < |f.events| - 1 :: f.events[j].progress.Transferred?)
      && (f.err.Some? ==> forall j | 0 <= j < |f.events| :: f.events[j].progress.Transferred?)
      && (forall j | 0 <= j < |f.events| && f.events[j].progress.Transferred? ::
            f.events[j].progress.downloaded <= |f.file.data| && f.events[j].progress.total == io.get.contentLength)
      && (forall a, b | 0 <= a < b < |f.events| && f.events[b].progress.Transferred? ::
            f.events[a].progress.Transferred? && f.events[a].progress.downloaded < f.events[b].progress.downloaded)
  {
    CopyCountsRise(io.get.body, io.writeErr, 0, []);
  }

  /** With no write failing, the chunk file holds exactly what the body
      delivered, and the fetch succeeds exactly when the body ends
      without an error. */
  lemma FetchWritesBody(url: string, chunkName: string, io: ChunkIO)
    requires io.get.Response? && io.createErr.None? && io.get.contentLength > 0
    requires !(io.stat.Stat? && IsLocalFileComplete(io.stat, io.head, url) != Success(false))
    requires forall j | 0 <= j < |io.get.body| :: io.writeErr(j).None?
    ensures var f := FetchChunk2(url, chunkName, io);
      && f.file == Written(BodyBytes(io.get.body, 0))
      && (f.err.None? <==> BodyError(io.get.body, 0).None?)
  {
    CopyWritesBody(io.get.body, io.writeErr, 0, []);
    assert [] + BodyBytes(io.get.body, 0) == BodyBytes(io.get.body, 0);
  }

  /** downloadChunk, the older fetcher: the same decision, no progress,
      no length check, and io.Copy's error returned as it is. */
  function FetchChunk(url: string, io: ChunkIO): (FileState, Option<Error>)
  {
    var check := IsLocalFileComplete(io.stat, io.head, url);
    if io.stat.Stat? && check.Failure? then
      (Untouched, Some(Error("  [!] Error checking remote remote file: " + check.error.msg + "\n")))
    else if io.stat.Stat? && check.value then (Untouched, None)
    else if io.get.GetFailed? then (Untouched, Some(Error("http get failed: " + io.get.err.msg)))
    else if io.createErr.Some? then (Untouched, Some(Error("create file failed: " + io.createErr.value.msg)))
    else
      var c := CopyFrom(io.get.body, io.writeErr, 0, []);
      (Written(c.data), match c.stop case Drained => None case ReadFailed(e) => Some(e) case WriteFailed(e) => Some(e))
  }

  /** The two fetchers write the same file and fail in the same cases,
      except that only downloadChunk2 rejects a missing or zero length. */
  lemma FetchersAgree(url: string, chunkName: string, io: ChunkIO)
    requires io.get.Response? ==> io.get.contentLength > 0
    ensures FetchChunk(url, io).0 == FetchChunk2(url, chunkName, io).file
    ensures FetchChunk(url, io).1.None? <==> FetchChunk2(url, chunkName, io).err.None?
  {
  }

  // ---------------------------------------------------------------------
  // Download (lines 69-98)

  /** The metadata of one shard: the key prefix and the chunk names. */
  datatype Metadata = Metadata(keyBase: string, chunks: seq<string>)

  /** The updates for one chunk: 0.0 first, then what its fetch sends,
      then the 200.0 sentinel, whether or not the fetch failed. */
  function ChunkBracket(chunkName: string, f: Fetch): seq<ProgressUpdate>
  {
    [ProgressUpdate(chunkName, Started)] + f.events + [ProgressUpdate(chunkName, Finished)]
  }

  /** What Download sends, prints and leaves on disk. */
  datatype DownloadRun = DownloadRun(events: seq<ProgressUpdate>, printed: seq<string>, files: map<string, FileState>)

  /** The line printed for a failed chunk. */
  function ErrorLine(chunkName: string, e: Error): string
  {
    "  [!] Error downloading " + chunkName + ": " + e.msg + "\n"
  }

  /** Download's fetch loop when the chunks are fetched one at a time, in
      list order: each chunk's updates are bracketed by 0.0 and the 200.0
      sentinel, whether or not its fetch failed, a failure is printed, and
      the chunk file is left at outputDir/name. */
  function RunChunks(baseURL: string, outputDir: string, chunks: seq<string>, ioOf: string -> ChunkIO): DownloadRun
  {
    if chunks == [] then DownloadRun([], [], map[])
    else
      var prev := RunChunks(baseURL, outputDir, chunks[..|chunks| - 1], ioOf);
      var last := chunks[|chunks| - 1];
      var f := FetchChunk2(baseURL + "/" + last, last, ioOf(last));
      DownloadRun(prev.events + ChunkBracket(last, f),
                  prev.printed + (if f.err.Some? then [ErrorLine(last, f.err.value)] else []),
                  prev.files[Paths.Join(outputDir, last) := f.file])
  }

  /** Download(shard, metadata): create the shard directory (mkdirErr is
      what os.MkdirAll returns), then fetch every chunk. ioOf(chunk) is the
      outside world as that chunk's fetch sees it. */
  method Download(shard: int, metadata: Metadata, endpointURL: string, outputBasePath: string,
                  mkdirErr: Option<Error>, ioOf: string -> ChunkIO)
    returns (events: seq<ProgressUpdate>, printed: seq<string>, files: map<string, FileState>)
    ensures mkdirErr.Some? ==>
      events == [] && files == map[] && printed == ["Error creating output directory: " + mkdirErr.value.msg + "\n"]
    ensures mkdirErr.None? ==>
      DownloadRun(events, printed, files) ==
        RunChunks(endpointURL + "/" + metadata.keyBase,
                  Paths.Join(outputBasePath, "shard-" + GoStrings.FormatInt(shard)), metadata.chunks, ioOf)
  {
    var baseURL := endpointURL + "/" + metadata.keyBase;
    var outputDir := Paths.Join(outputBasePath, "shard-" + GoStrings.FormatInt(shard));
    events, printed, files := [], [], map[];
    if mkdirErr.Some? {
      printed := ["Error creating output directory: " + mkdirErr.value.msg + "\n"];
      return;
    }
    var i := 0;
    while i < |metadata.chunks|
      invariant 0 <= i <= |metadata.chunks|
      invariant DownloadRun(events, printed, files) == RunChunks(baseURL, outputDir, metadata.chunks[..i], ioOf)
    {
      var chunk := metadata.chunks[i];
      var bracket, lines, file := FetchOne(baseURL, outputDir, chunk, ioOf(chunk));
      RunChunksStep(baseURL, outputDir, metadata.chunks, i, ioOf);
      events, printed := events + bracket, printed + lines;
      files := files[Paths.Join(outputDir, chunk) := file];
      i := i + 1;
    }
    assert metadata.chunks[..i] == metadata.chunks;
  }

  /** One turn of Download's loop (lines 86-95): 0.0, the fetch, any error
      line, and the 200.0 sentinel. */
  method FetchOne(baseURL: string, outputDir: string, chunk: string, io: ChunkIO)
    returns (bracket: seq<ProgressUpdate>, lines: seq<string>, file: FileState)
    ensures var f := FetchChunk2(baseURL + "/" + chunk, chunk, io);
      && bracket == ChunkBracket(chunk, f) && file == f.file
      && lines == (if f.err.Some? then [ErrorLine(chunk, f.err.value)] else [])
  {
    var url := baseURL + "/" + chunk;
    bracket := [ProgressUpdate(chunk, Started)];
    var evs, err;
    evs, file, err := DownloadChunk2(url, Paths.Join(outputDir, chunk), chunk, io);
    lines := [];
    if err.Some? {
      lines := [ErrorLine(chunk, err.value)];
    }
    bracket := bracket + evs + [ProgressUpdate(chunk, Finished)];
  }

  lemma RunChunksStep(baseURL: string, outputDir: string, chunks: seq<string>, i: nat, ioOf: string -> ChunkIO)
    requires i < |chunks|
    ensures var prev := RunChunks(baseURL, outputDir, chunks[..i], ioOf);
      var f := FetchChunk2(baseURL + "/" + chunks[i], chunks[i], ioOf(chunks[i]));
      RunChunks(baseURL, outputDir, chunks[..i + 1], ioOf) ==
        DownloadRun(prev.events + ChunkBracket(chunks[i], f),
                    prev.printed + (if f.err.Some? then [ErrorLine(chunks[i], f.err.value)] else []),
                    prev.files[Paths.Join(outputDir, chunks[i]) := f.file])
  {
    assert chunks[..i + 1][..i] == chunks[..i];
  }

  /** Every chunk of the list has its file entry after the loop. */
  lemma {:induction false} EveryChunkHasAFile(baseURL: string, outputDir: string, chunks: seq<string>, ioOf: string -> ChunkIO)
    ensures forall c | c in chunks :: Paths.Join(outputDir, c) in RunChunks(baseURL, outputDir, chunks, ioOf).files
    ensures forall p | p in RunChunks(baseURL, outputDir, chunks, ioOf).files ::
      exists c | c in chunks :: p == Paths.Join(outputDir, c)
    decreases |chunks|
  {
    if chunks != [] {
      var init := chunks[..|chunks| - 1];
      EveryChunkHasAFile(baseURL, outputDir, init, ioOf);
      assert chunks == init + [chunks[|chunks| - 1]];
      forall p | p in RunChunks(baseURL, outputDir, chunks, ioOf).files
        ensures exists c | c in chunks :: p == Paths.Join(outputDir, c)
      {
        if p != Paths.Join(outputDir, chunks[|chunks| - 1]) {
          var c :| c in init && p == Paths.Join(outputDir, c);
          assert c in chunks;
        }
      }
    }
  }

  /** One error line per failed fetch, at most one per chunk. */
  lemma {:induction false} AtMostOneLinePerChunk(baseURL: string, outputDir: string, chunks: seq<string>, ioOf: string -> ChunkIO)
    ensures |RunChunks(baseURL, outputDir, chunks, ioOf).printed| <= |chunks|
    ensures |RunChunks(baseURL, outputDir, chunks, ioOf).events| >= 2 * |chunks|
    decreases |chunks|
  {
    if chunks != [] {
      AtMostOneLinePerChunk(baseURL, outputDir, chunks[..|chunks| - 1], ioOf);
    }
  }

  /** The number of sentinel updates in a list. */
  function CountFinished(evs: seq<ProgressUpdate>): nat
  {
    if evs == [] then 0
    else CountFinished(evs[..|evs| - 1]) + (if evs[|evs| - 1].progress.Finished? then 1 else 0)
  }

  lemma {:induction false} CountFinishedAppend(a: seq<ProgressUpdate>, b: seq<ProgressUpdate>)
    ensures CountFinished(a + b) == CountFinished(a) + CountFinished(b)
    decreases |b|
  {
    if b == [] {
      assert a + b == a;
    } else {
      assert (a + b)[..|a + b| - 1] == a + b[..|b| - 1];
      CountFinishedAppend(a, b[..|b| - 1]);
    }
  }

  /** A fetch never sends the sentinel itself. */
  lemma {:induction false} TransfersHaveNoSentinel(chunkName: string, counts: seq<nat>, total: nat)
    ensures CountFinished(Transfers(chunkName, counts, total)) == 0
    decreases |counts|
  {
    if counts != [] {
      var evs := Transfers(chunkName, counts, total);
      assert evs[..|evs| - 1] == Transfers(chunkName, counts[..|counts| - 1], total);
      TransfersHaveNoSentinel(chunkName, counts[..|counts| - 1], total);
    }
  }

  lemma FetchHasNoSentinel(url: string, chunkName: string, io: ChunkIO)
    ensures CountFinished(FetchChunk2(url, chunkName, io).events) == 0
  {
    var f := FetchChunk2(url, chunkName, io);
    if io.get.Response? && io.get.contentLength > 0 {
      var c := CopyFrom(io.get.body, io.writeErr, 0, []);
      var evs := Transfers(chunkName, c.counts, io.get.contentLength);
      TransfersHaveNoSentinel(chunkName, c.counts, io.get.contentLength);
      CountFinishedAppend(evs, [ProgressUpdate(chunkName, Complete)]);
      assert CountFinished([ProgressUpdate(chunkName, Complete)]) == 0;
    }
    assert CountFinished([ProgressUpdate(chunkName, Complete)]) == 0;
  }

  /** Download sends exactly one 200.0 sentinel per chunk. */
  lemma {:induction false} OneSentinelPerChunk(baseURL: string, outputDir: string, chunks: seq<string>, ioOf: string -> ChunkIO)
    ensures CountFinished(RunChunks(baseURL, outputDir, chunks, ioOf).events) == |chunks|
    decreases |chunks|
  {
    if chunks != [] {
      var last := chunks[|chunks| - 1];
      var f := FetchChunk2(baseURL + "/" + last, last, ioOf(last));
      OneSentinelPerChunk(baseURL, outputDir, chunks[..|chunks| - 1], ioOf);
      FetchHasNoSentinel(baseURL + "/" + last, last, ioOf(last));
      CountFinishedAppend([ProgressUpdate(last, Started)], f.events);
      CountFinishedAppend([ProgressUpdate(last, Started)] + f.events, [ProgressUpdate(last, Finished)]);
      assert CountFinished([ProgressUpdate(last, Started)]) == 0;
      assert CountFinished([ProgressUpdate(last, Finished)]) == 1;
      CountFinishedAppend(RunChunks(baseURL, outputDir, chunks[..|chunks| - 1], ioOf).events, ChunkBracket(last, f));
    }
  }

  /** The last record Download sends is the sentinel of the last chunk. */
  lemma RunChunksEndsWithSentinel(baseURL: string, outputDir: string, chunks: seq<string>, ioOf: string -> ChunkIO)
    requires chunks != []
    ensures var evs := RunChunks(baseURL, outputDir, chunks, ioOf).events;
      evs != [] && evs[|evs| - 1] == ProgressUpdate(chunks[|chunks| - 1], Finished)
  {
    var last := chunks[|chunks| - 1];
    var b := ChunkBracket(last, FetchChunk2(baseURL + "/" + last, last, ioOf(last)));
    assert b[|b| - 1] == ProgressUpdate(last, Finished);
  }

  /** What a view needs to know of the records Download sends: one
      sentinel per chunk, the last record a sentinel and, when no body is
      longer than its Content-Length, no count above its total. */
  lemma RunChunksFeedFacts(baseURL: string, outputDir: string, chunks: seq<string>, ioOf: string -> ChunkIO)
    requires chunks != []
    requires forall c | c in chunks :: BodyWithinLength(ioOf(c))
    ensures var evs := RunChunks(baseURL, outputDir, chunks, ioOf).events;
      && evs != [] && evs[|evs| - 1].progress.Finished?
      && CountFinished(evs) == |chunks| && CountsWithinTotals(evs)
  {
    OneSentinelPerChunk(baseURL, outputDir, chunks, ioOf);
    RunChunksWithinTotals(baseURL, outputDir, chunks, ioOf);
    RunChunksEndsWithSentinel(baseURL, outputDir, chunks, ioOf);
  }

  /** A Transferred update reports no more bytes than its total. */
  predicate WithinTotal(u: ProgressUpdate)
  {
    u.progress.Transferred? ==> u.progress.downloaded <= u.progress.total
  }

  predicate CountsWithinTotals(evs: seq<ProgressUpdate>)
  {
    forall j | 0 <= j < |evs| :: WithinTotal(evs[j])
  }

  /** The GET body of a chunk delivers no more than its Content-Length. */
  predicate BodyWithinLength(io: ChunkIO)
  {
    io.get.Response? ==> |BodyBytes(io.get.body, 0)| <= io.get.contentLength
  }

  /** A body no longer than its Content-Length keeps every count of the
      fetch within the announced total. */
  lemma FetchWithinLength(url: string, chunkName: string, io: ChunkIO)
    requires BodyWithinLength(io)
    ensures CountsWithinTotals(FetchChunk2(url, chunkName, io).events)
  {
    var f := FetchChunk2(url, chunkName, io);
    if io.get.Response? && io.get.contentLength > 0 {
      var c := CopyFrom(io.get.body, io.writeErr, 0, []);
      CopyCountsRise(io.get.body, io.writeErr, 0, []);
      CopyWithinBody(io.get.body, io.writeErr, 0, []);
      assert [] + BodyBytes(io.get.body, 0) == BodyBytes(io.get.body, 0);
      var evs := Transfers(chunkName, c.counts, io.get.contentLength);
      assert CountsWithinTotals(evs) by {
        forall j | 0 <= j < |evs| ensures WithinTotal(evs[j]) {
          assert c.counts[j] <= |c.data|;
        }
      }
      assert CountsWithinTotals(evs + [ProgressUpdate(chunkName, Complete)]) by {
        forall j | 0 <= j < |evs| + 1 ensures WithinTotal((evs + [ProgressUpdate(chunkName, Complete)])[j]) {
          if j < |evs| {
            assert (evs + [ProgressUpdate(chunkName, Complete)])[j] == evs[j];
          }
        }
      }
    }
  }

  lemma CountsWithinAppend(a: seq<ProgressUpdate>, b: seq<ProgressUpdate>)
    requires CountsWithinTotals(a) && CountsWithinTotals(b)
    ensures CountsWithinTotals(a + b)
  {
    forall j | 0 <= j < |a + b| ensures WithinTotal((a + b)[j]) {
      if j < |a| {
        assert (a + b)[j] == a[j];
      } else {
        assert (a + b)[j] == b[j - |a|];
      }
    }
  }

  /** When no GET body is longer than its Content-Length, no update that
      Download sends reports more bytes than its total. */
  lemma {:induction false} RunChunksWithinTotals(baseURL: string, outputDir: string, chunks: seq<string>, ioOf: string -> ChunkIO)
    requires forall c | c in chunks :: BodyWithinLength(ioOf(c))
    ensures CountsWithinTotals(RunChunks(baseURL, outputDir, chunks, ioOf).events)
    decreases |chunks|
  {
    if chunks != [] {
      var init, last := chunks[..|chunks| - 1], chunks[|chunks| - 1];
      assert forall c | c in init :: c in chunks;
      assert last in chunks;
      RunChunksWithinTotals(baseURL, outputDir, init, ioOf);
      var f := FetchChunk2(baseURL + "/" + last, last, ioOf(last));
      FetchWithinLength(baseURL + "/" + last, last, ioOf(last));
      var started, finished := [ProgressUpdate(last, Started)], [ProgressUpdate(last, Finished)];
      assert CountsWithinTotals(started) && CountsWithinTotals(finished);
      CountsWithinAppend(started, f.events);
      CountsWithinAppend(started + f.events, finished);
      CountsWithinAppend(RunChunks(baseURL, outputDir, init, ioOf).events, ChunkBracket(last, f));
    }
  }
}
