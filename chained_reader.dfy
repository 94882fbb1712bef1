/** The concatenating reader of downloader/extract.go: an ordered list of
    part files read as one byte stream. At most one part is open at a time;
    it is closed as soon as it reports end of file and the reader moves on
    to the next part. */
module ChainedReader {
  import opened Common

  /** One part file as the reader sees it. */
  datatype PartFile = PartFile(
    data: seq<byte>,
    /** os.Open fails with this error. */
    openErr: Option<Error>,
    /** A read fault: the bytes before it are delivered, and every Read
        from there on fails with its error. */
    readErr: Option<ReadFault>,
    /** The file reports end of file together with its last bytes; when
        false it does so on the following call with 0 bytes, as os.File
        does. Both are allowed by io.Reader. */
    eofWithData: bool)

  /** A Read error reached at byte offset at of the part (an EIO in mid
      file, say). An offset at or past the end puts the error in place of
      end of file. */
  datatype ReadFault = ReadFault(at: nat, err: Error)

  /** How many bytes of the part can be read: all of them, or those
      before its fault. */
  function Readable(f: PartFile): (k: nat)
    ensures k <= |f.data|
  {
    if f.readErr.Some? && f.readErr.value.at < |f.data| then f.readErr.value.at else |f.data|
  }

  /** A Read at position pos of the part fails. */
  predicate FailsAt(f: PartFile, pos: nat)
  {
    f.readErr.Some? && pos >= Readable(f)
  }

  /** The error half of Read's (n, err) result. */
  datatype Status = Ok | EndOfStream | Failed(err: Error)

  /** The reader's fields: the parts, the index of the next part to open
      (or of the open one) and the read position in the open part, if any
      (curr == nil in Go). */
  datatype ReaderState = ReaderState(files: seq<PartFile>, index: nat, curr: Option<nat>)

  predicate WellFormed(s: ReaderState)
  {
    && s.index <= |s.files|
    && (s.curr.Some? ==> s.index < |s.files| && s.curr.value <= |s.files[s.index].data|)
  }

  /** newChainedFileReader: nothing open, starting at the first part. */
  function Init(files: seq<PartFile>): (s: ReaderState)
    ensures WellFormed(s) && s.files == files && s.index == 0 && s.curr.None?
  {
    ReaderState(files, 0, None)
  }

  function Datas(files: seq<PartFile>): (ds: seq<seq<byte>>)
    ensures |ds| == |files| && forall i | 0 <= i < |files| :: ds[i] == files[i].data
  {
    seq(|files|, i requires 0 <= i < |files| => files[i].data)
  }

  /** The contents of the parts from index i on, in order. */
  function Rest(files: seq<PartFile>, i: nat): seq<byte>
    decreases |files| - i
  {
    if i >= |files| then [] else files[i].data + Rest(files, i + 1)
  }

  lemma {:induction false} RestIsConcat(files: seq<PartFile>, i: nat)
    requires i <= |files|
    ensures Rest(files, i) == Concat(Datas(files[i..]))
    decreases |files| - i
  {
    if i < |files| {
      RestIsConcat(files, i + 1);
      assert Datas(files[i..]) == [files[i].data] + Datas(files[i + 1..]);
      ConcatCons(files[i].data, Datas(files[i + 1..]));
    } else {
      assert Datas(files[i..]) == [];
    }
  }

  /** Every byte the reader has still to deliver, in order. */
  function Remaining(s: ReaderState): seq<byte>
    requires WellFormed(s)
  {
    if s.curr.None? then Rest(s.files, s.index)
    else s.files[s.index].data[s.curr.value..] + Rest(s.files, s.index + 1)
  }

  /** One Read on the open part with a buffer of cap bytes: how many bytes
      it hands back and whether it reports end of file. A zero-length
      buffer gets (0, nil), as os.File gives it. */
  function FileRead(f: PartFile, pos: nat, cap: nat): (r: (nat, bool))
    requires pos <= |f.data| && !FailsAt(f, pos)
    ensures r.0 <= cap && pos + r.0 <= Readable(f)
    ensures cap > 0 && !r.1 ==> r.0 > 0
    ensures r.1 ==> f.readErr.None? && pos + r.0 == |f.data|
  {
    if cap == 0 then (0, false)
    else
      var n := if cap < Readable(f) - pos then cap else Readable(f) - pos;
      (n, if f.readErr.Some? then false else if f.eofWithData then pos + n == |f.data| else n == 0)
  }

  datatype ReadResult = ReadResult(state: ReaderState, bytes: seq<byte>, status: Status)

  /** One pass of the loop in Read: either it returns, or it opened a part
      or closed an exhausted one and goes round again. */
  datatype Step = Continue(next: ReaderState) | Return(result: ReadResult)

  function Advance(s: ReaderState, cap: nat): (st: Step)
    requires WellFormed(s)
  {
    if s.curr.None? then
      if s.index >= |s.files| then Return(ReadResult(s, [], EndOfStream))
      else if s.files[s.index].openErr.Some? then Return(ReadResult(s, [], Failed(s.files[s.index].openErr.value)))
      else Continue(s.(curr := Some(0)))
    else
      var f, pos := s.files[s.index], s.curr.value;
      if FailsAt(f, pos) then Return(ReadResult(s, [], Failed(f.readErr.value.err)))
      else
        var (n, eof) := FileRead(f, pos, cap);
        if eof then
          var closed := ReaderState(s.files, s.index + 1, None);
          if n > 0 then Return(ReadResult(closed, f.data[pos..pos + n], Ok)) else Continue(closed)
        else Return(ReadResult(s.(curr := Some(pos + n)), f.data[pos..pos + n], Ok))
  }

  function Measure(s: ReaderState): nat
    requires WellFormed(s)
  {
    2 * (|s.files| - s.index) + (if s.curr.None? then 1 else 0)
  }

  /** The loop's two ways round: opening the next part, or closing the
      exhausted part, resetting curr and moving index on by exactly one. */
  lemma AdvanceContinues(s: ReaderState, cap: nat)
    requires WellFormed(s) && Advance(s, cap).Continue?
    ensures var t := Advance(s, cap).next;
      && WellFormed(t) && t.files == s.files && Measure(t) < Measure(s)
      && Remaining(t) == Remaining(s)
      && (s.curr.None? ==> t.index == s.index && t.curr == Some(0))
      && (s.curr.Some? ==> t.index == s.index + 1 && t.curr.None?
                           && s.curr.value == |s.files[s.index].data|)
  {
    if s.curr.None? {
      assert s.files[s.index].data[0..] == s.files[s.index].data;
    }
  }

  /** Read: the whole loop. */
  function ReadFrom(s: ReaderState, cap: nat): ReadResult
    requires WellFormed(s)
    decreases Measure(s)
  {
    match Advance(s, cap)
    case Return(r) => r
    case Continue(t) => AdvanceContinues(s, cap); ReadFrom(t, cap)
  }

  /** ReadFrom unfolded by one pass. */
  lemma ReadFromUnfold(s: ReaderState, cap: nat)
    requires WellFormed(s)
    ensures Advance(s, cap).Return? ==> ReadFrom(s, cap) == Advance(s, cap).result
    ensures Advance(s, cap).Continue? ==>
      WellFormed(Advance(s, cap).next) && ReadFrom(s, cap) == ReadFrom(Advance(s, cap).next, cap)
  {
    if Advance(s, cap).Continue? { AdvanceContinues(s, cap); }
  }

  /** What a Returned (n, err) says about the stream it came from: nothing
      but the bytes returned is consumed; at most cap bytes, all taken from
      one part; a successful Read with a non-empty buffer never returns 0
      bytes; end of stream comes only after the last part and only when
      nothing is left; a failure consumes nothing and leaves the failing
      part where the next Read will try it again. */
  predicate Describes(s: ReaderState, cap: nat, r: ReadResult)
    requires WellFormed(s)
  {
    && WellFormed(r.state) && r.state.files == s.files
    && s.index <= r.state.index <= |s.files|
    && |r.bytes| <= cap
    && (r.status.Ok? ==> OkDescribes(s, cap, r))
    && (r.status.EndOfStream? ==>
          r.bytes == [] && Remaining(s) == [] && r.state.index == |s.files| && r.state.curr.None?)
    && (r.status.Failed? ==> FailedDescribes(s, cap, r))
  }

  predicate OkDescribes(s: ReaderState, cap: nat, r: ReadResult)
    requires WellFormed(s) && WellFormed(r.state) && r.state.files == s.files
  {
    && r.bytes + Remaining(r.state) == Remaining(s)
    && (cap > 0 ==> |r.bytes| > 0)
    && (r.state.curr.Some? ==>
          var end := r.state.curr.value;
          |r.bytes| <= end && r.bytes == s.files[r.state.index].data[end - |r.bytes|..end])
    && (r.state.curr.None? ==>
          0 < r.state.index &&
          var d := s.files[r.state.index - 1].data;
          |r.bytes| <= |d| && r.bytes == d[|d| - |r.bytes|..])
  }

  predicate FailedDescribes(s: ReaderState, cap: nat, r: ReadResult)
    requires WellFormed(s) && WellFormed(r.state) && r.state.files == s.files && r.status.Failed?
  {
    && r.bytes == [] && Remaining(r.state) == Remaining(s) && r.state.index < |s.files|
    && (r.state.curr.None? ==> s.files[r.state.index].openErr == Some(r.status.err))
    && (r.state.curr.Some? ==>
          FailsAt(s.files[r.state.index], r.state.curr.value)
          && s.files[r.state.index].readErr.value.err == r.status.err)
    && Advance(r.state, cap) == Return(r)
  }

  /** A pass that reads bytes from the open part. */
  lemma AdvanceReadsData(s: ReaderState, cap: nat)
    requires WellFormed(s) && s.curr.Some? && !FailsAt(s.files[s.index], s.curr.value)
    requires Advance(s, cap).Return?
    ensures var r := Advance(s, cap).result;
      r.status.Ok? && WellFormed(r.state) && r.state.files == s.files && OkDescribes(s, cap, r)
  {
    var f, pos := s.files[s.index], s.curr.value;
    var (n, eof) := FileRead(f, pos, cap);
    var later := Rest(s.files, s.index + 1);
    var bytes := f.data[pos..pos + n];
    assert f.data[pos..] == bytes + f.data[pos + n..];
    if eof {
      var t := ReaderState(s.files, s.index + 1, None);
      assert Advance(s, cap).result == ReadResult(t, bytes, Ok);
      assert pos + n == |f.data|;
      assert Remaining(t) == later;
      assert bytes == f.data[|f.data| - n..];
    } else {
      var t := s.(curr := Some(pos + n));
      assert Advance(s, cap).result == ReadResult(t, bytes, Ok);
      assert Remaining(t) == f.data[pos + n..] + later;
    }
  }

  /** The passes of the loop that return. */
  lemma AdvanceReturns(s: ReaderState, cap: nat)
    requires WellFormed(s) && Advance(s, cap).Return?
    ensures Describes(s, cap, Advance(s, cap).result)
  {
    if s.curr.Some? && !FailsAt(s.files[s.index], s.curr.value) {
      AdvanceReadsData(s, cap);
    }
  }

  lemma {:induction false} ReadFromConsumes(s: ReaderState, cap: nat)
    requires WellFormed(s)
    ensures Describes(s, cap, ReadFrom(s, cap))
    decreases Measure(s)
  {
    match Advance(s, cap)
    case Return(r) =>
      AdvanceReturns(s, cap);
    case Continue(t) =>
      AdvanceContinues(s, cap);
      ReadFromConsumes(t, cap);
      var r := ReadFrom(t, cap);
      assert r == ReadFrom(s, cap);
      if r.status.Ok? {
        assert OkDescribes(t, cap, r);
      }
      if r.status.Failed? {
        assert FailedDescribes(t, cap, r);
      }
  }

  /** Once every part has been read, each further Read returns (0, EOF)
      and changes nothing. */
  lemma EndOfStreamIsSticky(s: ReaderState, cap: nat, cap': nat)
    requires WellFormed(s) && ReadFrom(s, cap).status.EndOfStream?
    ensures var t := ReadFrom(s, cap).state;
      WellFormed(t) && ReadFrom(t, cap') == ReadResult(t, [], EndOfStream)
  {
    ReadFromConsumes(s, cap);
  }

  /** Read repeatedly with a cap-byte buffer until end of stream or an
      error: the bytes delivered and the status that ended it. */
  function Drain(s: ReaderState, cap: nat): (r: (seq<byte>, Status))
    requires WellFormed(s) && cap > 0
    decreases |Remaining(s)|
  {
    var step := ReadFrom(s, cap);
    ReadFromConsumes(s, cap);
    if step.status.Ok? then
      var (rest, status) := Drain(step.state, cap);
      (step.bytes + rest, status)
    else ([], step.status)
  }

  /** Every part from index i on opens and reads without error. */
  predicate ReadableFrom(files: seq<PartFile>, i: nat)
  {
    forall k | i <= k < |files| :: files[k].openErr.None? && files[k].readErr.None?
  }

  /** Whatever the failures, draining delivers a prefix of the stream; when
      it ends at end of stream, it has delivered all of it. */
  lemma {:induction false} DrainIsPrefix(s: ReaderState, cap: nat)
    requires WellFormed(s) && cap > 0
    ensures Drain(s, cap).0 <= Remaining(s)
    ensures Drain(s, cap).1 != Ok
    ensures Drain(s, cap).1.EndOfStream? ==> Drain(s, cap).0 == Remaining(s)
    decreases |Remaining(s)|
  {
    var step := ReadFrom(s, cap);
    ReadFromConsumes(s, cap);
    if step.status.Ok? {
      assert OkDescribes(s, cap, step);
      DrainIsPrefix(step.state, cap);
    }
  }

  /** When every remaining part opens and reads without error, draining
      ends at end of stream after delivering exactly what remains. */
  lemma {:induction false} DrainAll(s: ReaderState, cap: nat)
    requires WellFormed(s) && cap > 0
    requires ReadableFrom(s.files, s.index)
    ensures Drain(s, cap) == (Remaining(s), EndOfStream)
    decreases |Remaining(s)|
  {
    var step := ReadFrom(s, cap);
    ReadFromConsumes(s, cap);
    if step.status.Failed? {
      assert false;
    }
    if step.status.Ok? {
      assert OkDescribes(s, cap, step);
      DrainAll(step.state, cap);
      var (rest, status) := Drain(step.state, cap);
      assert Drain(s, cap) == (step.bytes + rest, status);
    }
  }

  /** Reading a fresh reader until end of file yields files[0] ++ files[1]
      ++ ... in list order, whatever the buffer size. */
  lemma DrainYieldsConcatenation(files: seq<PartFile>, cap: nat)
    requires cap > 0 && ReadableFrom(files, 0)
    ensures Drain(Init(files), cap) == (Concat(Datas(files)), EndOfStream)
  {
    assert files[0..] == files;
    DrainAll(Init(files), cap);
    RestIsConcat(files, 0);
  }

  /** The contents of parts i to j - 1, in order. */
  function Between(files: seq<PartFile>, i: nat, j: nat): seq<byte>
    requires i <= j <= |files|
    decreases j - i
  {
    if i == j then [] else files[i].data + Between(files, i + 1, j)
  }

  lemma {:induction false} BetweenIsConcat(files: seq<PartFile>, i: nat, j: nat)
    requires i <= j <= |files|
    ensures Between(files, i, j) == Concat(Datas(files[i..j]))
    decreases j - i
  {
    if i == j {
      assert Datas(files[i..j]) == [];
    } else {
      BetweenIsConcat(files, i + 1, j);
      assert Datas(files[i..j]) == [files[i].data] + Datas(files[i + 1..j]);
      ConcatCons(files[i].data, Datas(files[i + 1..j]));
    }
  }

  /** The reader is on its way to part j, the first that fails: every
      part before it opens and reads cleanly, and part j opens and has a
      read fault. */
  predicate HeadingToFault(s: ReaderState, j: nat)
  {
    && WellFormed(s) && s.index <= j < |s.files|
    && (forall k | s.index <= k < j :: s.files[k].openErr.None? && s.files[k].readErr.None?)
    && s.files[j].openErr.None? && s.files[j].readErr.Some?
    && (s.index == j && s.curr.Some? ==> s.curr.value <= Readable(s.files[j]))
  }

  /** What the reader still delivers before part j's fault. */
  function BeforeFault(s: ReaderState, j: nat): seq<byte>
    requires HeadingToFault(s, j)
  {
    var f := s.files[j];
    var tail := f.data[..Readable(f)];
    if s.curr.None? then Between(s.files, s.index, j) + tail
    else if s.index < j then s.files[s.index].data[s.curr.value..] + Between(s.files, s.index + 1, j) + tail
    else f.data[s.curr.value..Readable(f)]
  }

  /** What one pass of the loop keeps on the way to the fault. */
  predicate PassToFault(s: ReaderState, cap: nat, j: nat, st: Step)
    requires HeadingToFault(s, j)
  {
    match st
    case Continue(t) => HeadingToFault(t, j) && BeforeFault(t, j) == BeforeFault(s, j)
    case Return(r) =>
      if r.status.Failed? then BeforeFault(s, j) == [] && r.status.err == s.files[j].readErr.value.err
      else r.status.Ok? && HeadingToFault(r.state, j) && r.bytes + BeforeFault(r.state, j) == BeforeFault(s, j)
  }

  lemma OpenToFault(s: ReaderState, cap: nat, j: nat)
    requires HeadingToFault(s, j) && s.curr.None?
    ensures PassToFault(s, cap, j, Advance(s, cap))
  {
    var f := s.files[j];
    if s.index == j {
      assert f.data[0..Readable(f)] == f.data[..Readable(f)];
    } else {
      assert s.files[s.index].data[0..] == s.files[s.index].data;
    }
  }

  /** A clean part before the fault has been read to its end: the reader
      moves on to the next part. */
  lemma CloseBeforeFault(s: ReaderState, j: nat, n: nat)
    requires HeadingToFault(s, j) && s.curr.Some? && s.index < j
    requires s.curr.value + n == |s.files[s.index].data|
    ensures var t := ReaderState(s.files, s.index + 1, None);
      && HeadingToFault(t, j)
      && s.files[s.index].data[s.curr.value..s.curr.value + n] + BeforeFault(t, j) == BeforeFault(s, j)
  {
    var g, pos := s.files[s.index], s.curr.value;
    var t := ReaderState(s.files, s.index + 1, None);
    var later := Between(s.files, s.index + 1, j) + s.files[j].data[..Readable(s.files[j])];
    assert BeforeFault(s, j) == g.data[pos..] + later;
    assert g.data[pos..pos + n] == g.data[pos..];
    assert BeforeFault(t, j) == later;
  }

  /** A clean part before the fault still has bytes after this Read. */
  lemma StayBeforeFault(s: ReaderState, j: nat, n: nat)
    requires HeadingToFault(s, j) && s.curr.Some? && s.index < j
    requires s.curr.value + n <= |s.files[s.index].data|
    ensures var t := s.(curr := Some(s.curr.value + n));
      && HeadingToFault(t, j)
      && s.files[s.index].data[s.curr.value..s.curr.value + n] + BeforeFault(t, j) == BeforeFault(s, j)
  {
    var g, pos := s.files[s.index], s.curr.value;
    var t := s.(curr := Some(pos + n));
    var later := Between(s.files, s.index + 1, j) + s.files[j].data[..Readable(s.files[j])];
    assert BeforeFault(s, j) == g.data[pos..] + later;
    assert BeforeFault(t, j) == g.data[pos + n..] + later;
    assert g.data[pos..] == g.data[pos..pos + n] + g.data[pos + n..];
  }

  lemma ReadBeforeFault(s: ReaderState, cap: nat, j: nat)
    requires HeadingToFault(s, j) && s.curr.Some? && s.index < j
    ensures PassToFault(s, cap, j, Advance(s, cap))
  {
    assert !FailsAt(s.files[s.index], s.curr.value);
    if FileRead(s.files[s.index], s.curr.value, cap).1 {
      ReadClosesBeforeFault(s, cap, j);
    } else {
      ReadStaysBeforeFault(s, cap, j);
    }
  }

  /** A read that reaches the end of a part before the faulting one. */
  lemma ReadClosesBeforeFault(s: ReaderState, cap: nat, j: nat)
    requires HeadingToFault(s, j) && s.curr.Some? && s.index < j
    requires !FailsAt(s.files[s.index], s.curr.value) && FileRead(s.files[s.index], s.curr.value, cap).1
    ensures PassToFault(s, cap, j, Advance(s, cap))
  {
    var g, pos := s.files[s.index], s.curr.value;
    var n := FileRead(g, pos, cap).0;
    var t := ReaderState(s.files, s.index + 1, None);
    CloseBeforeFault(s, j, n);
    if n > 0 {
      assert Advance(s, cap) == Return(ReadResult(t, g.data[pos..pos + n], Ok));
    } else {
      assert Advance(s, cap) == Continue(t);
      assert g.data[pos..pos + n] == [];
    }
  }

  /** A read that stays inside a part before the faulting one. */
  lemma ReadStaysBeforeFault(s: ReaderState, cap: nat, j: nat)
    requires HeadingToFault(s, j) && s.curr.Some? && s.index < j
    requires !FailsAt(s.files[s.index], s.curr.value) && !FileRead(s.files[s.index], s.curr.value, cap).1
    ensures PassToFault(s, cap, j, Advance(s, cap))
  {
    var g, pos := s.files[s.index], s.curr.value;
    var n := FileRead(g, pos, cap).0;
    var r := ReadResult(s.(curr := Some(pos + n)), g.data[pos..pos + n], Ok);
    assert Advance(s, cap) == Return(r);
    StayBeforeFault(s, j, n);
    assert HeadingToFault(r.state, j) && r.bytes + BeforeFault(r.state, j) == BeforeFault(s, j);
  }

  lemma ReadFaultingPart(s: ReaderState, cap: nat, j: nat)
    requires HeadingToFault(s, j) && s.curr.Some? && s.index == j
    ensures PassToFault(s, cap, j, Advance(s, cap))
  {
    var f, pos := s.files[j], s.curr.value;
    if !FailsAt(f, pos) {
      var (n, eof) := FileRead(f, pos, cap);
      assert f.data[pos..Readable(f)] == f.data[pos..pos + n] + f.data[pos + n..Readable(f)];
    }
  }

  /** One pass of the loop on the way to the fault. */
  lemma AdvanceToFault(s: ReaderState, cap: nat, j: nat)
    requires HeadingToFault(s, j)
    ensures PassToFault(s, cap, j, Advance(s, cap))
  {
    if s.curr.None? {
      OpenToFault(s, cap, j);
    } else if s.index < j {
      ReadBeforeFault(s, cap, j);
    } else {
      ReadFaultingPart(s, cap, j);
    }
  }

  /** One Read on the way to the fault: some bytes before it, or the
      fault's error once nothing is left before it. */
  lemma {:induction false} ReadToFault(s: ReaderState, cap: nat, j: nat)
    requires HeadingToFault(s, j)
    ensures var r := ReadFrom(s, cap);
      if r.status.Failed? then BeforeFault(s, j) == [] && r.status.err == s.files[j].readErr.value.err
      else r.status.Ok? && HeadingToFault(r.state, j) && r.bytes + BeforeFault(r.state, j) == BeforeFault(s, j)
    decreases Measure(s)
  {
    AdvanceToFault(s, cap, j);
    ReadFromUnfold(s, cap);
    if Advance(s, cap).Continue? {
      AdvanceContinues(s, cap);
      ReadToFault(Advance(s, cap).next, cap, j);
    }
  }

  lemma {:induction false} DrainToFault(s: ReaderState, cap: nat, j: nat)
    requires HeadingToFault(s, j) && cap > 0
    ensures Drain(s, cap) == (BeforeFault(s, j), Failed(s.files[j].readErr.value.err))
    decreases |Remaining(s)|
  {
    var step := ReadFrom(s, cap);
    ReadFromConsumes(s, cap);
    ReadToFault(s, cap, j);
    if step.status.Ok? {
      assert OkDescribes(s, cap, step);
      DrainToFault(step.state, cap, j);
    }
  }

  /** A fault in mid file: draining a fresh reader delivers every part
      before part j, then the bytes of part j before its fault, and ends
      with the fault's error. */
  lemma DrainStopsAtFault(files: seq<PartFile>, cap: nat, j: nat)
    requires cap > 0 && j < |files|
    requires forall k | 0 <= k < j :: files[k].openErr.None? && files[k].readErr.None?
    requires files[j].openErr.None? && files[j].readErr.Some?
    ensures Drain(Init(files), cap) ==
      (Concat(Datas(files[..j])) + files[j].data[..Readable(files[j])], Failed(files[j].readErr.value.err))
  {
    DrainToFault(Init(files), cap, j);
    BetweenIsConcat(files, 0, j);
    assert files[0..j] == files[..j];
  }

  /** The bytes a file Read puts at the front of the caller's buffer. */
  method CopyInto(p: array<byte>, bytes: seq<byte>)
    requires |bytes| <= p.Length
    modifies p
    ensures p[..|bytes|] == bytes && p[|bytes|..] == old(p[|bytes|..])
  {
    forall i | 0 <= i < |bytes| {
      p[i] := bytes[i];
    }
  }

  /** chainedFileReader: the fields files, index and curr. */
  class ChainedFileReader {
    const files: seq<PartFile>
    var index: nat
    var curr: Option<nat>

    function State(): ReaderState
      reads this
    {
      ReaderState(files, index, curr)
    }

    ghost predicate Valid()
      reads this
    {
      WellFormed(State())
    }

    /** newChainedFileReader. */
    constructor (files: seq<PartFile>)
      ensures Valid() && State() == Init(files)
    {
      this.files := files;
      index := 0;
      curr := None;
    }

    /** Read(p): the first (n, err) of the stream, with p[..n] the bytes. */
    method Read(p: array<byte>) returns (n: nat, status: Status)
      requires Valid()
      modifies this, p
      ensures Valid()
      ensures var r := ReadFrom(old(State()), p.Length);
        State() == r.state && n == |r.bytes| && n <= p.Length && p[..n] == r.bytes && status == r.status
      ensures p[n..] == old(p[n..])
    {
      while true
        invariant Valid() && files == old(State()).files
        invariant ReadFrom(State(), p.Length) == ReadFrom(old(State()), p.Length)
        invariant p[..] == old(p[..])
        decreases Measure(State())
      {
        if curr.None? {
          ghost var s0 := State();
          var failure := OpenNext(p.Length);
          ReadFromUnfold(s0, p.Length);
          if failure.Some? {
            return 0, failure.value;
          }
          AdvanceContinues(s0, p.Length);
        }
        ghost var s1 := State();
        var done;
        done, n, status := ReadOpen(p);
        ReadFromUnfold(s1, p.Length);
        if done {
          return;
        }
        AdvanceContinues(s1, p.Length);
      }
    }

    /** The opening half of a pass: with no part open, report end of stream
        after the last part, or the error os.Open gives, or open the next
        part at position 0. */
    method OpenNext(ghost cap: nat) returns (failure: Option<Status>)
      requires Valid() && curr.None?
      modifies this
      ensures Valid() && files == old(State()).files
      ensures Advance(old(State()), cap) ==
        if failure.Some? then Return(ReadResult(State(), [], failure.value)) else Continue(State())
    {
      if index >= |files| {
        return Some(EndOfStream);
      }
      if files[index].openErr.Some? {
        return Some(Failed(files[index].openErr.value));
      }
      curr := Some(0);
      return None;
    }

    /** The reading half of a pass: one Read on the open part into p. When
        the part reports end of file it is closed and index moves on; done
        is false when that Read brought no bytes, so the loop goes round. */
    method ReadOpen(p: array<byte>) returns (done: bool, n: nat, status: Status)
      requires Valid() && curr.Some?
      modifies this, p
      ensures Valid() && files == old(State()).files
      ensures n <= p.Length && (!done ==> n == 0)
      ensures Advance(old(State()), p.Length) ==
        if done then Return(ReadResult(State(), p[..n], status)) else Continue(State())
      ensures p[n..] == old(p[n..])
    {
      var f, pos := files[index], curr.value;
      if FailsAt(f, pos) {
        return true, 0, Failed(f.readErr.value.err);
      }
      var (k, eof) := FileRead(f, pos, p.Length);
      if eof {
        curr := None;
        index := index + 1;
        if k == 0 {
          return false, 0, Ok;
        }
      } else {
        curr := Some(pos + k);
      }
      CopyInto(p, f.data[pos..pos + k]);
      return true, k, Ok;
    }
  }
}
