/** The terminal extraction view of ui/tty-extract.go: TtyExtract folds
    the records of the native extractor into per-shard counters, the
    bytes written per shard and the file being written. */
module UiTtyExtract {
  import opened Common
  import opened ExtractNative
  import Tea

  datatype Msg = KeyMsg(key: string) | SpinnerTick | ProgressMsg(update: XUpdMsg) | QuitMsg | OtherMsg

  datatype ExtractState = ExtractState(currentShard: int, currentFile: string,
                                       shardChunks: map<int, int>, shardChunk: map<int, int>,
                                       bytesOut: map<int, int64>, errors: seq<Error>)

  /** How a record changes the view once its error, if any, is stored. */
  function Apply(s: ExtractState, u: XUpdMsg): (ExtractState, Tea.Cmd)
  {
    if u.quit then (s.(currentFile := ""), Tea.Quit)
    else if u.totalBytes > 0 then
      (s.(bytesOut := s.bytesOut[u.shard := u.totalBytes], currentFile := u.file), Tea.NextMessage)
    else
      (s.(currentShard := u.shard, shardChunks := s.shardChunks[u.shard := u.total],
          shardChunk := s.shardChunk[u.shard := u.idx]), Tea.NextMessage)
  }

  /** TtyExtract.Update: an error is stored and the record is then
      handled like any other. */
  function Step(s: ExtractState, msg: Msg): (ExtractState, Tea.Cmd)
  {
    match msg
    case KeyMsg(k) => (s, if k == "ctrl+c" then Tea.Quit else Tea.NextMessage)
    case SpinnerTick => (s, Tea.Tick)
    case QuitMsg => (s, Tea.Quit)
    case OtherMsg => (s, Tea.NextMessage)
    case ProgressMsg(u) =>
      var s' := if u.error.Some? then s.(errors := s.errors + [u.error.value]) else s;
      Apply(s', u)
  }

  class TtyExtract {
    var maxShard: int
    var currentShard: int
    var currentFile: string
    var shardChuncks: map<int, int>
    var shardChunck: map<int, int>
    var shardTotalBytesOut: map<int, int64>
    var errors: seq<Error>

    function State(): ExtractState
      reads this
    {
      ExtractState(currentShard, currentFile, shardChuncks, shardChunck, shardTotalBytesOut, errors)
    }

    /** NewTtyExtract: shard 0 current, empty maps, no errors. */
    constructor (maxShardId: int)
      ensures maxShard == maxShardId && State() == ExtractState(0, "", map[], map[], map[], [])
    {
      maxShard := maxShardId;
      currentShard, currentFile := 0, "";
      shardChuncks, shardChunck, shardTotalBytesOut := map[], map[], map[];
      errors := [];
    }

    method Update(msg: Msg) returns (cmd: Tea.Cmd)
      modifies this
      ensures (State(), cmd) == Step(old(State()), msg)
      ensures maxShard == old(maxShard)
    {
      match msg {
        case KeyMsg(k) =>
          return if k == "ctrl+c" then Tea.Quit else Tea.NextMessage;
        case SpinnerTick =>
          return Tea.Tick;
        case QuitMsg =>
          return Tea.Quit;
        case OtherMsg =>
          return Tea.NextMessage;
        case ProgressMsg(u) =>
          if u.error.Some? {
            errors := errors + [u.error.value];
          }
          if u.quit {
            currentFile := "";
            return Tea.Quit;
          }
          if u.totalBytes > 0 {
            shardTotalBytesOut := shardTotalBytesOut[u.shard := u.totalBytes];
            currentFile := u.file;
          } else {
            currentShard := u.shard;
            shardChuncks := shardChuncks[u.shard := u.total];
            shardChunck := shardChunck[u.shard := u.idx];
          }
          return Tea.NextMessage;
      }
    }
  }

  /** An error is stored and then the same record, without its error, is
      processed; with Quit set the view records the error, clears the
      current file and quits. */
  lemma ErrorThenContinues(s: ExtractState, u: XUpdMsg)
    requires u.error.Some?
    ensures Step(s, ProgressMsg(u)) ==
      Step(s.(errors := s.errors + [u.error.value]), ProgressMsg(u.(error := None)))
    ensures u.quit ==>
      Step(s, ProgressMsg(u)) == (s.(errors := s.errors + [u.error.value], currentFile := ""), Tea.Quit)
  {
  }

  /** A record with bytes sets that shard's byte total and the current
      file and leaves the counters alone; one without sets the current
      shard and that shard's counters. */
  lemma RecordBranches(s: ExtractState, u: XUpdMsg)
    requires !u.quit && u.error.None?
    ensures var r := Step(s, ProgressMsg(u)).0;
      && (u.totalBytes > 0 ==>
            r == s.(bytesOut := s.bytesOut[u.shard := u.totalBytes], currentFile := u.file))
      && (u.totalBytes <= 0 ==>
            && r.currentShard == u.shard && r.shardChunks[u.shard] == u.total && r.shardChunk[u.shard] == u.idx
            && r.bytesOut == s.bytesOut && r.currentFile == s.currentFile)
  {
  }

  /** Only the entries of the record's shard change. */
  lemma OnlyOwnShardChanges(s: ExtractState, u: XUpdMsg, other: int)
    requires other != u.shard
    ensures var r := Step(s, ProgressMsg(u)).0;
      && (other in r.shardChunks <==> other in s.shardChunks)
      && (other in r.shardChunk <==> other in s.shardChunk)
      && (other in r.bytesOut <==> other in s.bytesOut)
      && (other in s.shardChunks ==> r.shardChunks[other] == s.shardChunks[other])
      && (other in s.shardChunk ==> r.shardChunk[other] == s.shardChunk[other])
      && (other in s.bytesOut ==> r.bytesOut[other] == s.bytesOut[other])
  {
  }

  /** The native extractor's non-fatal error records carry no counts, so
      each one resets its shard's counters to 0 of 0; so does a record of
      a file written before any byte (a running total of 0). */
  lemma ZeroRecordsResetCounters(s: ExtractState, shard: int, e: Error, file: string)
    ensures var r := Step(s, ProgressMsg(ErrorOnly(shard, e))).0;
      r.shardChunks[shard] == 0 && r.shardChunk[shard] == 0 && r.errors == s.errors + [e]
    ensures var r := Step(s, ProgressMsg(Written(shard, file, 0))).0;
      r.shardChunks[shard] == 0 && r.shardChunk[shard] == 0 && r.currentFile == s.currentFile
  {
  }
}
