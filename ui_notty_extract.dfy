/** The plain-log extraction consumer of ui/notty-extract.go:
    NoTTYUnpack.Run reads the records of the native extractor until a
    Quit without an error, or until the channel is closed. The channel is
    the finite list of records sent on it; the log lines are not
    modelled. */
module UiNottyExtract {
  import opened Common
  import opened ExtractNative

  datatype UnpackState = UnpackState(currentShard: int, currentFile: string,
                                     shardChunks: map<int, int>, shardChunk: map<int, int>,
                                     bytesOut: map<int, int64>, errors: seq<Error>)

  /** The switch of Run's loop: the first of Error, Quit, TotalBytes > 0
      and the default case that holds. None means Run returns. */
  function Handle(s: UnpackState, u: XUpdMsg): Option<UnpackState>
  {
    if u.error.Some? then Some(s.(errors := s.errors + [u.error.value]))
    else if u.quit then None
    else if u.totalBytes > 0 then Some(s.(bytesOut := s.bytesOut[u.shard := u.totalBytes], currentFile := u.file))
    else Some(s.(currentShard := u.shard, shardChunks := s.shardChunks[u.shard := u.total],
                 shardChunk := s.shardChunk[u.shard := u.idx]))
  }

  /** The state Run leaves after the records us. */
  function Unpack(s: UnpackState, us: seq<XUpdMsg>): UnpackState
    decreases |us|
  {
    if us == [] then s
    else match Handle(s, us[0])
      case None => s
      case Some(s') => Unpack(s', us[1..])
  }

  /** The error fields of the records before the first Quit without an
      error, in arrival order. */
  function ErrorsUntilQuit(us: seq<XUpdMsg>): seq<Error>
  {
    if us == [] then []
    else if us[0].error.Some? then [us[0].error.value] + ErrorsUntilQuit(us[1..])
    else if us[0].quit then []
    else ErrorsUntilQuit(us[1..])
  }

  class NoTTYUnpack {
    var maxShard: int
    var currentShard: int
    var currentFile: string
    var shardChunks: map<int, int>
    var shardChunk: map<int, int>
    var shardTotalBytesOut: map<int, int64>
    var errors: seq<Error>

    function State(): UnpackState
      reads this
    {
      UnpackState(currentShard, currentFile, shardChunks, shardChunk, shardTotalBytesOut, errors)
    }

    /** NewNoTTYUnpack. */
    constructor (maxShardId: int)
      ensures maxShard == maxShardId && State() == UnpackState(0, "", map[], map[], map[], [])
    {
      maxShard := maxShardId;
      currentShard, currentFile := 0, "";
      shardChunks, shardChunk, shardTotalBytesOut := map[], map[], map[];
      errors := [];
    }

    /** Run over the records sent before the channel closes. */
    method Run(updates: seq<XUpdMsg>)
      modifies this
      ensures State() == Unpack(old(State()), updates)
      ensures maxShard == old(maxShard)
    {
      var i := 0;
      while i < |updates|
        invariant 0 <= i <= |updates| && maxShard == old(maxShard)
        invariant Unpack(old(State()), updates) == Unpack(State(), updates[i..])
      {
        var update := updates[i];
        assert updates[i..][0] == update && updates[i..][1..] == updates[i + 1..];
        if update.error.Some? {
          errors := errors + [update.error.value];
        } else if update.quit {
          return;
        } else if update.totalBytes > 0 {
          shardTotalBytesOut := shardTotalBytesOut[update.shard := update.totalBytes];
          currentFile := update.file;
        } else {
          currentShard := update.shard;
          shardChunks := shardChunks[update.shard := update.total];
          shardChunk := shardChunk[update.shard := update.idx];
        }
        i := i + 1;
      }
    }
  }

  /** Errors are stored in arrival order, up to the first Quit without an
      error; an error record with Quit set does not end the run. */
  lemma {:induction false} ErrorsInArrivalOrder(s: UnpackState, us: seq<XUpdMsg>)
    ensures Unpack(s, us).errors == s.errors + ErrorsUntilQuit(us)
    decreases |us|
  {
    if us == [] {
      assert s.errors + [] == s.errors;
    } else if Handle(s, us[0]).Some? {
      var s' := Handle(s, us[0]).value;
      ErrorsInArrivalOrder(s', us[1..]);
      if us[0].error.Some? {
        assert s'.errors + ErrorsUntilQuit(us[1..]) == s.errors + ([us[0].error.value] + ErrorsUntilQuit(us[1..]));
      }
    } else {
      assert s.errors + [] == s.errors;
    }
  }

  /** A Quit without an error ends the run: later records change nothing. */
  lemma {:induction false} QuitEndsRun(s: UnpackState, pre: seq<XUpdMsg>, q: XUpdMsg, post: seq<XUpdMsg>, more: seq<XUpdMsg>)
    requires q.quit && q.error.None?
    ensures Unpack(s, pre + [q] + post) == Unpack(s, pre + [q] + more)
    decreases |pre|
  {
    if pre == [] {
      assert ([q] + post)[0] == q && ([q] + more)[0] == q;
    } else {
      assert (pre + [q] + post)[0] == pre[0] && (pre + [q] + post)[1..] == pre[1..] + [q] + post;
      assert (pre + [q] + more)[0] == pre[0] && (pre + [q] + more)[1..] == pre[1..] + [q] + more;
      if Handle(s, pre[0]).Some? {
        QuitEndsRun(Handle(s, pre[0]).value, pre[1..], q, post, more);
      }
    }
  }

  /** Run goes on past an error record, even one with Quit set. */
  lemma ErrorQuitDoesNotEndRun(s: UnpackState, shard: int, e: Error, rest: seq<XUpdMsg>)
    ensures Unpack(s, [ErrorQuit(shard, e)] + rest) == Unpack(s.(errors := s.errors + [e]), rest)
  {
    assert ([ErrorQuit(shard, e)] + rest)[1..] == rest;
  }

  /** A record with bytes sets its shard's total and the current file;
      one without sets the current shard and its two counters. */
  lemma RecordCases(s: UnpackState, u: XUpdMsg)
    requires u.error.None? && !u.quit
    ensures u.totalBytes > 0 ==>
      Handle(s, u) == Some(s.(bytesOut := s.bytesOut[u.shard := u.totalBytes], currentFile := u.file))
    ensures u.totalBytes <= 0 ==>
      Handle(s, u) == Some(s.(currentShard := u.shard, shardChunks := s.shardChunks[u.shard := u.total],
                              shardChunk := s.shardChunk[u.shard := u.idx]))
  {
  }

  /** A closed channel ends the run with the state as it is. */
  lemma ClosedChannelEndsRun(s: UnpackState)
    ensures Unpack(s, []) == s
  {
  }
}
