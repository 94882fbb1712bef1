/** The plain-log download consumer of ui/notty-download.go:
    NoTTYDownload.Run reads progress records until one has Quit set or
    the channel is closed, and keeps their errors. The channel is the
    finite list of records sent on it; the log lines are not modelled. */
module UiNottyDownload {
  import opened Common
  import opened DownloadProgress
  import Downloader

  /** The error fields of the records before the first with Quit set,
      in arrival order. */
  function ErrorsBeforeQuit(us: seq<ChunkProgress>): seq<Error>
  {
    if us == [] || us[0].quit then []
    else if us[0].error.Some? then [us[0].error.value] + ErrorsBeforeQuit(us[1..])
    else ErrorsBeforeQuit(us[1..])
  }

  class NoTTYDownload {
    var shardMetadata: map<int, Downloader.Metadata>
    var errors: seq<Error>
    var maxJobs: int

    /** NewNoTTYDownload. */
    constructor (metadata: map<int, Downloader.Metadata>, jobs: int)
      ensures shardMetadata == metadata && maxJobs == jobs && errors == []
    {
      shardMetadata, maxJobs, errors := metadata, jobs, [];
    }

    /** Run over the records sent before the channel closes; Errors is the
        only field it changes. */
    method Run(updates: seq<ChunkProgress>)
      modifies this`errors
      ensures errors == old(errors) + ErrorsBeforeQuit(updates)
    {
      var i := 0;
      while i < |updates|
        invariant 0 <= i <= |updates|
        invariant old(errors) + ErrorsBeforeQuit(updates) == errors + ErrorsBeforeQuit(updates[i..])
      {
        var update := updates[i];
        assert updates[i..][0] == update && updates[i..][1..] == updates[i + 1..];
        if update.quit {
          assert errors + [] == errors;
          return;
        }
        if update.error.Some? {
          errors := errors + [update.error.value];
        }
        i := i + 1;
      }
    }
  }

  /** The stored errors are exactly the error records before the first
      Quit, in order: Quit is looked at first, so a record with both ends
      the run and its error is dropped. */
  lemma {:induction false} ErrorsBeforeQuitSplit(pre: seq<ChunkProgress>, q: ChunkProgress, post: seq<ChunkProgress>)
    requires q.quit && forall j | 0 <= j < |pre| :: !pre[j].quit
    ensures ErrorsBeforeQuit(pre + [q] + post) == ErrorsBeforeQuit(pre)
    decreases |pre|
  {
    if pre == [] {
      assert (pre + [q] + post)[0] == q;
    } else {
      assert (pre + [q] + post)[0] == pre[0] && (pre + [q] + post)[1..] == pre[1..] + [q] + post;
      ErrorsBeforeQuitSplit(pre[1..], q, post);
    }
  }

  /** Without a Quit, every error record's error is kept, nothing else
      is, and there are no more errors than records. */
  lemma {:induction false} AllErrorsKept(us: seq<ChunkProgress>)
    requires forall j | 0 <= j < |us| :: !us[j].quit
    ensures |ErrorsBeforeQuit(us)| <= |us|
    ensures forall j | 0 <= j < |us| && us[j].error.Some? :: us[j].error.value in ErrorsBeforeQuit(us)
    ensures forall e | e in ErrorsBeforeQuit(us) :: exists j | 0 <= j < |us| :: us[j].error == Some(e)
    decreases |us|
  {
    if us != [] {
      AllErrorsKept(us[1..]);
      forall e | e in ErrorsBeforeQuit(us) ensures exists j | 0 <= j < |us| :: us[j].error == Some(e) {
        if us[0].error != Some(e) {
          var j :| 0 <= j < |us[1..]| && us[1..][j].error == Some(e);
          assert us[j + 1].error == Some(e);
        }
      }
      forall j | 0 <= j < |us| && us[j].error.Some? ensures us[j].error.value in ErrorsBeforeQuit(us) {
        if j > 0 {
          assert us[1..][j - 1] == us[j];
        }
      }
    }
  }
}
