/** The earlier terminal download view of ui/downloadUI.go: like the
    later one it folds progress records into per-chunk and per-shard
    counters, but it keeps no window of recent completions, so every
    completion record is counted and completed chunks stay in
    ActiveChunks. */
module UiDownloadModel {
  import opened Common
  import opened DownloadProgress
  import Downloader
  import Tea

  datatype Msg = KeyMsg(key: string) | ProgressMsg(update: ChunkProgress) | OtherMsg

  datatype ModelState = ModelState(status: map<int, ShardStatus>, errors: seq<Error>, active: map<string, Chunk>)

  /** The keys that quit the view. */
  predicate QuitKey(k: string)
  {
    k == "q" || k == "esc" || k == "ctrl+c"
  }

  /** DownloadModel.Update. */
  function Step(s: ModelState, msg: Msg): (ModelState, Tea.Cmd)
  {
    match msg
    case KeyMsg(k) => (s, if QuitKey(k) then Tea.Quit else Tea.NextMessage)
    case OtherMsg => (s, Tea.NextMessage)
    case ProgressMsg(u) =>
      if u.quit then (s, Tea.Quit)
      else if u.error.Some? then (s.(errors := s.errors + [u.error.value]), Tea.NextMessage)
      else
        var active := MergeChunk(s.active, ChunkKey(u.shard, u.chunkName), u);
        if !Completes(u) then (s.(active := active), Tea.NextMessage)
        else if u.shard !in s.status then (s.(active := active), Tea.Panic)
        else (ModelState(s.status[u.shard := CountCompletion(s.status[u.shard], u)], s.errors, active), Tea.NextMessage)
  }

  class DownloadModel {
    var currentShard: int
    var shardMetadata: map<int, Downloader.Metadata>
    var status: map<int, ShardStatus>
    var errors: seq<Error>
    var activeChunks: map<string, Chunk>
    var maxJobs: int

    function State(): ModelState
      reads this
    {
      ModelState(status, errors, activeChunks)
    }

    /** NewDownloadModel: shards 0, 1 and 2 with their chunk counts. */
    constructor (shard: int, metadata: map<int, Downloader.Metadata>, jobs: int)
      requires 0 in metadata && 1 in metadata && 2 in metadata
      ensures FreshStatus(status, metadata)
      ensures currentShard == 0 && shardMetadata == metadata && maxJobs == jobs
      ensures errors == [] && activeChunks == map[]
    {
      var initial := InitialStatus(metadata);
      currentShard := 0;
      shardMetadata := metadata;
      status := initial;
      errors := [];
      activeChunks := map[];
      maxJobs := jobs;
    }

    method Update(msg: Msg) returns (cmd: Tea.Cmd)
      modifies this
      ensures (State(), cmd) == Step(old(State()), msg)
      ensures currentShard == old(currentShard) && shardMetadata == old(shardMetadata) && maxJobs == old(maxJobs)
    {
      match msg {
        case KeyMsg(k) =>
          return if k == "q" || k == "esc" || k == "ctrl+c" then Tea.Quit else Tea.NextMessage;
        case OtherMsg =>
          return Tea.NextMessage;
        case ProgressMsg(u) =>
          if u.quit {
            return Tea.Quit;
          }
          if u.error.Some? {
            errors := errors + [u.error.value];
            return Tea.NextMessage;
          }
          var chunkId := ChunkKey(u.shard, u.chunkName);
          if chunkId in activeChunks {
            var existing := activeChunks[chunkId];
            if u.bytesDownloaded > existing.bytesDownloaded {
              activeChunks := activeChunks[chunkId := existing.(bytesDownloaded := u.bytesDownloaded, bytesTotal := u.bytesTotal)];
            }
          } else {
            activeChunks := activeChunks[chunkId := Chunk(u.shard, u.chunkName, u.bytesTotal, u.bytesDownloaded)];
          }
          if u.bytesDownloaded == u.bytesTotal {
            if u.shard !in status {
              return Tea.Panic;
            }
            status := status[u.shard := CountCompletion(status[u.shard], u)];
          }
          return Tea.NextMessage;
      }
    }
  }

  /** q, esc and ctrl+c quit without a change; a record with Quit set
      quits before its Error is looked at. */
  lemma QuitPaths(s: ModelState, msg: Msg)
    requires (msg.KeyMsg? && QuitKey(msg.key)) || (msg.ProgressMsg? && msg.update.quit)
    ensures Step(s, msg) == (s, Tea.Quit)
  {
  }

  /** An error record is appended and nothing else changes. */
  lemma ErrorIsOnlyRecorded(s: ModelState, u: ChunkProgress)
    requires !u.quit && u.error.Some?
    ensures Step(s, ProgressMsg(u)) == (s.(errors := s.errors + [u.error.value]), Tea.NextMessage)
  {
  }

  /** A chunk's byte count never falls; an unseen chunk is inserted with
      the record's values. */
  lemma ActiveChunkUpdate(s: ModelState, u: ChunkProgress)
    requires !u.quit && u.error.None?
    ensures var r := Step(s, ProgressMsg(u)).0;
      var key := ChunkKey(u.shard, u.chunkName);
      && key in r.active
      && (key in s.active ==> r.active[key].bytesDownloaded >= s.active[key].bytesDownloaded)
      && (key !in s.active ==> r.active[key] == Chunk(u.shard, u.chunkName, u.bytesTotal, u.bytesDownloaded))
  {
  }

  /** Every completion record counts, repeats included, and the chunk
      stays in ActiveChunks: the same record delivered twice counts two
      chunks. */
  lemma {:induction false} RepeatedCompletionCountsTwice(s: ModelState, u: ChunkProgress)
    requires !u.quit && u.error.None? && Completes(u) && u.shard in s.status
    ensures var r1 := Step(s, ProgressMsg(u)).0;
      var r2 := Step(r1, ProgressMsg(u)).0;
      && ChunkKey(u.shard, u.chunkName) in r2.active
      && r2.status[u.shard].downloadedChunks == s.status[u.shard].downloadedChunks + 2
  {
    var r1 := Step(s, ProgressMsg(u)).0;
    assert r1.status[u.shard].downloadedChunks == s.status[u.shard].downloadedChunks + 1;
  }
}
