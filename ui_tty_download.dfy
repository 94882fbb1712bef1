/** The terminal download view of ui/tty-download.go: TtyDownload folds
    progress records into per-chunk and per-shard counters, and keeps the
    chunks completed in the last five seconds so that late duplicates of
    a completion are not counted twice. Time is in nanoseconds and is
    passed in. */
module UiTtyDownload {
  import opened Common
  import opened DownloadProgress
  import Downloader
  import Tea

  /** The five-second window of the cleanup tick, in nanoseconds. */
  const RECENT_WINDOW: int := 5_000_000_000

  /** The messages Update handles. */
  datatype Msg = KeyMsg(key: string) | CleanupMsg | ProgressMsg(update: ChunkProgress) | OtherMsg

  /** The part of the model that Update changes. */
  datatype TtyState = TtyState(status: map<int, ShardStatus>, errors: seq<Error>,
                               active: map<string, Chunk>, recent: map<string, int>)

  /** The completion times still inside the window at now. */
  function Unexpired(recent: map<string, int>, now: int): map<string, int>
  {
    map k | k in recent && now - recent[k] <= RECENT_WINDOW :: recent[k]
  }

  /** TtyDownload.Update on a message at time now. */
  function Step(s: TtyState, msg: Msg, now: int): (TtyState, Tea.Cmd)
  {
    match msg
    case KeyMsg(k) => (s, if k == "ctrl+c" then Tea.Quit else Tea.NextMessage)
    case CleanupMsg => (s.(recent := Unexpired(s.recent, now)), Tea.Tick)
    case OtherMsg => (s, Tea.NextMessage)
    case ProgressMsg(u) =>
      if u.quit then (s, Tea.Quit)
      else if u.error.Some? then (s.(errors := s.errors + [u.error.value]), Tea.NextMessage)
      else
        var key := ChunkKey(u.shard, u.chunkName);
        if key in s.recent then (s, Tea.NextMessage)
        else
          var active := MergeChunk(s.active, key, u);
          if !Completes(u) then (s.(active := active), Tea.NextMessage)
          else if u.shard !in s.status then (s.(active := active), Tea.Panic)
          else
            (TtyState(s.status[u.shard := CountCompletion(s.status[u.shard], u)], s.errors,
                      active - {key}, s.recent[key := now]),
             Tea.NextMessage)
  }

  class TtyDownload {
    var currentShard: int
    var shardMetadata: map<int, Downloader.Metadata>
    var status: map<int, ShardStatus>
    var errors: seq<Error>
    var activeChunks: map<string, Chunk>
    var maxJobs: int
    var recentlyCompleted: map<string, int>

    function State(): TtyState
      reads this
    {
      TtyState(status, errors, activeChunks, recentlyCompleted)
    }

    /** NewTtyDownload: shards 0, 1 and 2 with their chunk counts, shard
        0 current, nothing in flight. The metadata of the three shards
        must be present (the source dereferences it). */
    constructor (shard: int, metadata: map<int, Downloader.Metadata>, jobs: int)
      requires 0 in metadata && 1 in metadata && 2 in metadata
      ensures FreshStatus(status, metadata)
      ensures currentShard == 0 && shardMetadata == metadata && maxJobs == jobs
      ensures errors == [] && activeChunks == map[] && recentlyCompleted == map[]
    {
      var initial := InitialStatus(metadata);
      currentShard := 0;
      shardMetadata := metadata;
      status := initial;
      errors := [];
      activeChunks := map[];
      maxJobs := jobs;
      recentlyCompleted := map[];
    }

    /** The cleanup loop: drop every completion older than the window. */
    method DropExpired(now: int)
      modifies this
      ensures recentlyCompleted == Unexpired(old(recentlyCompleted), now)
      ensures status == old(status) && errors == old(errors) && activeChunks == old(activeChunks)
      ensures currentShard == old(currentShard) && shardMetadata == old(shardMetadata) && maxJobs == old(maxJobs)
    {
      var pending := recentlyCompleted.Keys;
      while pending != {}
        invariant pending <= old(recentlyCompleted).Keys
        invariant forall k :: k in recentlyCompleted <==>
          k in old(recentlyCompleted) && (k in pending || now - old(recentlyCompleted)[k] <= RECENT_WINDOW)
        invariant forall k | k in recentlyCompleted :: recentlyCompleted[k] == old(recentlyCompleted)[k]
        invariant status == old(status) && errors == old(errors) && activeChunks == old(activeChunks)
        invariant currentShard == old(currentShard) && shardMetadata == old(shardMetadata) && maxJobs == old(maxJobs)
        decreases pending
      {
        var k :| k in pending;
        if now - recentlyCompleted[k] > RECENT_WINDOW {
          recentlyCompleted := recentlyCompleted - {k};
        }
        pending := pending - {k};
      }
      assert recentlyCompleted == Unexpired(old(recentlyCompleted), now);
    }

    /** TtyDownload.Update. */
    method Update(msg: Msg, now: int) returns (cmd: Tea.Cmd)
      modifies this
      ensures (State(), cmd) == Step(old(State()), msg, now)
      ensures currentShard == old(currentShard) && shardMetadata == old(shardMetadata) && maxJobs == old(maxJobs)
    {
      match msg {
        case KeyMsg(k) =>
          return if k == "ctrl+c" then Tea.Quit else Tea.NextMessage;
        case CleanupMsg =>
          DropExpired(now);
          return Tea.Tick;
        case OtherMsg =>
          return Tea.NextMessage;
        case ProgressMsg(u) =>
          if u.quit {
            return Tea.Quit;
          }
          if u.error.Some? {
            errors := errors + [u.error.value];
            return Tea.NextMessage;
          }
          var chunkId := ChunkKey(u.shard, u.chunkName);
          if chunkId in recentlyCompleted {
            return Tea.NextMessage;
          }
          if chunkId in activeChunks {
            var existing := activeChunks[chunkId];
            if u.bytesDownloaded > existing.bytesDownloaded {
              activeChunks := activeChunks[chunkId := existing.(bytesDownloaded := u.bytesDownloaded, bytesTotal := u.bytesTotal)];
            }
          } else {
            activeChunks := activeChunks[chunkId := Chunk(u.shard, u.chunkName, u.bytesTotal, u.bytesDownloaded)];
          }
          if u.bytesDownloaded == u.bytesTotal {
            if u.shard !in status {
              return Tea.Panic;
            }
            status := status[u.shard := CountCompletion(status[u.shard], u)];
            recentlyCompleted := recentlyCompleted[chunkId := now];
            activeChunks := activeChunks - {chunkId};
          }
          return Tea.NextMessage;
      }
    }
  }

  /** Quit is looked at first: a record with Quit set quits and changes
      nothing, whatever else it carries. */
  lemma QuitComesFirst(s: TtyState, u: ChunkProgress, now: int)
    requires u.quit
    ensures Step(s, ProgressMsg(u), now) == (s, Tea.Quit)
  {
  }

  /** An error record is appended to Errors and nothing else changes. */
  lemma ErrorIsOnlyRecorded(s: TtyState, u: ChunkProgress, now: int)
    requires !u.quit && u.error.Some?
    ensures Step(s, ProgressMsg(u), now) == (s.(errors := s.errors + [u.error.value]), Tea.NextMessage)
  {
  }

  /** A chunk completed inside the window is ignored. */
  lemma RecentChunkIgnored(s: TtyState, u: ChunkProgress, now: int)
    requires !u.quit && u.error.None? && ChunkKey(u.shard, u.chunkName) in s.recent
    ensures Step(s, ProgressMsg(u), now) == (s, Tea.NextMessage)
  {
  }

  /** No message lowers a chunk's byte count while it stays in flight,
      and only the message's own chunk can change. */
  lemma BytesNeverDecrease(s: TtyState, msg: Msg, now: int)
    ensures var r := Step(s, msg, now).0;
      forall k | k in s.active && k in r.active ::
        r.active[k].bytesDownloaded >= s.active[k].bytesDownloaded
        && (msg.ProgressMsg? && k != ChunkKey(msg.update.shard, msg.update.chunkName) ==> r.active[k] == s.active[k])
  {
  }

  /** A completion counts one chunk and its bytes in its shard, and moves
      the chunk from ActiveChunks to RecentlyCompleted, stamped now. */
  lemma CompletionMovesChunk(s: TtyState, u: ChunkProgress, now: int)
    requires !u.quit && u.error.None? && Completes(u) && u.shard in s.status
    requires ChunkKey(u.shard, u.chunkName) !in s.recent
    ensures var (r, cmd) := Step(s, ProgressMsg(u), now);
      var key := ChunkKey(u.shard, u.chunkName);
      && cmd == Tea.NextMessage
      && r.status.Keys == s.status.Keys
      && r.status[u.shard].downloadedChunks == s.status[u.shard].downloadedChunks + 1
      && (forall i | i in s.status && i != u.shard :: r.status[i] == s.status[i])
      && key !in r.active && r.recent == s.recent[key := now]
  {
  }

  /** A repeated completion inside the window is counted once: the second
      delivery of the same record changes nothing. */
  lemma CompletionCountedOnce(s: TtyState, u: ChunkProgress, now: int, later: int)
    requires !u.quit && u.error.None? && Completes(u) && u.shard in s.status
    ensures var r := Step(s, ProgressMsg(u), now).0;
      Step(r, ProgressMsg(u), later) == (r, Tea.NextMessage)
  {
  }

  /** The cleanup tick keeps exactly the completions no older than the
      window, with their times, and re-arms itself. */
  lemma CleanupKeepsRecent(s: TtyState, now: int)
    ensures var (r, cmd) := Step(s, CleanupMsg, now);
      && cmd == Tea.Tick && r.status == s.status && r.errors == s.errors && r.active == s.active
      && (forall k :: k in r.recent <==> k in s.recent && now - s.recent[k] <= RECENT_WINDOW)
      && (forall k | k in r.recent :: r.recent[k] == s.recent[k])
  {
  }
}
