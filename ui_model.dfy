/** The single-shard progress view of ui/ui.go. It reads the original
    progress record {ChunkName, Percent} of downloader/downloader.go:
    a Percent up to 1.0 is a chunk in flight, anything above is the
    sentinel Download sends after each chunk, and the view quits once it
    has seen as many sentinels as the shard has chunks. */
module UiModel {
  import opened Downloader
  import Tea

  datatype Msg = KeyMsg(key: string) | ProgressMsg(update: ProgressUpdate) | OtherMsg

  datatype ModelState = ModelState(downloadedChunks: int, activeChunks: map<string, real>)

  predicate QuitKey(k: string)
  {
    k == "q" || k == "esc" || k == "ctrl+c"
  }

  /** Model.Update with totalChunks chunks to wait for. */
  function Step(s: ModelState, totalChunks: int, msg: Msg): (ModelState, Tea.Cmd)
  {
    match msg
    case KeyMsg(k) => (s, if QuitKey(k) then Tea.Quit else Tea.NoCmd)
    case OtherMsg => (s, Tea.NoCmd)
    case ProgressMsg(u) =>
      var p := Percent(u.progress);
      var r :=
        if p <= 1.0 then s.(activeChunks := s.activeChunks[u.chunkName := p])
        else ModelState(s.downloadedChunks + 1, s.activeChunks - {u.chunkName});
      (r, if r.downloadedChunks == totalChunks then Tea.Quit else Tea.NextMessage)
  }

  class Model {
    var shard: int
    var totalChunks: int
    var downloadedChunks: int
    var activeChunks: map<string, real>

    function State(): ModelState
      reads this
    {
      ModelState(downloadedChunks, activeChunks)
    }

    /** NewModel: nothing downloaded, nothing in flight. */
    constructor (shardId: int, chunks: int)
      ensures shard == shardId && totalChunks == chunks && State() == ModelState(0, map[])
    {
      shard, totalChunks := shardId, chunks;
      downloadedChunks, activeChunks := 0, map[];
    }

    method Update(msg: Msg) returns (cmd: Tea.Cmd)
      modifies this
      ensures (State(), cmd) == Step(old(State()), totalChunks, msg)
      ensures shard == old(shard) && totalChunks == old(totalChunks)
    {
      match msg {
        case KeyMsg(k) =>
          return if k == "q" || k == "esc" || k == "ctrl+c" then Tea.Quit else Tea.NoCmd;
        case OtherMsg =>
          return Tea.NoCmd;
        case ProgressMsg(u) =>
          var p := Percent(u.progress);
          if p <= 1.0 {
            activeChunks := activeChunks[u.chunkName := p];
          } else {
            downloadedChunks := downloadedChunks + 1;
            activeChunks := activeChunks - {u.chunkName};
          }
          if downloadedChunks == totalChunks {
            return Tea.Quit;
          }
          return Tea.NextMessage;
      }
    }
  }

  /** A Percent up to 1.0 records the chunk's fraction and counts nothing;
      a larger one counts a chunk and forgets it; after either the view
      quits exactly when the count reaches the total. */
  lemma ProgressStep(s: ModelState, total: int, u: ProgressUpdate)
    ensures var (r, cmd) := Step(s, total, ProgressMsg(u));
      && (Percent(u.progress) <= 1.0 ==>
            r.downloadedChunks == s.downloadedChunks && r.activeChunks == s.activeChunks[u.chunkName := Percent(u.progress)])
      && (Percent(u.progress) > 1.0 ==>
            r.downloadedChunks == s.downloadedChunks + 1 && u.chunkName !in r.activeChunks)
      && (cmd == Tea.Quit <==> r.downloadedChunks == total)
  {
  }

  /** q, esc and ctrl+c quit; every other key and every other message
      leaves the model as it is and asks for nothing. */
  lemma KeysAndOthers(s: ModelState, total: int, msg: Msg)
    requires !msg.ProgressMsg?
    ensures Step(s, total, msg) == (s, if msg.KeyMsg? && QuitKey(msg.key) then Tea.Quit else Tea.NoCmd)
  {
  }

  /** The view fed a run of updates, until it quits. */
  function Feed(s: ModelState, total: int, us: seq<ProgressUpdate>): (ModelState, bool)
    decreases |us|
  {
    if us == [] then (s, false)
    else
      var (r, cmd) := Step(s, total, ProgressMsg(us[0]));
      if cmd == Tea.Quit then (r, true) else Feed(r, total, us[1..])
  }

  /** Fed a run that holds at least the remaining count of sentinels, the
      view reaches the total and quits. Every sentinel counts a chunk; a
      Transferred update above 1.0 counts one too, and then the view quits
      earlier. */
  lemma {:induction false} FeedCountsSentinels(s: ModelState, total: int, us: seq<ProgressUpdate>)
    requires s.downloadedChunks < total <= s.downloadedChunks + CountFinished(us)
    ensures Feed(s, total, us) == (Feed(s, total, us).0, true) && Feed(s, total, us).0.downloadedChunks == total
    decreases |us|
  {
    assert us != [];
    var u, rest := us[0], us[1..];
    assert us == [u] + rest;
    CountFinishedAppend([u], rest);
    assert CountFinished([u]) == (if u.progress.Finished? then 1 else 0);
    var r := Step(s, total, ProgressMsg(u)).0;
    if r.downloadedChunks != total {
      FeedCountsSentinels(r, total, rest);
    }
  }

  /** While no update reports more bytes than its total, only sentinels
      count, so the view does not quit before they make up the total. */
  lemma {:induction false} FeedBelowTotal(s: ModelState, total: int, us: seq<ProgressUpdate>)
    requires CountsWithinTotals(us)
    requires s.downloadedChunks + CountFinished(us) < total
    ensures !Feed(s, total, us).1
    ensures Feed(s, total, us).0.downloadedChunks == s.downloadedChunks + CountFinished(us)
    decreases |us|
  {
    if us != [] {
      var u, rest := us[0], us[1..];
      assert us == [u] + rest;
      CountFinishedAppend([u], rest);
      assert CountFinished([u]) == (if u.progress.Finished? then 1 else 0);
      PercentAboveOneOnlyFinished(u.progress);
      var r := Step(s, total, ProgressMsg(u)).0;
      assert CountsWithinTotals(rest) by {
        forall j | 0 <= j < |rest| ensures WithinTotal(rest[j]) {
          assert rest[j] == us[j + 1];
        }
      }
      FeedBelowTotal(r, total, rest);
    }
  }

  /** A run ending in the sentinel, with the remaining count of sentinels
      and no update above its total, does not quit before its last update;
      with FeedCountsSentinels, the view quits exactly on the last one. */
  lemma FeedQuitsOnLastUpdate(s: ModelState, total: int, us: seq<ProgressUpdate>)
    requires us != [] && us[|us| - 1].progress.Finished?
    requires s.downloadedChunks + CountFinished(us) == total
    requires CountsWithinTotals(us)
    ensures var pre := us[..|us| - 1];
      !Feed(s, total, pre).1 && Feed(s, total, pre).0.downloadedChunks == total - 1
  {
    var pre := us[..|us| - 1];
    assert CountFinished(us) == CountFinished(pre) + 1;
    assert CountsWithinTotals(pre) by {
      forall j | 0 <= j < |pre| ensures WithinTotal(pre[j]) {
        assert pre[j] == us[j];
      }
    }
    FeedBelowTotal(s, total, pre);
  }

  /** A fresh view fed evs quits on none of them but the last, which is a
      sentinel. */
  predicate QuitsOnLastUpdate(total: int, evs: seq<ProgressUpdate>)
  {
    evs != [] && evs[|evs| - 1].progress.Finished?
    && !Feed(ModelState(0, map[]), total, evs[..|evs| - 1]).1
  }

  /** FeedQuitsOnLastUpdate from a fresh view. */
  lemma FedRunQuitsOnLast(total: int, evs: seq<ProgressUpdate>)
    requires evs != [] && evs[|evs| - 1].progress.Finished?
    requires CountFinished(evs) == total && CountsWithinTotals(evs)
    ensures QuitsOnLastUpdate(total, evs)
  {
    FeedQuitsOnLastUpdate(ModelState(0, map[]), total, evs);
  }

  /** Fed the updates Download sends for a shard of N > 0 chunks, a
      fresh view counts N chunks and quits. */
  lemma DownloadRunCompletesView(baseURL: string, outputDir: string, chunks: seq<string>, ioOf: string -> ChunkIO)
    requires chunks != []
    ensures var f := Feed(ModelState(0, map[]), |chunks|, RunChunks(baseURL, outputDir, chunks, ioOf).events);
      f.1 && f.0.downloadedChunks == |chunks|
  {
    OneSentinelPerChunk(baseURL, outputDir, chunks, ioOf);
    var evs := RunChunks(baseURL, outputDir, chunks, ioOf).events;
    FeedCountsSentinels(ModelState(0, map[]), |chunks|, evs);
  }

  /** When no GET body delivers more than its Content-Length, the view
      fed what Download sends does not quit before the last update, the
      sentinel of the last chunk. */
  lemma DownloadRunQuitsOnLastUpdate(baseURL: string, outputDir: string, chunks: seq<string>, ioOf: string -> ChunkIO)
    requires chunks != []
    requires forall c | c in chunks :: BodyWithinLength(ioOf(c))
    ensures QuitsOnLastUpdate(|chunks|, RunChunks(baseURL, outputDir, chunks, ioOf).events)
  {
    RunChunksFeedFacts(baseURL, outputDir, chunks, ioOf);
    FedRunQuitsOnLast(|chunks|, RunChunks(baseURL, outputDir, chunks, ioOf).events);
  }
}
