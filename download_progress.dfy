/** The progress record of the newer downloader (Shard, ChunkName,
    BytesDownloaded, BytesTotal, Error, Quit) as ui/tty-download.go,
    ui/downloadUI.go and ui/notty-download.go read it, and the per-chunk
    and per-shard records the two terminal views keep. */
module DownloadProgress {
  import opened Common
  import GoStrings
  import Downloader

  datatype ChunkProgress = ChunkProgress(shard: int, chunkName: string, bytesDownloaded: int64,
                                         bytesTotal: int64, error: Option<Error>, quit: bool)

  /** Chunk: the latest counts of one chunk in flight. */
  datatype Chunk = Chunk(shard: int, name: string, bytesTotal: int64, bytesDownloaded: int64)

  /** ShardStatus: chunks and bytes completed in one shard. */
  datatype ShardStatus = ShardStatus(totalChunks: int, downloadedChunks: int, bytesDownloaded: int64, done: bool)

  /** The map key fmt.Sprintf("%d-%s", shard, name). */
  function ChunkKey(shard: int, name: string): string
  {
    GoStrings.FormatInt(shard) + "-" + name
  }

  /** Distinct chunks never share a key, even when a name contains '-'. */
  lemma ChunkKeyInjective(shard: int, name: string, shard': int, name': string)
    requires ChunkKey(shard, name) == ChunkKey(shard', name')
    ensures shard == shard' && name == name'
  {
    GoStrings.FormatIntDashInjective(shard, name, shard', name');
  }

  /** An update reports the chunk complete when its two counts agree. */
  predicate Completes(u: ChunkProgress)
  {
    u.bytesDownloaded == u.bytesTotal
  }

  /** The ActiveChunks entry after an update: an unseen key takes the
      update's values; a known one takes the new counts only when more
      bytes have arrived. */
  function MergeChunk(active: map<string, Chunk>, key: string, u: ChunkProgress): (r: map<string, Chunk>)
    ensures r.Keys == active.Keys + {key}
    ensures forall k | k in active && k != key :: r[k] == active[k]
    ensures key in active ==> r[key].bytesDownloaded >= active[key].bytesDownloaded
    ensures key in active && u.bytesDownloaded > active[key].bytesDownloaded ==>
      r[key] == active[key].(bytesDownloaded := u.bytesDownloaded, bytesTotal := u.bytesTotal)
    ensures key in active && u.bytesDownloaded <= active[key].bytesDownloaded ==> r[key] == active[key]
    ensures key !in active ==> r[key] == Chunk(u.shard, u.chunkName, u.bytesTotal, u.bytesDownloaded)
  {
    if key in active then
      var existing := active[key];
      if u.bytesDownloaded > existing.bytesDownloaded then
        active[key := existing.(bytesDownloaded := u.bytesDownloaded, bytesTotal := u.bytesTotal)]
      else active
    else active[key := Chunk(u.shard, u.chunkName, u.bytesTotal, u.bytesDownloaded)]
  }

  /** A shard's status after one of its chunks completes: one more chunk,
      and its bytes added with int64 wrap-around. */
  function CountCompletion(st: ShardStatus, u: ChunkProgress): (r: ShardStatus)
    ensures r.downloadedChunks == st.downloadedChunks + 1
    ensures INT64_MIN <= st.bytesDownloaded + u.bytesDownloaded <= INT64_MAX ==>
      r.bytesDownloaded == st.bytesDownloaded + u.bytesDownloaded
    ensures r.totalChunks == st.totalChunks && r.done == st.done
  {
    st.(downloadedChunks := st.downloadedChunks + 1,
        bytesDownloaded := Wrap64(st.bytesDownloaded + u.bytesDownloaded))
  }

  /** The status both terminal views start with: shards 0, 1 and 2, each
      with its chunk count from the metadata and nothing downloaded. */
  predicate FreshStatus(status: map<int, ShardStatus>, metadata: map<int, Downloader.Metadata>)
    requires 0 in metadata && 1 in metadata && 2 in metadata
  {
    && status.Keys == {0, 1, 2}
    && forall i | i in status :: status[i] == ShardStatus(|metadata[i].chunks|, 0, 0, false)
  }

  /** The loop over shards 0, 1, 2 that builds that status. */
  method InitialStatus(metadata: map<int, Downloader.Metadata>) returns (status: map<int, ShardStatus>)
    requires 0 in metadata && 1 in metadata && 2 in metadata
    ensures FreshStatus(status, metadata)
  {
    var shards := [0, 1, 2];
    status := map[];
    var i := 0;
    while i < |shards|
      invariant 0 <= i <= 3
      invariant forall j :: j in status <==> 0 <= j < i
      invariant forall j | j in status :: status[j] == ShardStatus(|metadata[j].chunks|, 0, 0, false)
    {
      status := status[i := ShardStatus(|metadata[i].chunks|, 0, 0, false)];
      i := i + 1;
    }
    assert status.Keys == {0, 1, 2};
  }
}
