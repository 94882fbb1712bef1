/** The chunk-level extraction view of ui/extractUI.go: ExtractModel
    keeps one progress record per shard, created on the shard's first
    chunk, and the shards in the order they first appeared. */
module UiExtractModel {
  import Tea

  datatype Msg =
    | StartChunkMsg(shard: int, chunk: string)
    | FileExtractedMsg(shard: int, file: string)
    | ShardCompletedMsg(shard: int)
    | QuitMsg
    | OtherMsg

  /** ShardProgress. */
  datatype ShardProgress = ShardProgress(totalChunks: int, extractedChunks: int, currentChunk: string,
                                         filesExtracted: seq<string>, completed: bool)

  /** The chunk count a shard is created with. */
  const DEFAULT_TOTAL_CHUNKS: int := 10

  datatype ModelState = ModelState(shards: map<int, ShardProgress>, shardOrder: seq<int>)

  /** ShardOrder lists each shard of Shards once. */
  ghost predicate Valid(s: ModelState)
  {
    && (forall i, j | 0 <= i < j < |s.shardOrder| :: s.shardOrder[i] != s.shardOrder[j])
    && (forall k :: k in s.shards <==> k in s.shardOrder)
  }

  /** ExtractModel.Update. A file or completion message for a shard that
      has no record dereferences nil. */
  function Step(s: ModelState, msg: Msg): (ModelState, Tea.Cmd)
  {
    match msg
    case StartChunkMsg(id, chunk) =>
      var s' :=
        if id in s.shards then s
        else ModelState(s.shards[id := ShardProgress(DEFAULT_TOTAL_CHUNKS, 0, "", [], false)], s.shardOrder + [id]);
      var p := s'.shards[id];
      (s'.(shards := s'.shards[id := p.(currentChunk := chunk, extractedChunks := p.extractedChunks + 1)]), Tea.NextMessage)
    case FileExtractedMsg(id, file) =>
      if id !in s.shards then (s, Tea.Panic)
      else
        var p := s.shards[id];
        (s.(shards := s.shards[id := p.(filesExtracted := p.filesExtracted + [file])]), Tea.NextMessage)
    case ShardCompletedMsg(id) =>
      if id !in s.shards then (s, Tea.Panic)
      else
        var p := s.shards[id];
        (s.(shards := s.shards[id := p.(completed := true, currentChunk := "")]), Tea.NextMessage)
    case QuitMsg => (s, Tea.Quit)
    case OtherMsg => (s, Tea.NextMessage)
  }

  class ExtractModel {
    var shards: map<int, ShardProgress>
    var shardOrder: seq<int>

    function State(): ModelState
      reads this
    {
      ModelState(shards, shardOrder)
    }

    /** NewExtractModel. */
    constructor ()
      ensures State() == ModelState(map[], []) && Valid(State())
    {
      shards, shardOrder := map[], [];
    }

    method Update(msg: Msg) returns (cmd: Tea.Cmd)
      modifies this
      ensures (State(), cmd) == Step(old(State()), msg)
    {
      match msg {
        case StartChunkMsg(id, chunk) =>
          if id !in shards {
            shards := shards[id := ShardProgress(DEFAULT_TOTAL_CHUNKS, 0, "", [], false)];
            shardOrder := shardOrder + [id];
          }
          var shard := shards[id];
          shards := shards[id := shard.(currentChunk := chunk, extractedChunks := shard.extractedChunks + 1)];
        case FileExtractedMsg(id, file) =>
          if id !in shards {
            return Tea.Panic;
          }
          var shard := shards[id];
          shards := shards[id := shard.(filesExtracted := shard.filesExtracted + [file])];
        case ShardCompletedMsg(id) =>
          if id !in shards {
            return Tea.Panic;
          }
          var shard := shards[id];
          shards := shards[id := shard.(completed := true, currentChunk := "")];
        case QuitMsg =>
          return Tea.Quit;
        case OtherMsg =>
      }
      return Tea.NextMessage;
    }
  }

  /** Every message keeps ShardOrder free of repeats and equal, as a set,
      to the keys of Shards. */
  lemma StepKeepsValid(s: ModelState, msg: Msg)
    requires Valid(s)
    ensures Valid(Step(s, msg).0)
  {
    if msg.StartChunkMsg? && msg.shard !in s.shards {
      var order := s.shardOrder + [msg.shard];
      forall i, j | 0 <= i < j < |order| ensures order[i] != order[j] {
        if j == |order| - 1 {
          assert order[i] == s.shardOrder[i] && s.shardOrder[i] in s.shardOrder;
        }
      }
    }
  }

  /** The first chunk of an unseen shard creates its record with ten
      chunks and appends the shard to ShardOrder; every chunk sets the
      current chunk and counts one more. */
  lemma StartChunkCounts(s: ModelState, id: int, chunk: string)
    ensures var r := Step(s, StartChunkMsg(id, chunk)).0;
      && id in r.shards
      && r.shards[id].currentChunk == chunk
      && (id in s.shards ==>
            r.shardOrder == s.shardOrder && r.shards[id].extractedChunks == s.shards[id].extractedChunks + 1)
      && (id !in s.shards ==>
            r.shardOrder == s.shardOrder + [id] && r.shards[id] == ShardProgress(DEFAULT_TOTAL_CHUNKS, 1, chunk, [], false))
  {
  }

  /** The files a run of file messages reports, appended to a shard. */
  function FileMsgs(id: int, files: seq<string>): seq<Msg>
  {
    if files == [] then [] else FileMsgs(id, files[..|files| - 1]) + [FileExtractedMsg(id, files[|files| - 1])]
  }

  /** The view after a list of messages (ignoring Quit). */
  function Fold(s: ModelState, msgs: seq<Msg>): ModelState
  {
    if msgs == [] then s else Step(Fold(s, msgs[..|msgs| - 1]), msgs[|msgs| - 1]).0
  }

  /** Files of an existing shard are recorded in the order they arrive. */
  lemma {:induction false} FilesRecordedInOrder(s: ModelState, id: int, files: seq<string>)
    requires id in s.shards
    ensures var r := Fold(s, FileMsgs(id, files));
      id in r.shards && r.shards[id].filesExtracted == s.shards[id].filesExtracted + files
      && r.shardOrder == s.shardOrder
    decreases |files|
  {
    if files == [] {
      assert s.shards[id].filesExtracted + [] == s.shards[id].filesExtracted;
    } else {
      var init := files[..|files| - 1];
      FilesRecordedInOrder(s, id, init);
      var msgs := FileMsgs(id, files);
      assert msgs[..|msgs| - 1] == FileMsgs(id, init);
      assert s.shards[id].filesExtracted + init + [files[|files| - 1]] == s.shards[id].filesExtracted + files;
    }
  }

  /** Completion marks the shard done and clears its current chunk; a
      Quit message quits with no change. */
  lemma CompletionAndQuit(s: ModelState, id: int)
    requires id in s.shards
    ensures var r := Step(s, ShardCompletedMsg(id)).0;
      r.shards[id].completed && r.shards[id].currentChunk == "" && r.shardOrder == s.shardOrder
    ensures Step(s, QuitMsg) == (s, Tea.Quit)
  {
  }
}
