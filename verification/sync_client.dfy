/** The provider client: the stateful consumer bound to one provider. Only the
    state it holds and the queries answered from that state are modelled; the
    operations that change the state (marker initialisation, fetching, stage
    promotion) are not part of this model. */
module SyncClient {
  import SyncInfo

  datatype Client = Client(
    provider: SyncInfo.ProviderRef,
    markers: seq<string>,
    initialStageMarkers: map<string, seq<string>>,
    stageInfo: SyncInfo.StageInfo,
    numComplete: int,
    done: seq<bool>)

  /** A client freshly bound to a provider, with every other member at its
      default: it is well formed, has no stage, and counts as stage-complete. */
  function NewClient(provider: SyncInfo.ProviderRef): (c: Client)
    ensures c.provider == provider
    ensures c.stageInfo == SyncInfo.DefaultStageInfo
    ensures |c.markers| == 0 && |c.done| == 0 && c.initialStageMarkers == map[]
    ensures WellFormed(c) && StageComplete(c)
  {
    Client(provider, [], map[], SyncInfo.DefaultStageInfo, 0, [])
  }

  /** get_stage_info: the whole stage record being consumed; on a well-formed
      client its shard count is the number of per-shard flags. */
  function GetStageInfo(c: Client): (info: SyncInfo.StageInfo)
    ensures info == c.stageInfo
    ensures info.numShards == StageNumShards(c)
    ensures WellFormed(c) ==> info.numShards == |c.done|
  {
    c.stageInfo
  }

  /** stage_num_shards: on a well-formed client, one marker and one done flag
      per shard. */
  function StageNumShards(c: Client): (n: int)
    ensures WellFormed(c) ==> 0 <= n && n == |c.done| && n == |c.markers|
  {
    c.stageInfo.numShards
  }

  /** What is_shard_done needs to be safe: it indexes the done flags only when
      the shard id is below the shard count, and it does no lower-bound check,
      so such an id must be a valid index. */
  predicate CanQueryShard(c: Client, shard: int)
  {
    shard < c.stageInfo.numShards ==> 0 <= shard < |c.done|
  }

  /** is_shard_done: a shard at or beyond the shard count is never done; below
      it, the shard's done flag answers. */
  function IsShardDone(c: Client, shard: int): (b: bool)
    requires CanQueryShard(c, shard)
    ensures shard >= StageNumShards(c) ==> !b
    ensures shard < StageNumShards(c) ==> b == c.done[shard]
  {
    shard < StageNumShards(c) && c.done[shard]
  }

  /** stage_complete: the count of completed shards has reached the shard
      count; on a well-formed client, exactly when every done flag is set. */
  predicate StageComplete(c: Client)
    ensures WellFormed(c) ==> (StageComplete(c) <==> forall i :: 0 <= i < |c.done| ==> c.done[i])
  {
    CountDoneFull(c.done);
    c.numComplete == c.stageInfo.numShards
  }

  /** Number of set flags. */
  function CountDone(done: seq<bool>): nat
    decreases |done|
  {
    if |done| == 0 then 0
    else CountDone(done[..|done| - 1]) + (if done[|done| - 1] then 1 else 0)
  }

  /** The per-stage invariant of the client: one marker and one done flag per
      shard of a non-negative shard count, and num_complete counting the shards
      whose flag is set. */
  predicate WellFormed(c: Client)
  {
    && 0 <= c.stageInfo.numShards
    && |c.done| == c.stageInfo.numShards
    && |c.markers| == c.stageInfo.numShards
    && c.numComplete == CountDone(c.done)
  }

  /** The count never exceeds the number of flags, and reaches it exactly when
      every flag is set. */
  lemma {:induction false} CountDoneFull(done: seq<bool>)
    ensures CountDone(done) <= |done|
    ensures CountDone(done) == |done| <==> forall i :: 0 <= i < |done| ==> done[i]
    decreases |done|
  {
    if |done| > 0 {
      var init := done[..|done| - 1];
      CountDoneFull(init);
      assert forall i :: 0 <= i < |init| ==> init[i] == done[i];
    }
  }

  /** On a well-formed client, stage_complete holds exactly when every shard of
      the stage reports done; a stage with no shards is complete. */
  lemma StageCompleteIffAllShardsDone(c: Client)
    requires WellFormed(c)
    ensures StageComplete(c) <==> forall i :: 0 <= i < StageNumShards(c) ==> IsShardDone(c, i)
    ensures StageNumShards(c) == 0 ==> StageComplete(c)
  {
    assert forall i :: 0 <= i < StageNumShards(c) ==> IsShardDone(c, i) == c.done[i];
  }

  /** A freshly constructed client holds its provider, reports the default stage
      info (no id, Unknown type, zero shards), has no shard done, and is
      already stage-complete because zero completed shards equal zero shards. */
  lemma FreshClient(p: SyncInfo.ProviderRef)
    ensures NewClient(p).provider == p
    ensures WellFormed(NewClient(p))
    ensures GetStageInfo(NewClient(p)) == SyncInfo.StageInfo("", SyncInfo.Unknown, 0)
    ensures StageNumShards(NewClient(p)) == 0
    ensures forall i :: 0 <= i ==> CanQueryShard(NewClient(p), i) && !IsShardDone(NewClient(p), i)
    ensures StageComplete(NewClient(p))
  {
  }
}
