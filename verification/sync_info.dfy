/** Provider side of the sync-info layer: the stage/shard vocabulary shared by
    providers and clients, and the single-stage provider whose stage topology is
    fixed at construction. Return codes follow the convention of the C++
    interface: 0 for success, a negated errno value for failure. An output
    pointer is modelled as the caller's prior value going in and the final value
    coming out, so that "leaves the output untouched" can be stated. */
module SyncInfo {
  import opened ByteString

  /** ERANGE as numbered on Linux. */
  const ERANGE: int := 34

  /** Kind of a stage; Unknown is the sentinel for "no stage". */
  datatype StageType = Unknown | Full | Inc

  /** The integer value the enumeration gives each stage type. */
  function StageTypeCode(t: StageType): (code: int)
    ensures -1 <= code <= 1
    ensures code == -1 <==> t == Unknown
    ensures t == Full ==> code == 0
    ensures t == Inc ==> code == 1
  {
    match t
    case Unknown => -1
    case Full => 0
    case Inc => 1
  }

  datatype StageInfo = StageInfo(sid: string, stype: StageType, numShards: int)

  /** A default-constructed StageInfo: empty id, Unknown type, no shards. */
  const DefaultStageInfo := StageInfo("", Unknown, 0)

  datatype Entry = Entry(key: string, data: Bytes)

  datatype FetchResult = FetchResult(entries: seq<Entry>, more: bool, done: bool)

  /** A default-constructed fetch result: no entries, neither more nor done. */
  const DefaultFetchResult := FetchResult([], false, false)

  /** The defaults of fetch_result: a caller that gets nothing back sees an
      empty batch that promises neither more entries now nor the end of the stage. */
  lemma DefaultFetchResultIsEmpty()
    ensures |DefaultFetchResult.entries| == 0
    ensures !DefaultFetchResult.more && !DefaultFetchResult.done
  {
  }

  /** A shared provider handle: null, or an opaque provider identity. */
  datatype ProviderRef = Null | Ref(identity: nat)

  /** A provider with exactly one stage. Only its topology answers are modelled;
      shard fetching is supplied by concrete subclasses. */
  datatype SingleStageProvider = SingleStageProvider(stageInfo: StageInfo)

  /** The constructor records the name, type and shard count as the one stage. */
  function NewSingleStage(name: string, stype: StageType, numShards: int): (p: SingleStageProvider)
    ensures p.stageInfo.sid == name
    ensures p.stageInfo.stype == stype
    ensures p.stageInfo.numShards == numShards
    ensures FirstStage(p) == name && LastStage(p) == name
  {
    SingleStageProvider(StageInfo(name, stype, numShards))
  }

  /** get_first_stage: a stage whose info lookup succeeds. */
  function FirstStage(p: SingleStageProvider): (sid: string)
    ensures GetStageInfo(p, sid, DefaultStageInfo) == (0, p.stageInfo)
  {
    p.stageInfo.sid
  }

  /** get_last_stage: the same stage as the first, with no stage after it. */
  function LastStage(p: SingleStageProvider): (sid: string)
    ensures sid == FirstStage(p)
    ensures NextStage(p, sid, "").0 == -ERANGE
  {
    p.stageInfo.sid
  }

  /** get_next_stage: there is never a stage after the only one. Returns the
      code and the value of the caller's next-stage output. */
  function NextStage(p: SingleStageProvider, sid: string, nextSid: string): (r: (int, string))
    ensures r.0 == -ERANGE
    ensures r.1 == nextSid
  {
    (-ERANGE, nextSid)
  }

  /** get_stages: the one stage, which is both the first and the last. */
  function Stages(p: SingleStageProvider): (stages: seq<string>)
    ensures |stages| == 1
    ensures stages[0] == FirstStage(p) && stages[0] == LastStage(p)
  {
    [p.stageInfo.sid]
  }

  /** get_stage_info: succeeds exactly for the provider's own stage id. Returns
      the code and the value of the caller's stage-info output. */
  function GetStageInfo(p: SingleStageProvider, sid: string, sinfo: StageInfo): (r: (int, StageInfo))
    ensures r.0 == 0 <==> sid == p.stageInfo.sid
    ensures r.0 == 0 ==> r.1 == p.stageInfo
    ensures r.0 != 0 ==> r.0 == -ERANGE && r.1 == sinfo
  {
    if sid != p.stageInfo.sid then (-ERANGE, sinfo) else (0, p.stageInfo)
  }

  /** The topology contract every provider is expected to keep, over the
      provider's answers: the stage list starts at the first stage and ends at
      the last, get_next_stage walks the list and refuses to go past its end,
      and get_stage_info answers for the listed stages (with matching ids) and
      for nothing else. */
  ghost predicate ConsistentTopology(first: string, last: string, stages: seq<string>,
                                     next: string -> (int, string), info: string -> (int, StageInfo))
  {
    && |stages| > 0
    && first == stages[0]
    && last == stages[|stages| - 1]
    && (forall j :: 1 <= j < |stages| ==> next(stages[j - 1]) == (0, stages[j]))
    && next(last).0 != 0
    && (forall j :: 0 <= j < |stages| ==> info(stages[j]).0 == 0 && info(stages[j]).1.sid == stages[j])
    && (forall sid :: sid !in stages ==> info(sid).0 != 0)
  }

  /** Every single-stage provider keeps the general topology contract, whatever
      the caller's output buffers held: its only stage is first, last and the
      whole stage list. */
  lemma SingleStageTopology(name: string, stype: StageType, numShards: int, nextOut: string, infoOut: StageInfo)
    ensures var p := NewSingleStage(name, stype, numShards);
      ConsistentTopology(FirstStage(p), LastStage(p), Stages(p),
                         s => NextStage(p, s, nextOut), s => GetStageInfo(p, s, infoOut))
    ensures Stages(NewSingleStage(name, stype, numShards)) == [name]
  {
  }
}
