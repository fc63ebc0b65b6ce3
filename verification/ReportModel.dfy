/** The report aggregator between calls, and its runs. */
module ReportModel {
  import opened Lists
  import opened Proto
  import opened Signature
  import opened Operations
  import opened CacheModel
  import opened CacheCells
  import opened RemovedItems

  const MAX_OPERATIONS_TO_SEND := 10

  datatype Options = Options(service: string, configId: string, entries: int, flushMs: int, kinds: Kinds)

  type Reports = State<Aggregate, ReportRequest>

  /** `OnCacheEntryDelete`: a request of one operation. */
  function RequestOf(o: Options, a: Aggregate): ReportRequest { ReportRequest(o.service, o.configId, [ToProto(a)]) }

  function ConfigOf(o: Options): Config<Aggregate, ReportRequest> {
    Config(false, o.entries, if o.flushMs < 0 then -1 else o.flushMs * CYCLES_PER_MS, false,
           (a: Aggregate, now: int) => Drop([RequestOf(o, a)]))
  }

  /** The signature of a request's first operation. */
  function KeyOf(r: ReportRequest): string { if r.operations == [] then "" else ReportSignature(r.operations[0]) }

  function Fetched(o: Options, s: Reports, now: int): Reports { RemoveExpired(ConfigOf(o), s, now) }

  /** One operation of an accepted request. */
  function AddOperation(o: Options, s: Reports, op: Operation, now: int): Reports {
    var c, k, t := ConfigOf(o), ReportSignature(op), Fetched(o, s, now);
    match ValueAt(t.order, k)
    case None => Put(c, t, k, Start(o.kinds, op), now)
    case Some(a) =>
      var m := Operations.Merge(o.kinds, a, op);
      var u := Used(c, t, k, m, now);
      if TooBig(m) then Remove(c, u, k, now) else u
  }

  function AddOperations(o: Options, s: Reports, ops: seq<Operation>, now: int): Reports {
    if ops == [] then s else AddOperation(o, AddOperations(o, s, ops[..|ops| - 1], now), ops[|ops| - 1], now)
  }

  predicate HasHighImportantOperation(r: ReportRequest) { exists op <- r.operations :: op.importance != Low }

  function CodeOf(o: Options, r: ReportRequest): Code {
    if r.service != o.service then InvalidArgument
    else if HasHighImportantOperation(r) || o.entries <= 0 then NotFound
    else Ok
  }

  /** `Report`. */
  function Report(o: Options, s: Reports, r: ReportRequest, now: int): Reports {
    if CodeOf(o, r) == Ok then AddOperations(o, s, r.operations, now) else s
  }

  /** `MergeItem`: the operations of the new request are appended, if there are at most ten in all. */
  function MergeItem(item: ReportRequest, old_: ReportRequest): Option<ReportRequest> {
    if old_.service != item.service || |old_.operations| + |item.operations| > MAX_OPERATIONS_TO_SEND then None
    else Some(ReportRequest(item.service, if item.configId != "" then item.configId else old_.configId,
                            old_.operations + item.operations))
  }

  // ----- Greedy batching -----

  function Flattened(rs: seq<ReportRequest>): seq<Operation> {
    if rs == [] then [] else Flattened(rs[..|rs| - 1]) + rs[|rs| - 1].operations
  }

  ghost predicate Singles(rs: seq<ReportRequest>, service: string) {
    forall i :: 0 <= i < |rs| ==> |rs[i].operations| == 1 && rs[i].service == service
  }

  ghost predicate Packed(bs: seq<ReportRequest>, service: string) {
    && (forall i :: 0 <= i < |bs| - 1 ==> |bs[i].operations| == 10)
    && (forall i :: 0 <= i < |bs| ==> 1 <= |bs[i].operations| <= 10 && bs[i].service == service)
  }

  lemma FlattenedAppend(bs: seq<ReportRequest>, b: ReportRequest)
    ensures Flattened(bs + [b]) == Flattened(bs) + b.operations
  {
    assert (bs + [b])[..|bs|] == bs;
  }

  /**
   * Batching `n` removals of one operation each loses nothing and reorders nothing, fills every request but the last
   * with ten operations, and makes exactly as many requests as it takes.
   */
  lemma {:induction false} BatchingIsTight(rs: seq<ReportRequest>, service: string)
    requires Singles(rs, service)
    ensures var bs := Batch(MergeItem, rs);
            Flattened(bs) == Flattened(rs) && Packed(bs, service) && |bs| == (|rs| + 9) / 10 && |Flattened(rs)| == |rs|
  {
    if rs != [] {
      var init, r := rs[..|rs| - 1], rs[|rs| - 1];
      BatchingIsTight(init, service);
      var bs := Batch(MergeItem, init);
      BatchLast(bs, r, service, |init|);
    }
  }

  /** How full the last of the packed requests is. */
  lemma {:induction false} PackedLength(bs: seq<ReportRequest>, service: string)
    requires Packed(bs, service) && bs != []
    ensures |Flattened(bs)| == 10 * (|bs| - 1) + |bs[|bs| - 1].operations|
  {
    if |bs| > 1 {
      PackedLength(bs[..|bs| - 1], service);
    }
  }

  lemma FlattenedUpdate(bs: seq<ReportRequest>, b: ReportRequest)
    requires bs != []
    ensures Flattened(bs) == Flattened(bs[..|bs| - 1]) + bs[|bs| - 1].operations
    ensures Flattened(bs[|bs| - 1 := b]) == Flattened(bs[..|bs| - 1]) + b.operations
  {
    assert bs[|bs| - 1 := b][..|bs| - 1] == bs[..|bs| - 1];
  }

  lemma BatchLast(bs: seq<ReportRequest>, r: ReportRequest, service: string, n: nat)
    requires Packed(bs, service) && |r.operations| == 1 && r.service == service && |Flattened(bs)| == n
        && |bs| == (n + 9) / 10
    ensures var cs := AddItem(MergeItem, bs, r);
            Flattened(cs) == Flattened(bs) + r.operations && Packed(cs, service) && |cs| == (n + 10) / 10
  {
    hide Flattened;
    if bs == [] {
      NoneFlattened();
      FlattenedAppend([], r);
      assert [] + [r] == [r];
    } else {
      PackedLength(bs, service);
      var last := bs[|bs| - 1];
      match MergeItem(r, last) {
        case Some(m) =>
          FlattenedUpdate(bs, m);
          assert Flattened(bs[..|bs| - 1]) + (last.operations + r.operations)
              == Flattened(bs[..|bs| - 1]) + last.operations + r.operations;
        case None => FlattenedAppend(bs, r);
      }
    }
  }

  lemma NoneFlattened()
    ensures Flattened([]) == []
  {
  }

  // ----- What is in each request -----

  /** The last config id that is not empty. */
  function LastConfig(rs: seq<ReportRequest>): string {
    if rs == [] then ""
    else if rs[|rs| - 1].configId != "" then rs[|rs| - 1].configId
    else LastConfig(rs[..|rs| - 1])
  }

  /** The removals of the `i`-th request: ten, or as many as there are left. */
  function Part(rs: seq<ReportRequest>, i: nat): seq<ReportRequest>
    requires 10 * i <= |rs|
  {
    if 10 * i + 10 <= |rs| then rs[10 * i..10 * i + 10] else rs[10 * i..]
  }

  ghost predicate IsBatch(b: ReportRequest, part: seq<ReportRequest>, service: string) {
    b.service == service && b.operations == Flattened(part) && b.configId == LastConfig(part)
  }

  lemma PartSnoc(part: seq<ReportRequest>, r: ReportRequest)
    ensures Flattened(part + [r]) == Flattened(part) + r.operations
    ensures LastConfig(part + [r]) == if r.configId != "" then r.configId else LastConfig(part)
    ensures Flattened([]) == [] && LastConfig([]) == ""
  {
    assert (part + [r])[..|part|] == part;
  }

  lemma {:induction false} FlattenedLength(rs: seq<ReportRequest>, service: string)
    requires Singles(rs, service)
    ensures |Flattened(rs)| == |rs|
  {
    if rs != [] {
      FlattenedLength(rs[..|rs| - 1], service);
    }
  }

  lemma PartStep(init: seq<ReportRequest>, r: ReportRequest, i: nat)
    requires i <= |init| / 10
    ensures Part(init + [r], i) == if i < |init| / 10 then Part(init, i) else Part(init, i) + [r]
    ensures |init| % 10 == 0 && i == |init| / 10 ==> Part(init, i) == []
  {
    var rs := init + [r];
    if i < |init| / 10 {
      assert 10 * i + 10 <= |init|;
      assert rs[10 * i..10 * i + 10] == init[10 * i..10 * i + 10];
    }
  }

  /** Each request has the operations of its ten removals, in order, and the last config id that they give. */
  lemma {:induction false} BatchesAreParts(rs: seq<ReportRequest>, service: string, i: nat)
    requires Singles(rs, service) && i < (|rs| + 9) / 10
    ensures var bs := Batch(MergeItem, rs); |bs| == (|rs| + 9) / 10 && IsBatch(bs[i], Part(rs, i), service)
    decreases |rs|
  {
    hide *;
    var init, r := rs[..|rs| - 1], rs[|rs| - 1];
    assert rs == init + [r];
    SinglesInit(init, r, service);
    BatchingIsTight(rs, service);
    BatchingIsTight(init, service);
    BatchIs(init, r);
    PartStep(init, r, i);
    if i < |init| / 10 {
      BatchesAreParts(init, service, i);
    } else if |init| % 10 != 0 {
      BatchesAreParts(init, service, i);
    }
    GrownBatch(init, Batch(MergeItem, init), r, service, i);
  }

  lemma SinglesInit(init: seq<ReportRequest>, r: ReportRequest, service: string)
    requires Singles(init + [r], service)
    ensures Singles(init, service)
  {
    assert forall i :: 0 <= i < |init| ==> (init + [r])[i] == init[i];
  }

  lemma BatchIs(init: seq<ReportRequest>, r: ReportRequest)
    ensures Batch(MergeItem, init + [r]) == AddItem(MergeItem, Batch(MergeItem, init), r)
  {
    assert (init + [r])[..|init|] == init;
  }

  /** The next removal fills up the last request, or starts a new one. */
  lemma GrownBatch(init: seq<ReportRequest>, bs: seq<ReportRequest>, r: ReportRequest, service: string, i: nat)
    requires Singles(init + [r], service) && Packed(bs, service) && Flattened(bs) == Flattened(init)
    requires |Flattened(init)| == |init| && |bs| == (|init| + 9) / 10 && i <= |init| / 10
    requires i < |init| / 10 || |init| % 10 != 0 ==> i < |bs| && IsBatch(bs[i], Part(init, i), service)
    requires |init| % 10 == 0 && i == |init| / 10 ==> Part(init, i) == []
    ensures var cs, part := AddItem(MergeItem, bs, r), if i < |init| / 10 then Part(init, i) else Part(init, i) + [r];
            i < |cs| && IsBatch(cs[i], part, service)
  {
    hide Flattened, LastConfig, Part, Packed, MergeItem, AddItem;
    PartSnoc(Part(init, i), r);
    assert (init + [r])[|init|] == r;
    if |init| % 10 == 0 {
      NewBatch(init, bs, r, service);
      assert [] + r.operations == r.operations;
    } else {
      FullerBatch(init, bs, r, service);
    }
  }

  lemma NewBatch(init: seq<ReportRequest>, bs: seq<ReportRequest>, r: ReportRequest, service: string)
    requires Singles(init + [r], service) && Packed(bs, service) && Flattened(bs) == Flattened(init)
    requires |Flattened(init)| == |init| && |bs| == (|init| + 9) / 10 && |init| % 10 == 0
    ensures AddItem(MergeItem, bs, r) == bs + [r]
  {
    assert (init + [r])[|init|] == r;
    if bs != [] {
      PackedLength(bs, service);
    }
  }

  lemma FullerBatch(init: seq<ReportRequest>, bs: seq<ReportRequest>, r: ReportRequest, service: string)
    requires Singles(init + [r], service) && Packed(bs, service) && Flattened(bs) == Flattened(init)
    requires |Flattened(init)| == |init| && |bs| == (|init| + 9) / 10 && |init| % 10 != 0
    ensures bs != []
    ensures var old_, cs := bs[|bs| - 1], AddItem(MergeItem, bs, r);
            && |cs| == |bs| && cs[..|bs| - 1] == bs[..|bs| - 1]
            && cs[|bs| - 1].service == service && cs[|bs| - 1].operations == old_.operations + r.operations
            && cs[|bs| - 1].configId == if r.configId != "" then r.configId else old_.configId
  {
    assert (init + [r])[|init|] == r;
    PackedLength(bs, service);
  }

  lemma {:induction false} SameConfig(rs: seq<ReportRequest>, configId: string)
    requires rs != [] && forall r <- rs :: r.configId == configId
    ensures LastConfig(rs) == configId
  {
    if |rs| > 1 {
      SameConfig(rs[..|rs| - 1], configId);
    }
  }
}
