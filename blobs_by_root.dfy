/**
  Fetching the blobs of blocks by root.

  `UnavailableBeaconBlobsByRoot` completes a block whose blobs are only partly known. It sorts
  every missing blob index into the engine-getBlobs cache, an `engine_getBlobsV1` request, or a
  `BlobSidecarsByRoot` request, merges the answers into the block's shared `blobsCache`, trims the
  two process-wide caches, and then either resolves availability or fails with the number of blobs
  still missing. `BeaconBlocksMaybeBlobsByRoot` is the bulk path for a list of roots.

  The answers of the network and of the execution engine, and the blobs other tasks store into
  `blobsCache` while a request is awaited, are parameters; each method returns the requests it
  made, in order.
*/
module BlobsByRoot {
  import opened Results
  import opened Types
  import opened BlobTypes
  import opened InsertionOrdered

  /** The getBlobs cache holds one epoch of blobs: 32 slots of up to 16 blobs. */
  const MAX_ENGINE_GETBLOBS_CACHE: nat := 32 * 16
  const MAX_UNAVAILABLE_RETRY_CACHE: nat := 32

  /** A request the code sends to a peer or to the execution engine. */
  datatype Call =
    | BlocksByRootCall(roots: seq<Root>)
    | GetBlobsCall(fork: ForkName, versionedHashes: seq<VersionedHash>)
    | BlobSidecarsByRootCall(identifiers: seq<BlobIdentifier>)

  /** The execution engine's answer to `getBlobs`: it failed, or one slot per hash (it may be short). */
  datatype EngineAnswer = EngineFailed | EngineReturned(blobAndProofs: seq<Option<BlobAndProof>>)

  /** What the outside world does while the call runs. */
  datatype Answers = Answers(
    blocks: seq<WithBytes>,                          // sendBeaconBlocksByRoot, for a NullBlockInput
    engine: EngineAnswer,                            // executionEngine.getBlobs
    arrivedDuringEngine: map<nat, BlobCacheEntry>,   // stored into blobsCache while getBlobs is awaited
    sidecars: seq<BlobSidecar>,                      // sendBlobSidecarsByRoot
    arrivedDuringNetwork: map<nat, BlobCacheEntry>)  // stored into blobsCache while that is awaited

  datatype ResolveError =
    | NoBlockReturned                        // `allBlocks[0]` of an empty answer
    | BlobsNotCollected                      // getBlockInputBlobs threw
    | NotAllBlobsFetched(missingBlobs: int)

  /** An identifier the engine is asked about, with its commitment and versioned hash. */
  datatype EngineReq = EngineReq(blockRoot: Root, index: nat, versionedHash: VersionedHash, kzgCommitment: KzgCommitment)

  /** What the code derives from the block before it classifies the blobs. */
  datatype BlockContext = BlockContext(
    block: SignedBeaconBlock,
    fork: ForkName,
    blockRoot: Root,
    signedBlockHeader: SignedBeaconBlockHeader,
    triedBefore: bool)

  function ContextOf(env: Env, block: SignedBeaconBlock, triedBefore: bool): BlockContext {
    BlockContext(block, env.forkAt(block.message.slot), env.hashTreeRoot(block.message), env.signedHeader(block), triedBefore)
  }

  function Commitments(ctx: BlockContext): seq<KzgCommitment> {
    ctx.block.message.body.blobKzgCommitments
  }

  /** The sidecar rebuilt from an engine blob and proof, as the code stores it. */
  function RebuiltEntry(env: Env, ctx: BlockContext, index: nat, kzgCommitment: KzgCommitment, bp: BlobAndProof): BlobCacheEntry {
    var inclusionProof := env.inclusionProof(ctx.fork, ctx.block.message.body, index);
    BlobCacheEntry(BlobSidecar(index, bp.blob, kzgCommitment, bp.proof, ctx.signedBlockHeader, inclusionProof), None)
  }

  function MapStateOf<K(==,!new), V>(c: OrderedMap?<K, V>): Option<MapState<K, V>>
    reads c
  {
    if c == null then None else Some(c.State())
  }

  function SetStateOf<K(==,!new)>(c: OrderedSet?<K>): Option<seq<K>>
    reads c
  {
    if c == null then None else Some(c.elements)
  }

  /** The entries `has`/`get` see: an absent cache answers `has` with false, like an empty one. */
  function EntriesOf<K, V>(s: Option<MapState<K, V>>): map<K, V> {
    if s.Some? then s.value.entries else map[]
  }

  // ---------------------------------------------------------------------------------------------
  // Classification of the missing indices
  // ---------------------------------------------------------------------------------------------

  datatype Classified = Classified(blobsCache: map<nat, BlobCacheEntry>, engineReqs: seq<EngineReq>, networkReqs: seq<BlobIdentifier>)

  /** The classification loop after indices 0 .. k-1. */
  function ClassifyUpTo(env: Env, ctx: BlockContext, getBlobs: map<VersionedHash, Option<BlobAndProof>>,
                        blobsCache: map<nat, BlobCacheEntry>, k: nat): Classified
    requires k <= |Commitments(ctx)|
  {
    if k == 0 then Classified(blobsCache, [], [])
    else
      var c := ClassifyUpTo(env, ctx, getBlobs, blobsCache, k - 1);
      var index := k - 1;
      if index in c.blobsCache then c
      else
        var kzgCommitment := Commitments(ctx)[index];
        var versionedHash := env.versionedHash(kzgCommitment);
        if versionedHash in getBlobs && !ctx.triedBefore then
          match getBlobs[versionedHash]
          case None => c.(networkReqs := c.networkReqs + [BlobIdentifier(ctx.blockRoot, index)])
          case Some(bp) => c.(blobsCache := c.blobsCache[index := RebuiltEntry(env, ctx, index, kzgCommitment, bp)])
        else if ctx.triedBefore then c.(networkReqs := c.networkReqs + [BlobIdentifier(ctx.blockRoot, index)])
        else c.(engineReqs := c.engineReqs + [EngineReq(ctx.blockRoot, index, versionedHash, kzgCommitment)])
  }

  function Classify(env: Env, ctx: BlockContext, getBlobs: map<VersionedHash, Option<BlobAndProof>>,
                    blobsCache: map<nat, BlobCacheEntry>): Classified
  {
    ClassifyUpTo(env, ctx, getBlobs, blobsCache, |Commitments(ctx)|)
  }

  /** Where one blob index ends up, decided on the state before the loop. */
  datatype Route = AlreadyPresent | FromGetBlobsCache(blobAndProof: BlobAndProof) | ToEngine | ToNetwork

  /**
    The routing table of one index: a present index is left alone; on a retry every missing index
    goes to the network; otherwise a cached blob is rebuilt, a cached `null` goes to the network,
    and an uncached hash goes to the engine.
  */
  function RouteOf(env: Env, ctx: BlockContext, getBlobs: map<VersionedHash, Option<BlobAndProof>>,
                   blobsCache: map<nat, BlobCacheEntry>, index: nat): Route
    requires index < |Commitments(ctx)|
  {
    var versionedHash := env.versionedHash(Commitments(ctx)[index]);
    if index in blobsCache then AlreadyPresent
    else if ctx.triedBefore then ToNetwork
    else if versionedHash !in getBlobs then ToEngine
    else if getBlobs[versionedHash].None? then ToNetwork
    else FromGetBlobsCache(getBlobs[versionedHash].value)
  }

  method ClassifyMissing(env: Env, ctx: BlockContext, getBlobsCache: OrderedMap?<VersionedHash, Option<BlobAndProof>>, cd: CachedData)
    returns (engineReqs: seq<EngineReq>, networkReqs: seq<BlobIdentifier>)
    modifies cd
    ensures Classified(cd.blobsCache, engineReqs, networkReqs)
         == Classify(env, ctx, EntriesOf(MapStateOf(getBlobsCache)), old(cd.blobsCache))
    ensures cd.resolved == old(cd.resolved)
  {
    ghost var getBlobs := EntriesOf(MapStateOf(getBlobsCache));
    engineReqs, networkReqs := [], [];
    var blobKzgCommitmentsLen := |ctx.block.message.body.blobKzgCommitments|;
    var index := 0;
    while index < blobKzgCommitmentsLen
      invariant 0 <= index <= blobKzgCommitmentsLen
      invariant Classified(cd.blobsCache, engineReqs, networkReqs)
             == ClassifyUpTo(env, ctx, getBlobs, old(cd.blobsCache), index)
      invariant cd.resolved == old(cd.resolved)
    {
      if index !in cd.blobsCache {
        var kzgCommitment := ctx.block.message.body.blobKzgCommitments[index];
        var versionedHash := env.versionedHash(kzgCommitment);
        // a first attempt looks the hash up in the getBlobs cache
        if getBlobsCache != null && getBlobsCache.Has(versionedHash) && !ctx.triedBefore {
          var cachedBlobAndProof := getBlobsCache.Get(versionedHash).value;
          if cachedBlobAndProof.None? {
            networkReqs := networkReqs + [BlobIdentifier(ctx.blockRoot, index)];
          } else {
            cd.blobsCache := cd.blobsCache[index := RebuiltEntry(env, ctx, index, kzgCommitment, cachedBlobAndProof.value)];
          }
        } else if ctx.triedBefore {
          // a retry skips the engine
          networkReqs := networkReqs + [BlobIdentifier(ctx.blockRoot, index)];
        } else {
          // unknown to the getBlobs cache: the engine is asked
          engineReqs := engineReqs + [EngineReq(ctx.blockRoot, index, versionedHash, kzgCommitment)];
        }
      }
      index := index + 1;
    }
  }

  // ---------------------------------------------------------------------------------------------
  // Engine answer
  // ---------------------------------------------------------------------------------------------

  function VersionedHashes(engineReqs: seq<EngineReq>): (r: seq<VersionedHash>)
    ensures |r| == |engineReqs|
    ensures forall j :: 0 <= j < |r| ==> r[j] == engineReqs[j].versionedHash
  {
    seq(|engineReqs|, j requires 0 <= j < |engineReqs| => engineReqs[j].versionedHash)
  }

  /** The response list the merge loop reads: a failed call counts as `null` for every hash. */
  function EngineResponse(answer: EngineAnswer, count: nat): seq<Option<BlobAndProof>> {
    if answer.EngineFailed? then seq(count, _ => None) else answer.blobAndProofs
  }

  /** `blobAndProofs[j] ?? null`: a missing slot counts as `null`. */
  function ResponseAt(answer: EngineAnswer, count: nat, j: nat): (r: Option<BlobAndProof>)
    ensures answer.EngineFailed? ==> r.None?
  {
    var blobAndProofs := EngineResponse(answer, count);
    if j < |blobAndProofs| then blobAndProofs[j] else None
  }

  datatype Merged = Merged(blobsCache: map<nat, BlobCacheEntry>, networkReqs: seq<BlobIdentifier>)

  /** The merge loop over the engine answer after responses 0 .. k-1. */
  function MergeUpTo(env: Env, ctx: BlockContext, engineReqs: seq<EngineReq>, answer: EngineAnswer,
                     blobsCache: map<nat, BlobCacheEntry>, networkReqs: seq<BlobIdentifier>, k: nat): Merged
    requires k <= |engineReqs|
  {
    if k == 0 then Merged(blobsCache, networkReqs)
    else
      var m := MergeUpTo(env, ctx, engineReqs, answer, blobsCache, networkReqs, k - 1);
      var req := engineReqs[k - 1];
      if req.index in m.blobsCache then m
      else match ResponseAt(answer, |engineReqs|, k - 1)
        case Some(bp) => m.(blobsCache := m.blobsCache[req.index := RebuiltEntry(env, ctx, req.index, req.kzgCommitment, bp)])
        case None => m.(networkReqs := m.networkReqs + [BlobIdentifier(req.blockRoot, req.index)])
  }

  /** The getBlobs cache after the responses 0 .. k-1 were saved under their hashes. */
  function RecordUpTo(s: MapState<VersionedHash, Option<BlobAndProof>>, engineReqs: seq<EngineReq>, answer: EngineAnswer, k: nat)
    : MapState<VersionedHash, Option<BlobAndProof>>
    requires k <= |engineReqs|
  {
    if k == 0 then s
    else MapSet(RecordUpTo(s, engineReqs, answer, k - 1), engineReqs[k - 1].versionedHash, ResponseAt(answer, |engineReqs|, k - 1))
  }

  method MergeEngineAnswer(env: Env, ctx: BlockContext, engineReqs: seq<EngineReq>, answer: EngineAnswer,
                           getBlobsCache: OrderedMap?<VersionedHash, Option<BlobAndProof>>, cd: CachedData,
                           networkReqsBefore: seq<BlobIdentifier>)
    returns (networkReqs: seq<BlobIdentifier>)
    modifies cd, getBlobsCache
    ensures Merged(cd.blobsCache, networkReqs)
         == MergeUpTo(env, ctx, engineReqs, answer, old(cd.blobsCache), networkReqsBefore, |engineReqs|)
    ensures getBlobsCache != null ==>
              getBlobsCache.State() == RecordUpTo(old(getBlobsCache.State()), engineReqs, answer, |engineReqs|)
    ensures cd.resolved == old(cd.resolved)
  {
    networkReqs := networkReqsBefore;
    var versionedHashes := VersionedHashes(engineReqs);
    var blobAndProofs := EngineResponse(answer, |versionedHashes|);
    var j := 0;
    while j < |versionedHashes|
      invariant 0 <= j <= |versionedHashes|
      invariant Merged(cd.blobsCache, networkReqs)
             == MergeUpTo(env, ctx, engineReqs, answer, old(cd.blobsCache), networkReqsBefore, j)
      invariant getBlobsCache != null ==>
                  getBlobsCache.State() == RecordUpTo(old(getBlobsCache.State()), engineReqs, answer, j)
      invariant cd.resolved == old(cd.resolved)
    {
      var blobAndProof := if j < |blobAndProofs| then blobAndProofs[j] else None;
      // every answer, null included, is recorded under its hash
      if getBlobsCache != null {
        getBlobsCache.Set(versionedHashes[j], blobAndProof);
      }
      var req := engineReqs[j];
      if blobAndProof.Some? {
        // an index already present is not rebuilt
        if req.index !in cd.blobsCache {
          cd.blobsCache := cd.blobsCache[req.index := RebuiltEntry(env, ctx, req.index, req.kzgCommitment, blobAndProof.value)];
        }
      } else if req.index !in cd.blobsCache {
        // no blob: a still-missing index goes to the network
        networkReqs := networkReqs + [BlobIdentifier(req.blockRoot, req.index)];
      }
      j := j + 1;
    }
  }

  // ---------------------------------------------------------------------------------------------
  // Pruning
  // ---------------------------------------------------------------------------------------------

  function Max(a: int, b: int): int {
    if a >= b then a else b
  }

  /** Deletes the oldest keys of `m` while more than `cap` remain, walking `keys()` in order. */
  method PruneMap<K(==,!new), V>(m: OrderedMap<K, V>, cap: nat)
    requires m.Valid()
    modifies m
    ensures m.State() == MapPruned(old(m.State()), cap)
    ensures m.Valid()
  {
    ghost var s0 := m.State();
    var pruneLength := Max(0, m.Size() - cap);
    var keys := m.keys;
    var i := 0;
    while i < |keys|
      invariant 0 <= i <= PruneCount(|keys|, cap)
      invariant pruneLength == PruneCount(|keys|, cap) - i
      invariant m.keys == keys[i..]
      invariant m.entries == Restrict(s0.entries, keys[i..])
    {
      if pruneLength <= 0 {
        break;
      }
      DropFirstKey(s0, keys, i);
      m.Delete(keys[i]);
      pruneLength := pruneLength - 1;
      i := i + 1;
    }
    assert i == PruneCount(|keys|, cap);
    assert m.State() == MapPruned(s0, cap);
    MapPrunedWellFormed(s0, cap);
  }

  lemma MapPrunedWellFormed<K(!new), V>(s: MapState<K, V>, cap: nat)
    requires WellFormed(s)
    ensures WellFormed(MapPruned(s, cap))
  {
    MapPrunedProperties(s, cap);
  }

  /** One step of `PruneMap`: deleting the oldest remaining key leaves the suffix after it. */
  lemma DropFirstKey<K(!new), V>(s0: MapState<K, V>, keys: seq<K>, i: nat)
    requires WellFormed(s0) && keys == s0.keys && i < |keys|
    ensures Without(keys[i..], keys[i]) == keys[i + 1..]
    ensures Restrict(s0.entries, keys[i..]) - {keys[i]} == Restrict(s0.entries, keys[i + 1..])
  {
    var rest := keys[i..];
    assert Distinct(rest) by {
      forall a, b | 0 <= a < b < |rest| ensures rest[a] != rest[b] {
        assert rest[a] == keys[i + a] && rest[b] == keys[i + b];
      }
    }
    WithoutHead(rest);
    assert rest[1..] == keys[i + 1..];
  }

  /** Deletes the oldest elements of `s` while more than `cap` remain. */
  method PruneSet<K(==,!new)>(s: OrderedSet<K>, cap: nat)
    requires s.Valid()
    modifies s
    ensures s.elements == SetPruned(old(s.elements), cap)
    ensures s.Valid()
  {
    var pruneLength := Max(0, s.Size() - cap);
    var keys := s.elements;
    var i := 0;
    while i < |keys|
      invariant 0 <= i <= PruneCount(|keys|, cap)
      invariant pruneLength == PruneCount(|keys|, cap) - i
      invariant s.elements == keys[i..]
    {
      if pruneLength <= 0 {
        break;
      }
      DropFirstKey(MapState(keys, map k | k in keys :: 0), keys, i);
      s.Delete(keys[i]);
      pruneLength := pruneLength - 1;
      i := i + 1;
    }
    SetPrunedProperties(keys, cap);
  }

  // ---------------------------------------------------------------------------------------------
  // Network request and merge
  // ---------------------------------------------------------------------------------------------

  ghost predicate SortedByIndex(ids: seq<BlobIdentifier>) {
    forall a, b :: 0 <= a < b < |ids| ==> ids[a].index <= ids[b].index
  }

  /** Inserts `id` before the first element with a larger index. */
  function InsertByIndex(id: BlobIdentifier, sorted: seq<BlobIdentifier>): seq<BlobIdentifier> {
    if sorted == [] then [id]
    else if id.index < sorted[0].index then [id] + sorted
    else [sorted[0]] + InsertByIndex(id, sorted[1..])
  }

  /**
    `networkReqIdentifiers.sort((a, b) => a.index - b.index)`: a stable sort by ascending index,
    written as an insertion sort.
  */
  function SortByIndex(ids: seq<BlobIdentifier>): seq<BlobIdentifier> {
    if ids == [] then []
    else InsertByIndex(ids[|ids| - 1], SortByIndex(ids[..|ids| - 1]))
  }

  lemma SortedCons(x: BlobIdentifier, rest: seq<BlobIdentifier>)
    requires SortedByIndex(rest)
    requires forall y :: y in rest ==> x.index <= y.index
    ensures SortedByIndex([x] + rest)
  {
    var r := [x] + rest;
    forall a, b | 0 <= a < b < |r| ensures r[a].index <= r[b].index {
      assert r[b] == rest[b - 1];
      if a > 0 { assert r[a] == rest[a - 1]; }
    }
  }

  /** Inserting into a sorted list keeps it sorted and adds exactly the one element. */
  lemma InsertByIndexProperties(id: BlobIdentifier, sorted: seq<BlobIdentifier>)
    requires SortedByIndex(sorted)
    ensures SortedByIndex(InsertByIndex(id, sorted))
    ensures multiset(InsertByIndex(id, sorted)) == multiset(sorted) + multiset{id}
    ensures forall x :: x in InsertByIndex(id, sorted) ==> x == id || x in sorted
  {
    InsertByIndexContents(id, sorted);
    InsertByIndexSorted(id, sorted);
    forall x | x in InsertByIndex(id, sorted) ensures x == id || x in sorted {
      assert x in multiset(InsertByIndex(id, sorted));
    }
  }

  lemma {:induction false} InsertByIndexContents(id: BlobIdentifier, sorted: seq<BlobIdentifier>)
    ensures multiset(InsertByIndex(id, sorted)) == multiset(sorted) + multiset{id}
    decreases |sorted|
  {
    if sorted != [] && id.index >= sorted[0].index {
      InsertByIndexContents(id, sorted[1..]);
      assert sorted == [sorted[0]] + sorted[1..];
    }
  }

  lemma {:induction false} InsertByIndexSorted(id: BlobIdentifier, sorted: seq<BlobIdentifier>)
    requires SortedByIndex(sorted)
    ensures SortedByIndex(InsertByIndex(id, sorted))
    decreases |sorted|
  {
    if sorted != [] {
      if id.index < sorted[0].index {
        forall y | y in sorted ensures id.index <= y.index {
          var k :| 0 <= k < |sorted| && sorted[k] == y;
          if k > 0 { assert sorted[0].index <= sorted[k].index; }
        }
        SortedCons(id, sorted);
      } else {
        var tail := sorted[1..];
        assert SortedByIndex(tail) by {
          forall a, b | 0 <= a < b < |tail| ensures tail[a].index <= tail[b].index {
            assert tail[a] == sorted[a + 1] && tail[b] == sorted[b + 1];
          }
        }
        InsertByIndexSorted(id, tail);
        InsertByIndexContents(id, tail);
        var rest := InsertByIndex(id, tail);
        forall y | y in rest ensures sorted[0].index <= y.index {
          assert y in multiset(rest);
          if y != id {
            var k :| 0 <= k < |tail| && tail[k] == y;
            assert sorted[k + 1] == y;
          }
        }
        SortedCons(sorted[0], rest);
      }
    }
  }

  /** The sort returns a list sorted by index that is a permutation of its input. */
  lemma {:induction false} SortByIndexProperties(ids: seq<BlobIdentifier>)
    ensures SortedByIndex(SortByIndex(ids))
    ensures multiset(SortByIndex(ids)) == multiset(ids)
    ensures |SortByIndex(ids)| == |ids|
    decreases |ids|
  {
    if ids != [] {
      var init, last := ids[..|ids| - 1], ids[|ids| - 1];
      SortByIndexProperties(init);
      InsertByIndexProperties(last, SortByIndex(init));
      assert ids == init + [last];
      assert |multiset(SortByIndex(ids))| == |SortByIndex(ids)|;
    }
  }

  /** `blobsCache` after each sidecar was stored under its own `index`, in the order received. */
  function InsertSidecars(blobsCache: map<nat, BlobCacheEntry>, sidecars: seq<BlobSidecar>): map<nat, BlobCacheEntry> {
    if sidecars == [] then blobsCache
    else
      var last := sidecars[|sidecars| - 1];
      InsertSidecars(blobsCache, sidecars[..|sidecars| - 1])[last.index := BlobCacheEntry(last, None)]
  }

  method StoreSidecars(cd: CachedData, sidecars: seq<BlobSidecar>)
    modifies cd
    ensures cd.blobsCache == InsertSidecars(old(cd.blobsCache), sidecars)
    ensures cd.resolved == old(cd.resolved)
  {
    var k := 0;
    while k < |sidecars|
      invariant 0 <= k <= |sidecars|
      invariant cd.blobsCache == InsertSidecars(old(cd.blobsCache), sidecars[..k])
      invariant cd.resolved == old(cd.resolved)
    {
      var blobSidecar := sidecars[k];
      cd.blobsCache := cd.blobsCache[blobSidecar.index := BlobCacheEntry(blobSidecar, None)];
      assert sidecars[..k + 1][..k] == sidecars[..k];
      k := k + 1;
    }
    assert sidecars[..k] == sidecars;
  }

  // ---------------------------------------------------------------------------------------------
  // Completion and the whole call
  // ---------------------------------------------------------------------------------------------

  /** The availability data, or the error when the blobs cannot be collected or are not all there. */
  function Completion(env: Env, fork: ForkName, blobsCache: map<nat, BlobCacheEntry>, blobKzgCommitmentsLen: nat)
    : Result<BlockInputDataBlobs, ResolveError>
  {
    match env.blockInputBlobs(blobsCache)
    case None => Err(BlobsNotCollected)
    case Some(allBlobs) =>
      if |allBlobs.blobs| != blobKzgCommitmentsLen then Err(NotAllBlobsFetched(blobKzgCommitmentsLen - |allBlobs.blobs|))
      else Ok(BlockInputDataBlobs(fork, allBlobs.blobs, allBlobs.blobsBytes, ByRootBlobs))
  }

  /** The result, the requests made, and the new state of everything the call writes. */
  datatype Outcome = Outcome(
    result: Result<BlockInput, ResolveError>,
    calls: seq<Call>,
    blobsCache: map<nat, BlobCacheEntry>,
    resolved: seq<BlockInputDataBlobs>,
    getBlobsCache: Option<MapState<VersionedHash, Option<BlobAndProof>>>,
    retryTracker: Option<seq<Root>>)

  /** Resolving the blobs of a known block: the retry tracker and the classification come first. */
  function ResolveBlock(env: Env, block: SignedBeaconBlock, blockBytes: Option<Bytes>, fork: ForkName,
                        blobsCache: map<nat, BlobCacheEntry>, resolved: seq<BlockInputDataBlobs>,
                        getBlobs: Option<MapState<VersionedHash, Option<BlobAndProof>>>, tracker: Option<seq<Root>>,
                        answers: Answers): Outcome
  {
    var blockRoot := env.hashTreeRoot(block.message);
    var triedBefore := tracker.Some? && blockRoot in tracker.value;
    var tracked := if tracker.Some? && !triedBefore then Some(SetAdd(tracker.value, blockRoot)) else tracker;
    var ctx := ContextOf(env, block, triedBefore);
    AfterClassify(env, ctx, blockBytes, fork, Classify(env, ctx, EntriesOf(getBlobs), blobsCache), resolved, getBlobs, tracked, answers)
  }

  /**
    After the classification: the engine is asked (always, even for no hash), the blobs stored in
    the meantime join the cache, the answers are merged and recorded, and both process-wide caches
    are trimmed.
  */
  function AfterClassify(env: Env, ctx: BlockContext, blockBytes: Option<Bytes>, fork: ForkName, c: Classified,
                         resolved: seq<BlockInputDataBlobs>,
                         getBlobs: Option<MapState<VersionedHash, Option<BlobAndProof>>>, tracker: Option<seq<Root>>,
                         answers: Answers): Outcome
  {
    var m := MergeUpTo(env, ctx, c.engineReqs, answers.engine, c.blobsCache + answers.arrivedDuringEngine, c.networkReqs, |c.engineReqs|);
    var getBlobs' := if getBlobs.Some? then Some(MapPruned(RecordUpTo(getBlobs.value, c.engineReqs, answers.engine, |c.engineReqs|), MAX_ENGINE_GETBLOBS_CACHE)) else None;
    var tracker' := if tracker.Some? then Some(SetPruned(tracker.value, MAX_UNAVAILABLE_RETRY_CACHE)) else None;
    AfterMerge(env, ctx, blockBytes, fork, [GetBlobsCall(Deneb, VersionedHashes(c.engineReqs))], m, resolved, getBlobs', tracker', answers)
  }

  /**
    After the merge: the remaining identifiers are sorted and requested from the network when
    there are any, the sidecars are stored, and availability is resolved or refused.
  */
  function AfterMerge(env: Env, ctx: BlockContext, blockBytes: Option<Bytes>, fork: ForkName, calls: seq<Call>, m: Merged,
                      resolved: seq<BlockInputDataBlobs>,
                      getBlobs: Option<MapState<VersionedHash, Option<BlobAndProof>>>, tracker: Option<seq<Root>>,
                      answers: Answers): Outcome
  {
    var networkReqs := SortByIndex(m.networkReqs);
    var calls' := calls + (if |networkReqs| > 0 then [BlobSidecarsByRootCall(networkReqs)] else []);
    var blobsCache' := if |networkReqs| > 0 then InsertSidecars(m.blobsCache + answers.arrivedDuringNetwork, answers.sidecars)
                       else m.blobsCache;
    match Completion(env, fork, blobsCache', |Commitments(ctx)|)
    case Err(e) => Outcome(Err(e), calls', blobsCache', resolved, getBlobs, tracker)
    case Ok(blockData) =>
      Outcome(Ok(BlockInput(ctx.block, ByRootBlock, blockBytes, AvailableData(blockData))), calls', blobsCache', resolved + [blockData], getBlobs, tracker)
  }

  /** An input with a block that is not waiting for data is handed back as it is. */
  predicate ReturnsUnchanged(u: MaybeBlockInput) {
    u.Known? && !u.input.kind.DataPromise?
  }

  function CachedDataOf(u: MaybeBlockInput): (cd: CachedData?)
    ensures cd == null <==> ReturnsUnchanged(u)
  {
    if u.NullBlockInput? then u.cachedData
    else if u.input.kind.DataPromise? then u.input.kind.cachedData
    else null
  }

  /** The whole call on the state values before it. */
  function Unavailable(env: Env, u: MaybeBlockInput, blobsCache: map<nat, BlobCacheEntry>, resolved: seq<BlockInputDataBlobs>,
                       getBlobs: Option<MapState<VersionedHash, Option<BlobAndProof>>>, tracker: Option<seq<Root>>,
                       answers: Answers): Outcome
  {
    if ReturnsUnchanged(u) then Outcome(Ok(u.input), [], blobsCache, resolved, getBlobs, tracker)
    else if u.Known? then
      ResolveBlock(env, u.input.block, u.input.blockBytes, u.input.kind.cachedData.fork, blobsCache, resolved, getBlobs, tracker, answers)
    else
      var fetch := BlocksByRootCall([u.blockRootHex]);
      if |answers.blocks| == 0 then Outcome(Err(NoBlockReturned), [fetch], blobsCache, resolved, getBlobs, tracker)
      else
        var o := ResolveBlock(env, answers.blocks[0].data, Some(answers.blocks[0].bytes), u.cachedData.fork,
                              blobsCache, resolved, getBlobs, tracker, answers);
        o.(calls := [fetch] + o.calls)
  }

  method ResolveKnownBlock(env: Env, block: SignedBeaconBlock, blockBytes: Option<Bytes>, cd: CachedData,
                           getBlobsCache: OrderedMap?<VersionedHash, Option<BlobAndProof>>,
                           retryTracker: OrderedSet?<Root>, answers: Answers)
    returns (r: Result<BlockInput, ResolveError>, calls: seq<Call>)
    requires getBlobsCache != null ==> getBlobsCache.Valid()
    requires retryTracker != null ==> retryTracker.Valid()
    modifies cd, getBlobsCache, retryTracker
    ensures getBlobsCache != null ==> getBlobsCache.Valid()
    ensures retryTracker != null ==> retryTracker.Valid()
    ensures Outcome(r, calls, cd.blobsCache, cd.resolved, MapStateOf(getBlobsCache), SetStateOf(retryTracker))
         == ResolveBlock(env, block, blockBytes, cd.fork, old(cd.blobsCache), old(cd.resolved),
                         old(MapStateOf(getBlobsCache)), old(SetStateOf(retryTracker)), answers)
  {
    var blockRootHex := env.hashTreeRoot(block.message);
    var blockTriedBefore := retryTracker != null && retryTracker.Has(blockRootHex);
    if !blockTriedBefore && retryTracker != null {
      SetAddProperties(retryTracker.elements, blockRootHex);
      retryTracker.Add(blockRootHex);
    }
    var ctx := ContextOf(env, block, blockTriedBefore);
    var engineReqs, networkReqs := ClassifyMissing(env, ctx, getBlobsCache, cd);
    r, calls := MergeAndComplete(env, ctx, blockBytes, cd, engineReqs, networkReqs, getBlobsCache, retryTracker, answers);
  }

  method MergeAndComplete(env: Env, ctx: BlockContext, blockBytes: Option<Bytes>, cd: CachedData,
                          engineReqs: seq<EngineReq>, networkReqs: seq<BlobIdentifier>,
                          getBlobsCache: OrderedMap?<VersionedHash, Option<BlobAndProof>>,
                          retryTracker: OrderedSet?<Root>, answers: Answers)
    returns (r: Result<BlockInput, ResolveError>, calls: seq<Call>)
    requires getBlobsCache != null ==> getBlobsCache.Valid()
    requires retryTracker != null ==> retryTracker.Valid()
    modifies cd, getBlobsCache, retryTracker
    ensures getBlobsCache != null ==> getBlobsCache.Valid()
    ensures retryTracker != null ==> retryTracker.Valid()
    ensures Outcome(r, calls, cd.blobsCache, cd.resolved, MapStateOf(getBlobsCache), SetStateOf(retryTracker))
         == AfterClassify(env, ctx, blockBytes, cd.fork, Classified(old(cd.blobsCache), engineReqs, networkReqs), old(cd.resolved),
                          old(MapStateOf(getBlobsCache)), old(SetStateOf(retryTracker)), answers)
  {
    var versionedHashes := VersionedHashes(engineReqs);
    calls := [GetBlobsCall(Deneb, versionedHashes)];
    // blobs that other tasks stored while the engine was awaited
    cd.blobsCache := cd.blobsCache + answers.arrivedDuringEngine;
    var remaining := MergeEngineAnswer(env, ctx, engineReqs, answers.engine, getBlobsCache, cd, networkReqs);
    if getBlobsCache != null {
      RecordKeepsWellFormed(old(getBlobsCache.State()), engineReqs, answers.engine, |engineReqs|);
      PruneMap(getBlobsCache, MAX_ENGINE_GETBLOBS_CACHE);
    }
    if retryTracker != null {
      PruneSet(retryTracker, MAX_UNAVAILABLE_RETRY_CACHE);
    }
    r, calls := FetchAndComplete(env, ctx, blockBytes, cd, calls, remaining, MapStateOf(getBlobsCache), SetStateOf(retryTracker), answers);
  }

  method FetchAndComplete(env: Env, ctx: BlockContext, blockBytes: Option<Bytes>, cd: CachedData,
                          callsBefore: seq<Call>, networkReqs: seq<BlobIdentifier>,
                          ghost getBlobs: Option<MapState<VersionedHash, Option<BlobAndProof>>>, ghost tracker: Option<seq<Root>>,
                          answers: Answers)
    returns (r: Result<BlockInput, ResolveError>, calls: seq<Call>)
    modifies cd
    ensures Outcome(r, calls, cd.blobsCache, cd.resolved, getBlobs, tracker)
         == AfterMerge(env, ctx, blockBytes, cd.fork, callsBefore, Merged(old(cd.blobsCache), networkReqs), old(cd.resolved),
                       getBlobs, tracker, answers)
  {
    calls := callsBefore;
    // the network request lists identifiers by increasing index
    var sortedReqs := SortByIndex(networkReqs);
    if |sortedReqs| > 0 {
      calls := calls + [BlobSidecarsByRootCall(sortedReqs)];
      // blobs that other tasks stored while the network was awaited
      cd.blobsCache := cd.blobsCache + answers.arrivedDuringNetwork;
      StoreSidecars(cd, answers.sidecars);
    }

    r := CompleteAvailability(env, ctx, blockBytes, cd);
  }

  /** Collects the blobs of the cache: with one per commitment the block is available, otherwise the call fails. */
  method CompleteAvailability(env: Env, ctx: BlockContext, blockBytes: Option<Bytes>, cd: CachedData)
    returns (r: Result<BlockInput, ResolveError>)
    modifies cd
    ensures cd.blobsCache == old(cd.blobsCache)
    ensures match Completion(env, cd.fork, cd.blobsCache, |Commitments(ctx)|)
      case Err(e) => r == Err(e) && cd.resolved == old(cd.resolved)
      case Ok(blockData) =>
        r == Ok(BlockInput(ctx.block, ByRootBlock, blockBytes, AvailableData(blockData))) && cd.resolved == old(cd.resolved) + [blockData]
  {
    var blobKzgCommitmentsLen := |ctx.block.message.body.blobKzgCommitments|;
    var allBlobs := env.blockInputBlobs(cd.blobsCache);
    if allBlobs.None? {
      return Err(BlobsNotCollected);
    }
    if |allBlobs.value.blobs| != blobKzgCommitmentsLen {
      return Err(NotAllBlobsFetched(blobKzgCommitmentsLen - |allBlobs.value.blobs|));
    }
    var blockData := BlockInputDataBlobs(cd.fork, allBlobs.value.blobs, allBlobs.value.blobsBytes, ByRootBlobs);
    cd.ResolveAvailability(blockData);
    return Ok(BlockInput(ctx.block, ByRootBlock, blockBytes, AvailableData(blockData)));
  }

  /** Saving the engine responses keeps the getBlobs cache a well-formed insertion-ordered map. */
  lemma {:induction false} RecordKeepsWellFormed(s: MapState<VersionedHash, Option<BlobAndProof>>, engineReqs: seq<EngineReq>,
                                                 answer: EngineAnswer, k: nat)
    requires WellFormed(s) && k <= |engineReqs|
    ensures WellFormed(RecordUpTo(s, engineReqs, answer, k))
  {
    if k > 0 {
      RecordKeepsWellFormed(s, engineReqs, answer, k - 1);
      MapSetProperties(RecordUpTo(s, engineReqs, answer, k - 1), engineReqs[k - 1].versionedHash, ResponseAt(answer, |engineReqs|, k - 1));
    }
  }

  /**
    `unavailableBeaconBlobsByRoot`. An input that already has its block and is not waiting for
    data is returned as it is, without any request. Otherwise the block is fetched when only its
    root is known, and its blobs are resolved as `ResolveBlock` describes.
  */
  method UnavailableBeaconBlobsByRoot(env: Env, unavailableBlockInput: MaybeBlockInput,
                                      getBlobsCache: OrderedMap?<VersionedHash, Option<BlobAndProof>>,
                                      retryTracker: OrderedSet?<Root>, answers: Answers)
    returns (r: Result<BlockInput, ResolveError>, calls: seq<Call>)
    requires getBlobsCache != null ==> getBlobsCache.Valid()
    requires retryTracker != null ==> retryTracker.Valid()
    modifies CachedDataOf(unavailableBlockInput), getBlobsCache, retryTracker
    ensures getBlobsCache != null ==> getBlobsCache.Valid()
    ensures retryTracker != null ==> retryTracker.Valid()
    ensures ReturnsUnchanged(unavailableBlockInput) ==>
              && r == Ok(unavailableBlockInput.input) && calls == []
              && MapStateOf(getBlobsCache) == old(MapStateOf(getBlobsCache))
              && SetStateOf(retryTracker) == old(SetStateOf(retryTracker))
    ensures !ReturnsUnchanged(unavailableBlockInput) ==>
              var cd := CachedDataOf(unavailableBlockInput);
              Outcome(r, calls, cd.blobsCache, cd.resolved, MapStateOf(getBlobsCache), SetStateOf(retryTracker))
              == Unavailable(env, unavailableBlockInput, old(cd.blobsCache), old(cd.resolved),
                             old(MapStateOf(getBlobsCache)), old(SetStateOf(retryTracker)), answers)
  {
    if unavailableBlockInput.Known? && !unavailableBlockInput.input.kind.DataPromise? {
      return Ok(unavailableBlockInput.input), [];
    }
    var block, blockBytes, cachedData, fetched;
    if unavailableBlockInput.NullBlockInput? {
      // only the root is known: the block is fetched first
      var allBlocks := answers.blocks;
      fetched := [BlocksByRootCall([unavailableBlockInput.blockRootHex])];
      if |allBlocks| == 0 {
        return Err(NoBlockReturned), fetched;
      }
      block, blockBytes := allBlocks[0].data, Some(allBlocks[0].bytes);
      cachedData := unavailableBlockInput.cachedData;
    } else {
      block, blockBytes := unavailableBlockInput.input.block, unavailableBlockInput.input.blockBytes;
      cachedData := unavailableBlockInput.input.kind.cachedData;
      fetched := [];
    }
    var rest;
    r, rest := ResolveKnownBlock(env, block, blockBytes, cachedData, getBlobsCache, retryTracker, answers);
    calls := fetched + rest;
  }

  // ---------------------------------------------------------------------------------------------
  // Bulk path
  // ---------------------------------------------------------------------------------------------

  /** The identifiers of one block: `(blockRoot, 0 .. len-1)` from Deneb on, none before. */
  function BlockIdentifiers(env: Env, block: SignedBeaconBlock): seq<BlobIdentifier> {
    var blockRoot := env.hashTreeRoot(block.message);
    if ForkSeq(env.forkAt(block.message.slot)) >= ForkSeq(Deneb) then
      seq(|block.message.body.blobKzgCommitments|, index requires 0 <= index => BlobIdentifier(blockRoot, index))
    else []
  }

  /** The identifiers of all blocks, in block order. */
  function BulkIdentifiers(env: Env, blocks: seq<WithBytes>): seq<BlobIdentifier> {
    ConcatMap((block: WithBytes) => BlockIdentifiers(env, block.data), blocks)
  }

  /** `f` applied to every element of `xs`, the results concatenated in order. */
  function ConcatMap<T, U>(f: T -> seq<U>, xs: seq<T>): seq<U> {
    if xs == [] then []
    else ConcatMap(f, xs[..|xs| - 1]) + f(xs[|xs| - 1])
  }

  /**
    `beaconBlocksMaybeBlobsByRoot`: fetches the blocks, asks for one identifier per commitment of
    each block from Deneb on, skips the blob request when there is none, and hands both answers to
    `matchBlockWithBlobs`.
  */
  method BeaconBlocksMaybeBlobsByRoot(env: Env, request: seq<Root>, blocksAnswer: seq<WithBytes>, sidecarsAnswer: seq<BlobSidecar>)
    returns (r: seq<BlockInput>, calls: seq<Call>)
    ensures var ids := BulkIdentifiers(env, blocksAnswer);
      && calls == [BlocksByRootCall(request)] + (if |ids| > 0 then [BlobSidecarsByRootCall(ids)] else [])
      && r == env.matchBlockWithBlobs(blocksAnswer, if |ids| > 0 then sidecarsAnswer else [])
  {
    calls := [BlocksByRootCall(request)];
    var allBlocks := blocksAnswer;
    var blobIdentifiers: seq<BlobIdentifier> := [];
    var k := 0;
    while k < |allBlocks|
      invariant 0 <= k <= |allBlocks|
      invariant blobIdentifiers == BulkIdentifiers(env, allBlocks[..k])
    {
      var block := allBlocks[k];
      var slot := block.data.message.slot;
      var blockRoot := env.hashTreeRoot(block.data.message);
      var fork := env.forkAt(slot);
      ghost var before := blobIdentifiers;
      if ForkSeq(fork) >= ForkSeq(Deneb) {
        var blobKzgCommitmentsLen := |block.data.message.body.blobKzgCommitments|;
        var index := 0;
        while index < blobKzgCommitmentsLen
          invariant 0 <= index <= blobKzgCommitmentsLen
          invariant blobIdentifiers == before + seq(index, i requires 0 <= i => BlobIdentifier(blockRoot, i))
        {
          blobIdentifiers := blobIdentifiers + [BlobIdentifier(blockRoot, index)];
          index := index + 1;
        }
      }
      assert allBlocks[..k + 1][..k] == allBlocks[..k];
      k := k + 1;
    }
    assert allBlocks[..k] == allBlocks;

    var allBlobSidecars;
    if |blobIdentifiers| > 0 {
      calls := calls + [BlobSidecarsByRootCall(blobIdentifiers)];
      allBlobSidecars := sidecarsAnswer;
    } else {
      allBlobSidecars := [];
    }
    r := env.matchBlockWithBlobs(allBlocks, allBlobSidecars);
  }
}
