/**
  What the blob resolution promises: where each missing index is looked up, that nothing already
  received is overwritten, what the getBlobs cache records, that both process-wide caches stay
  bounded, when availability is resolved, and which identifiers the bulk path requests.
*/
module BlobsByRootProperties {
  import opened Results
  import opened Types
  import opened BlobTypes
  import opened InsertionOrdered
  import opened BlobsByRoot

  /** The engine request the classification makes for index `i`. */
  function EngineReqFor(env: Env, ctx: BlockContext, i: nat): EngineReq
    requires i < |Commitments(ctx)|
  {
    EngineReq(ctx.blockRoot, i, env.versionedHash(Commitments(ctx)[i]), Commitments(ctx)[i])
  }

  ghost predicate IncreasingReqs(reqs: seq<EngineReq>) {
    forall a, b :: 0 <= a < b < |reqs| ==> reqs[a].index < reqs[b].index
  }

  ghost predicate IncreasingIds(ids: seq<BlobIdentifier>) {
    forall a, b :: 0 <= a < b < |ids| ==> ids[a].index < ids[b].index
  }

  // ---------------------------------------------------------------------------------------------
  // Classification
  // ---------------------------------------------------------------------------------------------

  /**
    The classification never changes an entry that is already there, and adds exactly the indices
    found with a blob in the getBlobs cache, each rebuilt from that blob and proof.
  */
  lemma ClassifyCache(env: Env, ctx: BlockContext, getBlobs: map<VersionedHash, Option<BlobAndProof>>,
                       blobsCache: map<nat, BlobCacheEntry>, k: nat)
    requires k <= |Commitments(ctx)|
    ensures var c := ClassifyUpTo(env, ctx, getBlobs, blobsCache, k);
      && (forall i: nat :: i in blobsCache ==> i in c.blobsCache && c.blobsCache[i] == blobsCache[i])
      && (forall i: nat :: i in c.blobsCache ==>
            i in blobsCache || (i < k && RouteOf(env, ctx, getBlobs, blobsCache, i).FromGetBlobsCache?))
      && (forall i: nat :: i < k && RouteOf(env, ctx, getBlobs, blobsCache, i).FromGetBlobsCache? ==>
            && i in c.blobsCache
            && c.blobsCache[i] == RebuiltEntry(env, ctx, i, Commitments(ctx)[i], RouteOf(env, ctx, getBlobs, blobsCache, i).blobAndProof))
  {
    ClassifyKeepsCache(env, ctx, getBlobs, blobsCache, k);
    ClassifyRebuilds(env, ctx, getBlobs, blobsCache, k);
  }

  /** The classification keeps every entry, and adds only indices found with a blob in the getBlobs cache. */
  lemma {:induction false} ClassifyKeepsCache(env: Env, ctx: BlockContext, getBlobs: map<VersionedHash, Option<BlobAndProof>>,
                                              blobsCache: map<nat, BlobCacheEntry>, k: nat)
    requires k <= |Commitments(ctx)|
    ensures var c := ClassifyUpTo(env, ctx, getBlobs, blobsCache, k);
      && (forall i: nat :: i in blobsCache ==> i in c.blobsCache && c.blobsCache[i] == blobsCache[i])
      && (forall i: nat :: i in c.blobsCache ==>
            i in blobsCache || (i < k && RouteOf(env, ctx, getBlobs, blobsCache, i).FromGetBlobsCache?))
  {
    if k > 0 {
      ClassifyKeepsCache(env, ctx, getBlobs, blobsCache, k - 1);
      ClassifyStep(env, ctx, getBlobs, blobsCache, k);
      var c := ClassifyUpTo(env, ctx, getBlobs, blobsCache, k - 1);
      var c' := ClassifyUpTo(env, ctx, getBlobs, blobsCache, k);
      var route := RouteOf(env, ctx, getBlobs, blobsCache, k - 1);
      if route.FromGetBlobsCache? {
        assert c'.blobsCache == c.blobsCache[k - 1 := RebuiltEntry(env, ctx, k - 1, Commitments(ctx)[k - 1], route.blobAndProof)];
        assert k - 1 !in blobsCache;
      } else {
        assert c'.blobsCache == c.blobsCache;
      }
    }
  }

  /** Every index found with a blob in the getBlobs cache holds the sidecar rebuilt from it. */
  lemma {:induction false} ClassifyRebuilds(env: Env, ctx: BlockContext, getBlobs: map<VersionedHash, Option<BlobAndProof>>,
                                            blobsCache: map<nat, BlobCacheEntry>, k: nat)
    requires k <= |Commitments(ctx)|
    ensures var c := ClassifyUpTo(env, ctx, getBlobs, blobsCache, k);
      forall i: nat :: i < k && RouteOf(env, ctx, getBlobs, blobsCache, i).FromGetBlobsCache? ==>
        && i in c.blobsCache
        && c.blobsCache[i] == RebuiltEntry(env, ctx, i, Commitments(ctx)[i], RouteOf(env, ctx, getBlobs, blobsCache, i).blobAndProof)
  {
    if k > 0 {
      ClassifyRebuilds(env, ctx, getBlobs, blobsCache, k - 1);
      ClassifyStep(env, ctx, getBlobs, blobsCache, k);
      var c := ClassifyUpTo(env, ctx, getBlobs, blobsCache, k - 1);
      var c' := ClassifyUpTo(env, ctx, getBlobs, blobsCache, k);
      forall i: nat | i < k && RouteOf(env, ctx, getBlobs, blobsCache, i).FromGetBlobsCache?
        ensures && i in c'.blobsCache
                && c'.blobsCache[i] == RebuiltEntry(env, ctx, i, Commitments(ctx)[i], RouteOf(env, ctx, getBlobs, blobsCache, i).blobAndProof)
      {
        var route := RouteOf(env, ctx, getBlobs, blobsCache, k - 1);
        if i < k - 1 {
          assert i in c.blobsCache;
          assert c'.blobsCache == c.blobsCache || c'.blobsCache == c.blobsCache[k - 1 := RebuiltEntry(env, ctx, k - 1, Commitments(ctx)[k - 1], route.blobAndProof)];
        } else {
          assert c'.blobsCache == c.blobsCache[k - 1 := RebuiltEntry(env, ctx, k - 1, Commitments(ctx)[k - 1], route.blobAndProof)];
        }
      }
    }
  }

  /** The first `k` steps of the classification neither add nor change an entry at index `k` or above. */
  lemma {:induction false} ClassifyLeavesLaterIndices(env: Env, ctx: BlockContext, getBlobs: map<VersionedHash, Option<BlobAndProof>>,
                                                      blobsCache: map<nat, BlobCacheEntry>, k: nat, i: nat)
    requires k <= |Commitments(ctx)| && k <= i
    ensures var c := ClassifyUpTo(env, ctx, getBlobs, blobsCache, k);
      && (i in c.blobsCache <==> i in blobsCache)
      && (i in blobsCache ==> c.blobsCache[i] == blobsCache[i])
  {
    if k > 0 {
      ClassifyLeavesLaterIndices(env, ctx, getBlobs, blobsCache, k - 1, i);
    }
  }

  /** One step of the classification loop follows the route of its index. */
  lemma ClassifyStep(env: Env, ctx: BlockContext, getBlobs: map<VersionedHash, Option<BlobAndProof>>,
                     blobsCache: map<nat, BlobCacheEntry>, k: nat)
    requires 0 < k <= |Commitments(ctx)|
    ensures var c := ClassifyUpTo(env, ctx, getBlobs, blobsCache, k - 1);
      var c' := ClassifyUpTo(env, ctx, getBlobs, blobsCache, k);
      var route := RouteOf(env, ctx, getBlobs, blobsCache, k - 1);
      && (route.AlreadyPresent? ==> c' == c)
      && (route.FromGetBlobsCache? ==>
            c' == c.(blobsCache := c.blobsCache[k - 1 := RebuiltEntry(env, ctx, k - 1, Commitments(ctx)[k - 1], route.blobAndProof)]))
      && (route.ToEngine? ==> c' == c.(engineReqs := c.engineReqs + [EngineReqFor(env, ctx, k - 1)]))
      && (route.ToNetwork? ==> c' == c.(networkReqs := c.networkReqs + [BlobIdentifier(ctx.blockRoot, k - 1)]))
  {
    ClassifyLeavesLaterIndices(env, ctx, getBlobs, blobsCache, k - 1, k - 1);
  }

  /** The engine is asked about exactly the indices routed to it, in increasing order. */
  lemma {:induction false} ClassifyEngine(env: Env, ctx: BlockContext, getBlobs: map<VersionedHash, Option<BlobAndProof>>,
                                          blobsCache: map<nat, BlobCacheEntry>, k: nat)
    requires k <= |Commitments(ctx)|
    ensures var c := ClassifyUpTo(env, ctx, getBlobs, blobsCache, k);
      && (forall j :: 0 <= j < |c.engineReqs| ==>
            && c.engineReqs[j].index < k
            && c.engineReqs[j] == EngineReqFor(env, ctx, c.engineReqs[j].index)
            && RouteOf(env, ctx, getBlobs, blobsCache, c.engineReqs[j].index).ToEngine?)
      && (forall i: nat :: i < k && RouteOf(env, ctx, getBlobs, blobsCache, i).ToEngine? ==> EngineReqFor(env, ctx, i) in c.engineReqs)
      && IncreasingReqs(c.engineReqs)
  {
    if k > 0 {
      ClassifyEngine(env, ctx, getBlobs, blobsCache, k - 1);
      ClassifyStep(env, ctx, getBlobs, blobsCache, k);
      var before := ClassifyUpTo(env, ctx, getBlobs, blobsCache, k - 1).engineReqs;
      var after := ClassifyUpTo(env, ctx, getBlobs, blobsCache, k).engineReqs;
      if RouteOf(env, ctx, getBlobs, blobsCache, k - 1).ToEngine? {
        EngineAppendStep(env, ctx, getBlobs, blobsCache, k, before, after);
      } else {
        assert after == before;
      }
    }
    ClassifyEngineComplete(env, ctx, getBlobs, blobsCache, k);
  }

  lemma {:induction false} ClassifyEngineComplete(env: Env, ctx: BlockContext, getBlobs: map<VersionedHash, Option<BlobAndProof>>,
                                                  blobsCache: map<nat, BlobCacheEntry>, k: nat)
    requires k <= |Commitments(ctx)|
    ensures forall i: nat :: i < k && RouteOf(env, ctx, getBlobs, blobsCache, i).ToEngine? ==>
              EngineReqFor(env, ctx, i) in ClassifyUpTo(env, ctx, getBlobs, blobsCache, k).engineReqs
  {
    if k > 0 {
      ClassifyEngineComplete(env, ctx, getBlobs, blobsCache, k - 1);
      ClassifyStep(env, ctx, getBlobs, blobsCache, k);
      var before := ClassifyUpTo(env, ctx, getBlobs, blobsCache, k - 1).engineReqs;
      var after := ClassifyUpTo(env, ctx, getBlobs, blobsCache, k).engineReqs;
      if RouteOf(env, ctx, getBlobs, blobsCache, k - 1).ToEngine? {
        assert after == before + [EngineReqFor(env, ctx, k - 1)];
      } else {
        assert after == before;
      }
    }
  }

  /** Appending the request of index `k - 1` keeps the engine request's properties up to `k`. */
  lemma EngineAppendStep(env: Env, ctx: BlockContext, getBlobs: map<VersionedHash, Option<BlobAndProof>>,
                         blobsCache: map<nat, BlobCacheEntry>, k: nat, before: seq<EngineReq>, after: seq<EngineReq>)
    requires 0 < k <= |Commitments(ctx)|
    requires RouteOf(env, ctx, getBlobs, blobsCache, k - 1).ToEngine?
    requires after == before + [EngineReqFor(env, ctx, k - 1)]
    requires forall j :: 0 <= j < |before| ==>
               && before[j].index < k - 1
               && before[j] == EngineReqFor(env, ctx, before[j].index)
               && RouteOf(env, ctx, getBlobs, blobsCache, before[j].index).ToEngine?
    requires IncreasingReqs(before)
    ensures forall j :: 0 <= j < |after| ==>
              && after[j].index < k
              && after[j] == EngineReqFor(env, ctx, after[j].index)
              && RouteOf(env, ctx, getBlobs, blobsCache, after[j].index).ToEngine?
    ensures IncreasingReqs(after)
  {
    assert EngineReqFor(env, ctx, k - 1).index == k - 1;
    forall a, b | 0 <= a < b < |after| ensures after[a].index < after[b].index {
      assert after[a] == before[a];
      if b < |before| { assert after[b] == before[b]; }
    }
    forall j | 0 <= j < |after|
      ensures && after[j].index < k
              && after[j] == EngineReqFor(env, ctx, after[j].index)
              && RouteOf(env, ctx, getBlobs, blobsCache, after[j].index).ToEngine?
    {
      if j < |before| { assert after[j] == before[j]; }
    }
  }

  /** The network is asked for exactly the indices routed to it, in increasing order. */
  lemma {:induction false} ClassifyNetwork(env: Env, ctx: BlockContext, getBlobs: map<VersionedHash, Option<BlobAndProof>>,
                                           blobsCache: map<nat, BlobCacheEntry>, k: nat)
    requires k <= |Commitments(ctx)|
    ensures var c := ClassifyUpTo(env, ctx, getBlobs, blobsCache, k);
      && (forall j :: 0 <= j < |c.networkReqs| ==>
            && c.networkReqs[j].blockRoot == ctx.blockRoot
            && c.networkReqs[j].index < k
            && RouteOf(env, ctx, getBlobs, blobsCache, c.networkReqs[j].index).ToNetwork?)
      && (forall i: nat :: i < k && RouteOf(env, ctx, getBlobs, blobsCache, i).ToNetwork? ==>
            BlobIdentifier(ctx.blockRoot, i) in c.networkReqs)
      && IncreasingIds(c.networkReqs)
  {
    if k > 0 {
      ClassifyNetwork(env, ctx, getBlobs, blobsCache, k - 1);
      ClassifyStep(env, ctx, getBlobs, blobsCache, k);
      var before := ClassifyUpTo(env, ctx, getBlobs, blobsCache, k - 1).networkReqs;
      var after := ClassifyUpTo(env, ctx, getBlobs, blobsCache, k).networkReqs;
      if RouteOf(env, ctx, getBlobs, blobsCache, k - 1).ToNetwork? {
        NetworkAppendStep(env, ctx, getBlobs, blobsCache, k, before, after);
      }
    }
    ClassifyNetworkComplete(env, ctx, getBlobs, blobsCache, k);
  }

  lemma {:induction false} ClassifyNetworkComplete(env: Env, ctx: BlockContext, getBlobs: map<VersionedHash, Option<BlobAndProof>>,
                                                   blobsCache: map<nat, BlobCacheEntry>, k: nat)
    requires k <= |Commitments(ctx)|
    ensures forall i: nat :: i < k && RouteOf(env, ctx, getBlobs, blobsCache, i).ToNetwork? ==>
              BlobIdentifier(ctx.blockRoot, i) in ClassifyUpTo(env, ctx, getBlobs, blobsCache, k).networkReqs
  {
    if k > 0 {
      ClassifyNetworkComplete(env, ctx, getBlobs, blobsCache, k - 1);
      ClassifyStep(env, ctx, getBlobs, blobsCache, k);
      var before := ClassifyUpTo(env, ctx, getBlobs, blobsCache, k - 1).networkReqs;
      var after := ClassifyUpTo(env, ctx, getBlobs, blobsCache, k).networkReqs;
      if RouteOf(env, ctx, getBlobs, blobsCache, k - 1).ToNetwork? {
        assert after == before + [BlobIdentifier(ctx.blockRoot, k - 1)];
      } else {
        assert after == before;
      }
    }
  }

  /** Appending the identifier of index `k - 1` keeps the network request's properties up to `k`. */
  lemma NetworkAppendStep(env: Env, ctx: BlockContext, getBlobs: map<VersionedHash, Option<BlobAndProof>>,
                          blobsCache: map<nat, BlobCacheEntry>, k: nat, before: seq<BlobIdentifier>, after: seq<BlobIdentifier>)
    requires 0 < k <= |Commitments(ctx)|
    requires RouteOf(env, ctx, getBlobs, blobsCache, k - 1).ToNetwork?
    requires after == before + [BlobIdentifier(ctx.blockRoot, k - 1)]
    requires forall j :: 0 <= j < |before| ==>
               && before[j].blockRoot == ctx.blockRoot
               && before[j].index < k - 1
               && RouteOf(env, ctx, getBlobs, blobsCache, before[j].index).ToNetwork?
    requires IncreasingIds(before)
    ensures forall j :: 0 <= j < |after| ==>
              && after[j].blockRoot == ctx.blockRoot
              && after[j].index < k
              && RouteOf(env, ctx, getBlobs, blobsCache, after[j].index).ToNetwork?
    ensures IncreasingIds(after)
  {
    forall a, b | 0 <= a < b < |after| ensures after[a].index < after[b].index {
      assert after[a] == before[a];
      if b < |before| { assert after[b] == before[b]; }
    }
    forall j | 0 <= j < |after|
      ensures after[j].blockRoot == ctx.blockRoot && after[j].index < k
           && RouteOf(env, ctx, getBlobs, blobsCache, after[j].index).ToNetwork?
    {
      if j < |before| { assert after[j] == before[j]; }
    }
  }

  /**
    Every blob index of the block ends up in exactly one place: already in the cache (received
    before or rebuilt from the getBlobs cache), in the engine request, or in the network request.
  */
  lemma ClassifyPartitions(env: Env, ctx: BlockContext, getBlobs: map<VersionedHash, Option<BlobAndProof>>,
                           blobsCache: map<nat, BlobCacheEntry>, i: nat)
    requires i < |Commitments(ctx)|
    ensures var c := Classify(env, ctx, getBlobs, blobsCache);
      var inCache := i in c.blobsCache;
      var toEngine := EngineReqFor(env, ctx, i) in c.engineReqs;
      var toNetwork := BlobIdentifier(ctx.blockRoot, i) in c.networkReqs;
      && (inCache || toEngine || toNetwork)
      && !(inCache && toEngine) && !(inCache && toNetwork) && !(toEngine && toNetwork)
  {
    var n := |Commitments(ctx)|;
    var c := Classify(env, ctx, getBlobs, blobsCache);
    ClassifyCache(env, ctx, getBlobs, blobsCache, n);
    ClassifyEngine(env, ctx, getBlobs, blobsCache, n);
    ClassifyNetwork(env, ctx, getBlobs, blobsCache, n);
    var route := RouteOf(env, ctx, getBlobs, blobsCache, i);
    if EngineReqFor(env, ctx, i) in c.engineReqs {
      var j :| 0 <= j < |c.engineReqs| && c.engineReqs[j] == EngineReqFor(env, ctx, i);
      assert route.ToEngine?;
    }
    if BlobIdentifier(ctx.blockRoot, i) in c.networkReqs {
      var j :| 0 <= j < |c.networkReqs| && c.networkReqs[j] == BlobIdentifier(ctx.blockRoot, i);
      assert route.ToNetwork?;
    }
  }

  /**
    On a retry of a block (its root is in the retry tracker) the engine and the getBlobs cache are
    skipped: nothing is rebuilt, and every missing index goes to the network.
  */
  lemma RetryGoesToNetwork(env: Env, ctx: BlockContext, getBlobs: map<VersionedHash, Option<BlobAndProof>>,
                           blobsCache: map<nat, BlobCacheEntry>)
    requires ctx.triedBefore
    ensures var c := Classify(env, ctx, getBlobs, blobsCache);
      && c.engineReqs == []
      && c.blobsCache == blobsCache
      && (forall i: nat :: i < |Commitments(ctx)| ==> (BlobIdentifier(ctx.blockRoot, i) in c.networkReqs <==> i !in blobsCache))
  {
    var n := |Commitments(ctx)|;
    var c := Classify(env, ctx, getBlobs, blobsCache);
    ClassifyNetwork(env, ctx, getBlobs, blobsCache, n);
    RetryKeepsCacheAndEngine(env, ctx, getBlobs, blobsCache, n);
    forall i: nat | i < n ensures BlobIdentifier(ctx.blockRoot, i) in c.networkReqs <==> i !in blobsCache {
      if BlobIdentifier(ctx.blockRoot, i) in c.networkReqs {
        var j :| 0 <= j < |c.networkReqs| && c.networkReqs[j] == BlobIdentifier(ctx.blockRoot, i);
      }
    }
  }

  lemma {:induction false} RetryKeepsCacheAndEngine(env: Env, ctx: BlockContext, getBlobs: map<VersionedHash, Option<BlobAndProof>>,
                                                    blobsCache: map<nat, BlobCacheEntry>, k: nat)
    requires ctx.triedBefore && k <= |Commitments(ctx)|
    ensures ClassifyUpTo(env, ctx, getBlobs, blobsCache, k).engineReqs == []
    ensures ClassifyUpTo(env, ctx, getBlobs, blobsCache, k).blobsCache == blobsCache
  {
    if k > 0 {
      RetryKeepsCacheAndEngine(env, ctx, getBlobs, blobsCache, k - 1);
      ClassifyStep(env, ctx, getBlobs, blobsCache, k);
    }
  }

  // ---------------------------------------------------------------------------------------------
  // Engine answer
  // ---------------------------------------------------------------------------------------------

  /** One response of the merge loop: a present index is skipped, an answered one is rebuilt, an unanswered one is requested. */
  lemma MergeStep(env: Env, ctx: BlockContext, engineReqs: seq<EngineReq>, answer: EngineAnswer,
                  blobsCache: map<nat, BlobCacheEntry>, networkReqs: seq<BlobIdentifier>, k: nat)
    requires 0 < k <= |engineReqs|
    ensures var m := MergeUpTo(env, ctx, engineReqs, answer, blobsCache, networkReqs, k - 1);
      var m' := MergeUpTo(env, ctx, engineReqs, answer, blobsCache, networkReqs, k);
      var req := engineReqs[k - 1];
      var response := ResponseAt(answer, |engineReqs|, k - 1);
      && (req.index in m.blobsCache ==> m' == m)
      && (req.index !in m.blobsCache && response.Some? ==>
            m'.networkReqs == m.networkReqs
            && m'.blobsCache == m.blobsCache[req.index := RebuiltEntry(env, ctx, req.index, req.kzgCommitment, response.value)])
      && (req.index !in m.blobsCache && response.None? ==>
            m'.blobsCache == m.blobsCache && m'.networkReqs == m.networkReqs + [BlobIdentifier(req.blockRoot, req.index)])
  {
  }

  /** The merge never overwrites or removes an entry that was already in the cache. */
  lemma {:induction false} MergeKeepsCache(
      env: Env, ctx: BlockContext, engineReqs: seq<EngineReq>, answer: EngineAnswer,
      blobsCache: map<nat, BlobCacheEntry>, networkReqs: seq<BlobIdentifier>, k: nat)
    requires k <= |engineReqs|
    ensures var m := MergeUpTo(env, ctx, engineReqs, answer, blobsCache, networkReqs, k);
      forall i: nat :: i in blobsCache ==> i in m.blobsCache && m.blobsCache[i] == blobsCache[i]
  {
    if k > 0 {
      MergeKeepsCache(env, ctx, engineReqs, answer, blobsCache, networkReqs, k - 1);
      MergeStep(env, ctx, engineReqs, answer, blobsCache, networkReqs, k);
    }
  }

  /** Every entry the merge adds is at an index the engine answered. */
  lemma {:induction false} MergeAddsOnlyAnswered(
      env: Env, ctx: BlockContext, engineReqs: seq<EngineReq>, answer: EngineAnswer,
      blobsCache: map<nat, BlobCacheEntry>, networkReqs: seq<BlobIdentifier>, k: nat)
    requires k <= |engineReqs|
    ensures var m := MergeUpTo(env, ctx, engineReqs, answer, blobsCache, networkReqs, k);
      forall i: nat :: i in m.blobsCache && i !in blobsCache ==>
        exists j :: 0 <= j < k && engineReqs[j].index == i && ResponseAt(answer, |engineReqs|, j).Some?
  {
    if k > 0 {
      MergeAddsOnlyAnswered(env, ctx, engineReqs, answer, blobsCache, networkReqs, k - 1);
      MergeStep(env, ctx, engineReqs, answer, blobsCache, networkReqs, k);
      var m := MergeUpTo(env, ctx, engineReqs, answer, blobsCache, networkReqs, k - 1);
      var m' := MergeUpTo(env, ctx, engineReqs, answer, blobsCache, networkReqs, k);
      forall i: nat | i in m'.blobsCache && i !in blobsCache
        ensures exists j :: 0 <= j < k && engineReqs[j].index == i && ResponseAt(answer, |engineReqs|, j).Some?
      {
        if i !in m.blobsCache {
          assert engineReqs[k - 1].index == i && ResponseAt(answer, |engineReqs|, k - 1).Some?;
        }
      }
    }
  }

  /** Every asked index ends up in the cache or in the network request, and an answered one in the cache. */
  lemma {:induction false} MergeCoversAsked(
      env: Env, ctx: BlockContext, engineReqs: seq<EngineReq>, answer: EngineAnswer,
      blobsCache: map<nat, BlobCacheEntry>, networkReqs: seq<BlobIdentifier>, k: nat)
    requires k <= |engineReqs|
    ensures var m := MergeUpTo(env, ctx, engineReqs, answer, blobsCache, networkReqs, k);
      && (forall j :: 0 <= j < k && ResponseAt(answer, |engineReqs|, j).Some? ==> engineReqs[j].index in m.blobsCache)
      && (forall j :: 0 <= j < k ==>
            engineReqs[j].index in m.blobsCache || BlobIdentifier(engineReqs[j].blockRoot, engineReqs[j].index) in m.networkReqs)
  {
    if k > 0 {
      MergeCoversAsked(env, ctx, engineReqs, answer, blobsCache, networkReqs, k - 1);
      MergeStep(env, ctx, engineReqs, answer, blobsCache, networkReqs, k);
    }
  }

  /** The merge only appends to the network request, and only identifiers of unanswered indices. */
  lemma {:induction false} MergeAppendsUnanswered(
      env: Env, ctx: BlockContext, engineReqs: seq<EngineReq>, answer: EngineAnswer,
      blobsCache: map<nat, BlobCacheEntry>, networkReqs: seq<BlobIdentifier>, k: nat)
    requires k <= |engineReqs|
    ensures var m := MergeUpTo(env, ctx, engineReqs, answer, blobsCache, networkReqs, k);
      && networkReqs <= m.networkReqs
      && (forall t :: |networkReqs| <= t < |m.networkReqs| ==>
            exists j :: 0 <= j < k && m.networkReqs[t] == BlobIdentifier(engineReqs[j].blockRoot, engineReqs[j].index)
                                 && ResponseAt(answer, |engineReqs|, j).None?)
  {
    if k > 0 {
      MergeAppendsUnanswered(env, ctx, engineReqs, answer, blobsCache, networkReqs, k - 1);
      MergeStep(env, ctx, engineReqs, answer, blobsCache, networkReqs, k);
      var m := MergeUpTo(env, ctx, engineReqs, answer, blobsCache, networkReqs, k - 1);
      var m' := MergeUpTo(env, ctx, engineReqs, answer, blobsCache, networkReqs, k);
      assert m.networkReqs <= m'.networkReqs;
      assert |m'.networkReqs| <= |m.networkReqs| + 1;
      forall t | |networkReqs| <= t < |m'.networkReqs|
        ensures exists j :: 0 <= j < k && m'.networkReqs[t] == BlobIdentifier(engineReqs[j].blockRoot, engineReqs[j].index)
                                     && ResponseAt(answer, |engineReqs|, j).None?
      {
        if t < |m.networkReqs| {
          assert m'.networkReqs[t] == m.networkReqs[t];
        } else {
          assert m'.networkReqs[t] == BlobIdentifier(engineReqs[k - 1].blockRoot, engineReqs[k - 1].index);
          assert ResponseAt(answer, |engineReqs|, k - 1).None?;
        }
      }
    }
  }

  /**
    When the engine indices are distinct, an answered index that was still missing holds the
    sidecar rebuilt from the engine's blob and proof.
  */
  lemma {:induction false} MergeStoresEngineBlobs(env: Env, ctx: BlockContext, engineReqs: seq<EngineReq>, answer: EngineAnswer,
                                                  blobsCache: map<nat, BlobCacheEntry>, networkReqs: seq<BlobIdentifier>, k: nat)
    requires k <= |engineReqs|
    requires IncreasingReqs(engineReqs)
    ensures var m := MergeUpTo(env, ctx, engineReqs, answer, blobsCache, networkReqs, k);
      forall j :: 0 <= j < k && ResponseAt(answer, |engineReqs|, j).Some? && engineReqs[j].index !in blobsCache ==>
        && engineReqs[j].index in m.blobsCache
        && m.blobsCache[engineReqs[j].index]
          == RebuiltEntry(env, ctx, engineReqs[j].index, engineReqs[j].kzgCommitment, ResponseAt(answer, |engineReqs|, j).value)
  {
    if k > 0 {
      MergeStoresEngineBlobs(env, ctx, engineReqs, answer, blobsCache, networkReqs, k - 1);
      MergeStep(env, ctx, engineReqs, answer, blobsCache, networkReqs, k);
      var m := MergeUpTo(env, ctx, engineReqs, answer, blobsCache, networkReqs, k - 1);
      var m' := MergeUpTo(env, ctx, engineReqs, answer, blobsCache, networkReqs, k);
      var req := engineReqs[k - 1];
      var response := ResponseAt(answer, |engineReqs|, k - 1);
      assert m'.blobsCache == m.blobsCache
          || (response.Some? && m'.blobsCache == m.blobsCache[req.index := RebuiltEntry(env, ctx, req.index, req.kzgCommitment, response.value)]);
      forall j | 0 <= j < k && ResponseAt(answer, |engineReqs|, j).Some? && engineReqs[j].index !in blobsCache
        ensures && engineReqs[j].index in m'.blobsCache
                && m'.blobsCache[engineReqs[j].index]
                   == RebuiltEntry(env, ctx, engineReqs[j].index, engineReqs[j].kzgCommitment, ResponseAt(answer, |engineReqs|, j).value)
      {
        if j < k - 1 {
          assert engineReqs[j].index < req.index;
        } else {
          MergeLeavesLaterIndexOut(env, ctx, engineReqs, answer, blobsCache, networkReqs, k - 1);
          assert m'.blobsCache == m.blobsCache[req.index := RebuiltEntry(env, ctx, req.index, req.kzgCommitment, response.value)];
        }
      }
    }
  }

  /** With increasing indices, the merge of the first `k` responses adds no entry at the index of request `k`. */
  lemma MergeLeavesLaterIndexOut(env: Env, ctx: BlockContext, engineReqs: seq<EngineReq>, answer: EngineAnswer,
                                 blobsCache: map<nat, BlobCacheEntry>, networkReqs: seq<BlobIdentifier>, k: nat)
    requires k < |engineReqs|
    requires IncreasingReqs(engineReqs)
    requires engineReqs[k].index !in blobsCache
    ensures engineReqs[k].index !in MergeUpTo(env, ctx, engineReqs, answer, blobsCache, networkReqs, k).blobsCache
  {
    MergeAddsOnlyAnswered(env, ctx, engineReqs, answer, blobsCache, networkReqs, k);
    assert forall j :: 0 <= j < k ==> engineReqs[j].index < engineReqs[k].index;
  }

  /** A failed engine call rebuilds nothing: the cache is unchanged and every missing index goes to the network. */
  lemma EngineFailureFallsBackToNetwork(env: Env, ctx: BlockContext, engineReqs: seq<EngineReq>,
                                        blobsCache: map<nat, BlobCacheEntry>, networkReqs: seq<BlobIdentifier>)
    ensures var m := MergeUpTo(env, ctx, engineReqs, EngineFailed, blobsCache, networkReqs, |engineReqs|);
      && m.blobsCache == blobsCache
      && (forall j :: 0 <= j < |engineReqs| && engineReqs[j].index !in blobsCache ==>
            BlobIdentifier(engineReqs[j].blockRoot, engineReqs[j].index) in m.networkReqs)
  {
    MergeKeepsCache(env, ctx, engineReqs, EngineFailed, blobsCache, networkReqs, |engineReqs|);
    MergeAddsOnlyAnswered(env, ctx, engineReqs, EngineFailed, blobsCache, networkReqs, |engineReqs|);
    MergeCoversAsked(env, ctx, engineReqs, EngineFailed, blobsCache, networkReqs, |engineReqs|);
    var m := MergeUpTo(env, ctx, engineReqs, EngineFailed, blobsCache, networkReqs, |engineReqs|);
    assert forall j :: 0 <= j < |engineReqs| ==> ResponseAt(EngineFailed, |engineReqs|, j).None?;
    assert forall i: nat :: i in m.blobsCache ==> i in blobsCache;
  }

  /**
    Recording the engine answer keeps the older keys in their order, makes every asked hash a key,
    leaves other hashes alone, stores the last answer given for a hash, and stores `null` for
    every asked hash when the engine call failed.
  */
  lemma {:induction false} RecordProperties(s: MapState<VersionedHash, Option<BlobAndProof>>, engineReqs: seq<EngineReq>,
                                            answer: EngineAnswer, k: nat)
    requires k <= |engineReqs|
    ensures var t := RecordUpTo(s, engineReqs, answer, k);
      && s.keys <= t.keys && |t.keys| <= |s.keys| + k
      && (forall j :: 0 <= j < k ==> engineReqs[j].versionedHash in t.entries)
      && (forall j :: 0 <= j < k && (forall j' :: j < j' < k ==> engineReqs[j'].versionedHash != engineReqs[j].versionedHash) ==>
            t.entries[engineReqs[j].versionedHash] == ResponseAt(answer, |engineReqs|, j))
      && (forall h :: h in s.entries && (forall j :: 0 <= j < k ==> engineReqs[j].versionedHash != h) ==>
            h in t.entries && t.entries[h] == s.entries[h])
      && (answer.EngineFailed? ==> forall j :: 0 <= j < k ==> t.entries[engineReqs[j].versionedHash].None?)
  {
    if k > 0 {
      RecordProperties(s, engineReqs, answer, k - 1);
    }
  }

  /** A getBlobs cache that stays within its cap while the answers are recorded is not trimmed. */
  lemma RecordWithinCap(s: MapState<VersionedHash, Option<BlobAndProof>>, engineReqs: seq<EngineReq>, answer: EngineAnswer)
    requires WellFormed(s) && |s.keys| + |engineReqs| <= MAX_ENGINE_GETBLOBS_CACHE
    ensures MapPruned(RecordUpTo(s, engineReqs, answer, |engineReqs|), MAX_ENGINE_GETBLOBS_CACHE)
         == RecordUpTo(s, engineReqs, answer, |engineReqs|)
  {
    RecordProperties(s, engineReqs, answer, |engineReqs|);
    RecordKeepsWellFormed(s, engineReqs, answer, |engineReqs|);
    MapPrunedUnderCap(RecordUpTo(s, engineReqs, answer, |engineReqs|), MAX_ENGINE_GETBLOBS_CACHE);
  }

  // ---------------------------------------------------------------------------------------------
  // The network merge
  // ---------------------------------------------------------------------------------------------

  /** Storing the sidecars keys each by its own index, and the last sidecar with an index wins. */
  lemma {:induction false} InsertSidecarsLastWins(blobsCache: map<nat, BlobCacheEntry>, sidecars: seq<BlobSidecar>)
    ensures var r := InsertSidecars(blobsCache, sidecars);
      forall j :: 0 <= j < |sidecars| && (forall j' :: j < j' < |sidecars| ==> sidecars[j'].index != sidecars[j].index) ==>
        sidecars[j].index in r && r[sidecars[j].index] == BlobCacheEntry(sidecars[j], None)
  {
    if sidecars != [] {
      var init, last := sidecars[..|sidecars| - 1], sidecars[|sidecars| - 1];
      InsertSidecarsLastWins(blobsCache, init);
      var r0 := InsertSidecars(blobsCache, init);
      var r := InsertSidecars(blobsCache, sidecars);
      assert r == r0[last.index := BlobCacheEntry(last, None)];
      forall j | 0 <= j < |sidecars| && (forall j' :: j < j' < |sidecars| ==> sidecars[j'].index != sidecars[j].index)
        ensures sidecars[j].index in r && r[sidecars[j].index] == BlobCacheEntry(sidecars[j], None)
      {
        if j < |init| {
          assert init[j] == sidecars[j];
          assert last.index != sidecars[j].index;
          forall j' | j < j' < |init| ensures init[j'].index != init[j].index {
            assert init[j'] == sidecars[j'];
          }
        }
      }
    }
  }

  /** An index that no stored sidecar carries keeps its previous entry, or stays absent. */
  lemma {:induction false} InsertSidecarsKeepsOthers(blobsCache: map<nat, BlobCacheEntry>, sidecars: seq<BlobSidecar>)
    ensures var r := InsertSidecars(blobsCache, sidecars);
      forall i: nat :: (forall j :: 0 <= j < |sidecars| ==> sidecars[j].index != i) ==>
        (i in r <==> i in blobsCache) && (i in blobsCache ==> r[i] == blobsCache[i])
  {
    if sidecars != [] {
      var init, last := sidecars[..|sidecars| - 1], sidecars[|sidecars| - 1];
      InsertSidecarsKeepsOthers(blobsCache, init);
      var r0 := InsertSidecars(blobsCache, init);
      var r := InsertSidecars(blobsCache, sidecars);
      assert r == r0[last.index := BlobCacheEntry(last, None)];
      forall i: nat | (forall j :: 0 <= j < |sidecars| ==> sidecars[j].index != i)
        ensures (i in r <==> i in blobsCache) && (i in blobsCache ==> r[i] == blobsCache[i])
      {
        assert last.index != i;
        forall j | 0 <= j < |init| ensures init[j].index != i {
          assert init[j] == sidecars[j];
        }
      }
    }
  }

  // ---------------------------------------------------------------------------------------------
  // The whole call
  // ---------------------------------------------------------------------------------------------

  /**
    The last stage passes the two process-wide caches through, makes the network request only for
    a non-empty sorted list, and resolves availability exactly when all blobs are collected.
  */
  lemma AfterMergeShape(env: Env, ctx: BlockContext, blockBytes: Option<Bytes>, fork: ForkName, calls: seq<Call>, m: Merged,
                        resolved: seq<BlockInputDataBlobs>,
                        getBlobs: Option<MapState<VersionedHash, Option<BlobAndProof>>>, tracker: Option<seq<Root>>,
                        answers: Answers)
    ensures var o := AfterMerge(env, ctx, blockBytes, fork, calls, m, resolved, getBlobs, tracker, answers);
      var len := |Commitments(ctx)|;
      var collected := env.blockInputBlobs(o.blobsCache);
      && o.getBlobsCache == getBlobs && o.retryTracker == tracker
      && calls <= o.calls && |calls| <= |o.calls| <= |calls| + 1
      && (|o.calls| == |calls| + 1 ==>
            o.calls[|calls|].BlobSidecarsByRootCall? && |o.calls[|calls|].identifiers| > 0
            && SortedByIndex(o.calls[|calls|].identifiers))
      && (o.result.Ok? <==> collected.Some? && |collected.value.blobs| == len)
      && (o.result.Ok? ==>
            && o.result.value.block == ctx.block
            && o.result.value.source == ByRootBlock
            && o.result.value.blockBytes == blockBytes
            && o.result.value.kind == AvailableData(BlockInputDataBlobs(fork, collected.value.blobs, collected.value.blobsBytes, ByRootBlobs))
            && o.resolved == resolved + [o.result.value.kind.blockData])
      && (o.result.Err? ==> o.resolved == resolved && !o.result.error.NoBlockReturned?)
      && (o.result.Err? && o.result.error.NotAllBlobsFetched? ==>
            collected.Some? && o.result.error.missingBlobs == len - |collected.value.blobs| != 0)
  {
    SortByIndexProperties(m.networkReqs);
  }

  /** The fields of the last stage's outcome that do not depend on the completion check. */
  lemma AfterMergeFields(env: Env, ctx: BlockContext, blockBytes: Option<Bytes>, fork: ForkName, calls: seq<Call>, m: Merged,
                         resolved: seq<BlockInputDataBlobs>,
                         getBlobs: Option<MapState<VersionedHash, Option<BlobAndProof>>>, tracker: Option<seq<Root>>,
                         answers: Answers)
    ensures var o := AfterMerge(env, ctx, blockBytes, fork, calls, m, resolved, getBlobs, tracker, answers);
      var networkReqs := SortByIndex(m.networkReqs);
      && o.calls == calls + (if |networkReqs| > 0 then [BlobSidecarsByRootCall(networkReqs)] else [])
      && o.blobsCache == (if |networkReqs| > 0 then InsertSidecars(m.blobsCache + answers.arrivedDuringNetwork, answers.sidecars)
                          else m.blobsCache)
      && o.getBlobsCache == getBlobs && o.retryTracker == tracker
  {
    var networkReqs := SortByIndex(m.networkReqs);
    var calls' := calls + (if |networkReqs| > 0 then [BlobSidecarsByRootCall(networkReqs)] else []);
    var blobsCache' := if |networkReqs| > 0 then InsertSidecars(m.blobsCache + answers.arrivedDuringNetwork, answers.sidecars)
                       else m.blobsCache;
    var o := AfterMerge(env, ctx, blockBytes, fork, calls, m, resolved, getBlobs, tracker, answers);
    match Completion(env, fork, blobsCache', |Commitments(ctx)|)
    case Err(e) =>
      assert o == Outcome(Err(e), calls', blobsCache', resolved, getBlobs, tracker);
    case Ok(blockData) =>
      assert o == Outcome(Ok(BlockInput(ctx.block, ByRootBlock, blockBytes, AvailableData(blockData))), calls', blobsCache',
                          resolved + [blockData], getBlobs, tracker);
  }

  /** `ResolveBlock` is its last stage applied to the state its first two stages compute. */
  lemma ResolveBlockStages(env: Env, block: SignedBeaconBlock, blockBytes: Option<Bytes>, fork: ForkName,
                           blobsCache: map<nat, BlobCacheEntry>, resolved: seq<BlockInputDataBlobs>,
                           getBlobs: Option<MapState<VersionedHash, Option<BlobAndProof>>>, tracker: Option<seq<Root>>,
                           answers: Answers, ctx: BlockContext, c: Classified, m: Merged,
                           getBlobs': Option<MapState<VersionedHash, Option<BlobAndProof>>>, tracker': Option<seq<Root>>)
    requires ctx == ContextOf(env, block, tracker.Some? && env.hashTreeRoot(block.message) in tracker.value)
    requires c == Classify(env, ctx, EntriesOf(getBlobs), blobsCache)
    requires m == MergeUpTo(env, ctx, c.engineReqs, answers.engine, c.blobsCache + answers.arrivedDuringEngine, c.networkReqs, |c.engineReqs|)
    requires getBlobs' == if getBlobs.Some? then Some(MapPruned(RecordUpTo(getBlobs.value, c.engineReqs, answers.engine, |c.engineReqs|), MAX_ENGINE_GETBLOBS_CACHE)) else None
    requires tracker' == if tracker.Some? && !ctx.triedBefore then Some(SetPruned(SetAdd(tracker.value, ctx.blockRoot), MAX_UNAVAILABLE_RETRY_CACHE))
                         else if tracker.Some? then Some(SetPruned(tracker.value, MAX_UNAVAILABLE_RETRY_CACHE)) else None
    ensures ResolveBlock(env, block, blockBytes, fork, blobsCache, resolved, getBlobs, tracker, answers)
         == AfterMerge(env, ctx, blockBytes, fork, [GetBlobsCall(Deneb, VersionedHashes(c.engineReqs))], m, resolved, getBlobs', tracker', answers)
  {
  }

  /** The requests, the blob cache and the two process-wide caches after `ResolveBlock`, stage by stage. */
  lemma ResolveBlockFields(env: Env, block: SignedBeaconBlock, blockBytes: Option<Bytes>, fork: ForkName,
                           blobsCache: map<nat, BlobCacheEntry>, resolved: seq<BlockInputDataBlobs>,
                           getBlobs: Option<MapState<VersionedHash, Option<BlobAndProof>>>, tracker: Option<seq<Root>>,
                           answers: Answers, ctx: BlockContext, c: Classified, m: Merged)
    requires ctx == ContextOf(env, block, tracker.Some? && env.hashTreeRoot(block.message) in tracker.value)
    requires c == Classify(env, ctx, EntriesOf(getBlobs), blobsCache)
    requires m == MergeUpTo(env, ctx, c.engineReqs, answers.engine, c.blobsCache + answers.arrivedDuringEngine, c.networkReqs, |c.engineReqs|)
    ensures var o := ResolveBlock(env, block, blockBytes, fork, blobsCache, resolved, getBlobs, tracker, answers);
      var networkReqs := SortByIndex(m.networkReqs);
      && o.calls == [GetBlobsCall(Deneb, VersionedHashes(c.engineReqs))]
                    + (if |networkReqs| > 0 then [BlobSidecarsByRootCall(networkReqs)] else [])
      && o.blobsCache == (if |networkReqs| > 0 then InsertSidecars(m.blobsCache + answers.arrivedDuringNetwork, answers.sidecars)
                          else m.blobsCache)
      && o.getBlobsCache == (if getBlobs.Some? then Some(MapPruned(RecordUpTo(getBlobs.value, c.engineReqs, answers.engine, |c.engineReqs|), MAX_ENGINE_GETBLOBS_CACHE)) else None)
      && o.retryTracker == (if tracker.Some? && !ctx.triedBefore then Some(SetPruned(SetAdd(tracker.value, ctx.blockRoot), MAX_UNAVAILABLE_RETRY_CACHE))
                            else if tracker.Some? then Some(SetPruned(tracker.value, MAX_UNAVAILABLE_RETRY_CACHE)) else None)
  {
    var getBlobs' := if getBlobs.Some? then Some(MapPruned(RecordUpTo(getBlobs.value, c.engineReqs, answers.engine, |c.engineReqs|), MAX_ENGINE_GETBLOBS_CACHE)) else None;
    var tracker' := if tracker.Some? && !ctx.triedBefore then Some(SetPruned(SetAdd(tracker.value, ctx.blockRoot), MAX_UNAVAILABLE_RETRY_CACHE))
                    else if tracker.Some? then Some(SetPruned(tracker.value, MAX_UNAVAILABLE_RETRY_CACHE)) else None;
    ResolveBlockStages(env, block, blockBytes, fork, blobsCache, resolved, getBlobs, tracker, answers, ctx, c, m, getBlobs', tracker');
    AfterMergeFields(env, ctx, blockBytes, fork, [GetBlobsCall(Deneb, VersionedHashes(c.engineReqs))], m, resolved, getBlobs', tracker', answers);
  }

  /**
    Both process-wide caches stay well formed and bounded: at most 512 getBlobs entries and at most
    32 tracked roots. The root of the block is tracked after the call, so the next attempt is a
    retry, as long as the tracker respected its bound before.
  */
  lemma ResolveBlockKeepsCachesBounded(env: Env, block: SignedBeaconBlock, blockBytes: Option<Bytes>, fork: ForkName,
                                       blobsCache: map<nat, BlobCacheEntry>, resolved: seq<BlockInputDataBlobs>,
                                       getBlobs: Option<MapState<VersionedHash, Option<BlobAndProof>>>, tracker: Option<seq<Root>>,
                                       answers: Answers)
    requires getBlobs.Some? ==> WellFormed(getBlobs.value)
    requires tracker.Some? ==> Distinct(tracker.value) && |tracker.value| <= MAX_UNAVAILABLE_RETRY_CACHE
    ensures var o := ResolveBlock(env, block, blockBytes, fork, blobsCache, resolved, getBlobs, tracker, answers);
      && (o.getBlobsCache.Some? <==> getBlobs.Some?)
      && (o.getBlobsCache.Some? ==>
            WellFormed(o.getBlobsCache.value) && |o.getBlobsCache.value.entries| <= MAX_ENGINE_GETBLOBS_CACHE)
      && (o.retryTracker.Some? <==> tracker.Some?)
      && (o.retryTracker.Some? ==>
            && Distinct(o.retryTracker.value)
            && |o.retryTracker.value| <= MAX_UNAVAILABLE_RETRY_CACHE
            && env.hashTreeRoot(block.message) in o.retryTracker.value)
  {
    var root := env.hashTreeRoot(block.message);
    var triedBefore := tracker.Some? && root in tracker.value;
    var tracked := if tracker.Some? && !triedBefore then Some(SetAdd(tracker.value, root)) else tracker;
    var ctx := ContextOf(env, block, triedBefore);
    var c := Classify(env, ctx, EntriesOf(getBlobs), blobsCache);
    var m := MergeUpTo(env, ctx, c.engineReqs, answers.engine, c.blobsCache + answers.arrivedDuringEngine, c.networkReqs, |c.engineReqs|);
    var getBlobs' := if getBlobs.Some? then Some(MapPruned(RecordUpTo(getBlobs.value, c.engineReqs, answers.engine, |c.engineReqs|), MAX_ENGINE_GETBLOBS_CACHE)) else None;
    var tracker' := if tracked.Some? then Some(SetPruned(tracked.value, MAX_UNAVAILABLE_RETRY_CACHE)) else None;
    ResolveBlockStages(env, block, blockBytes, fork, blobsCache, resolved, getBlobs, tracker, answers, ctx, c, m, getBlobs', tracker');
    AfterMergeShape(env, ctx, blockBytes, fork, [GetBlobsCall(Deneb, VersionedHashes(c.engineReqs))], m, resolved, getBlobs', tracker', answers);
    if getBlobs.Some? {
      RecordKeepsWellFormed(getBlobs.value, c.engineReqs, answers.engine, |c.engineReqs|);
      MapPrunedProperties(RecordUpTo(getBlobs.value, c.engineReqs, answers.engine, |c.engineReqs|), MAX_ENGINE_GETBLOBS_CACHE);
    }
    if tracker.Some? {
      SetAddProperties(tracker.value, root);
      SetPrunedProperties(tracked.value, MAX_UNAVAILABLE_RETRY_CACHE);
      if !triedBefore {
        NewestSurvivesPrune(tracked.value, MAX_UNAVAILABLE_RETRY_CACHE);
      } else {
        assert SetPruned(tracked.value, MAX_UNAVAILABLE_RETRY_CACHE) == tracked.value;
      }
    }
  }

  /**
    Availability is resolved exactly when `getBlockInputBlobs` returns one blob per commitment,
    and then once, with that data, from the by-root source. Otherwise nothing is resolved and the
    error carries the number of missing blobs.
  */
  lemma ResolveBlockResolvesOnlyWhenComplete(env: Env, block: SignedBeaconBlock, blockBytes: Option<Bytes>, fork: ForkName,
                                             blobsCache: map<nat, BlobCacheEntry>, resolved: seq<BlockInputDataBlobs>,
                                             getBlobs: Option<MapState<VersionedHash, Option<BlobAndProof>>>, tracker: Option<seq<Root>>,
                                             answers: Answers)
    ensures var o := ResolveBlock(env, block, blockBytes, fork, blobsCache, resolved, getBlobs, tracker, answers);
      var len := |block.message.body.blobKzgCommitments|;
      var collected := env.blockInputBlobs(o.blobsCache);
      && (o.result.Ok? <==> collected.Some? && |collected.value.blobs| == len)
      && (o.result.Ok? ==>
            && o.result.value.block == block
            && o.result.value.source == ByRootBlock
            && o.result.value.blockBytes == blockBytes
            && o.result.value.kind == AvailableData(BlockInputDataBlobs(fork, collected.value.blobs, collected.value.blobsBytes, ByRootBlobs))
            && o.resolved == resolved + [o.result.value.kind.blockData])
      && (o.result.Err? ==> o.resolved == resolved && !o.result.error.NoBlockReturned?)
      && (o.result.Err? && o.result.error.NotAllBlobsFetched? ==>
            collected.Some? && o.result.error.missingBlobs == len - |collected.value.blobs| != 0)
  {
    var root := env.hashTreeRoot(block.message);
    var triedBefore := tracker.Some? && root in tracker.value;
    var tracked := if tracker.Some? && !triedBefore then Some(SetAdd(tracker.value, root)) else tracker;
    var ctx := ContextOf(env, block, triedBefore);
    var c := Classify(env, ctx, EntriesOf(getBlobs), blobsCache);
    var m := MergeUpTo(env, ctx, c.engineReqs, answers.engine, c.blobsCache + answers.arrivedDuringEngine, c.networkReqs, |c.engineReqs|);
    var getBlobs' := if getBlobs.Some? then Some(MapPruned(RecordUpTo(getBlobs.value, c.engineReqs, answers.engine, |c.engineReqs|), MAX_ENGINE_GETBLOBS_CACHE)) else None;
    var tracker' := if tracked.Some? then Some(SetPruned(tracked.value, MAX_UNAVAILABLE_RETRY_CACHE)) else None;
    ResolveBlockStages(env, block, blockBytes, fork, blobsCache, resolved, getBlobs, tracker, answers, ctx, c, m, getBlobs', tracker');
    AfterMergeShape(env, ctx, blockBytes, fork, [GetBlobsCall(Deneb, VersionedHashes(c.engineReqs))], m, resolved, getBlobs', tracker', answers);
  }

  /**
    The engine is always asked first, with the Deneb method, for the hashes of exactly the indices
    routed to it; a second request, when there is one, asks the network for a non-empty list of
    identifiers sorted by index.
  */
  lemma ResolveBlockCalls(env: Env, block: SignedBeaconBlock, blockBytes: Option<Bytes>, fork: ForkName,
                          blobsCache: map<nat, BlobCacheEntry>, resolved: seq<BlockInputDataBlobs>,
                          getBlobs: Option<MapState<VersionedHash, Option<BlobAndProof>>>, tracker: Option<seq<Root>>,
                          answers: Answers)
    ensures var o := ResolveBlock(env, block, blockBytes, fork, blobsCache, resolved, getBlobs, tracker, answers);
      var ctx := ContextOf(env, block, tracker.Some? && env.hashTreeRoot(block.message) in tracker.value);
      && 1 <= |o.calls| <= 2
      && o.calls[0].GetBlobsCall? && o.calls[0].fork == Deneb
      && (forall i: nat :: i < |Commitments(ctx)| && RouteOf(env, ctx, EntriesOf(getBlobs), blobsCache, i).ToEngine? ==>
            env.versionedHash(Commitments(ctx)[i]) in o.calls[0].versionedHashes)
      && (forall h :: h in o.calls[0].versionedHashes ==>
            exists i: nat :: i < |Commitments(ctx)| && RouteOf(env, ctx, EntriesOf(getBlobs), blobsCache, i).ToEngine?
                           && h == env.versionedHash(Commitments(ctx)[i]))
      && (|o.calls| == 2 ==>
            o.calls[1].BlobSidecarsByRootCall? && |o.calls[1].identifiers| > 0 && SortedByIndex(o.calls[1].identifiers))
  {
    var root := env.hashTreeRoot(block.message);
    var triedBefore := tracker.Some? && root in tracker.value;
    var tracked := if tracker.Some? && !triedBefore then Some(SetAdd(tracker.value, root)) else tracker;
    var ctx := ContextOf(env, block, triedBefore);
    var n := |Commitments(ctx)|;
    var c := Classify(env, ctx, EntriesOf(getBlobs), blobsCache);
    var m := MergeUpTo(env, ctx, c.engineReqs, answers.engine, c.blobsCache + answers.arrivedDuringEngine, c.networkReqs, |c.engineReqs|);
    var getBlobs' := if getBlobs.Some? then Some(MapPruned(RecordUpTo(getBlobs.value, c.engineReqs, answers.engine, |c.engineReqs|), MAX_ENGINE_GETBLOBS_CACHE)) else None;
    var tracker' := if tracked.Some? then Some(SetPruned(tracked.value, MAX_UNAVAILABLE_RETRY_CACHE)) else None;
    ResolveBlockStages(env, block, blockBytes, fork, blobsCache, resolved, getBlobs, tracker, answers, ctx, c, m, getBlobs', tracker');
    var hashes := VersionedHashes(c.engineReqs);
    AfterMergeShape(env, ctx, blockBytes, fork, [GetBlobsCall(Deneb, hashes)], m, resolved, getBlobs', tracker', answers);
    EngineHashesAreRouted(env, ctx, EntriesOf(getBlobs), blobsCache);
  }

  /** The hashes the engine is asked for are exactly those of the indices routed to it. */
  lemma EngineHashesAreRouted(env: Env, ctx: BlockContext, getBlobs: map<VersionedHash, Option<BlobAndProof>>,
                              blobsCache: map<nat, BlobCacheEntry>)
    ensures var hashes := VersionedHashes(Classify(env, ctx, getBlobs, blobsCache).engineReqs);
      && (forall i: nat :: i < |Commitments(ctx)| && RouteOf(env, ctx, getBlobs, blobsCache, i).ToEngine? ==>
            env.versionedHash(Commitments(ctx)[i]) in hashes)
      && (forall h :: h in hashes ==>
            exists i: nat :: i < |Commitments(ctx)| && RouteOf(env, ctx, getBlobs, blobsCache, i).ToEngine?
                           && h == env.versionedHash(Commitments(ctx)[i]))
  {
    var n := |Commitments(ctx)|;
    var c := Classify(env, ctx, getBlobs, blobsCache);
    var hashes := VersionedHashes(c.engineReqs);
    ClassifyEngine(env, ctx, getBlobs, blobsCache, n);
    forall i: nat | i < n && RouteOf(env, ctx, getBlobs, blobsCache, i).ToEngine?
      ensures env.versionedHash(Commitments(ctx)[i]) in hashes
    {
      var j :| 0 <= j < |c.engineReqs| && c.engineReqs[j] == EngineReqFor(env, ctx, i);
      assert hashes[j] == env.versionedHash(Commitments(ctx)[i]);
    }
    forall h | h in hashes
      ensures exists i: nat :: i < n && RouteOf(env, ctx, getBlobs, blobsCache, i).ToEngine?
                             && h == env.versionedHash(Commitments(ctx)[i])
    {
      var j :| 0 <= j < |hashes| && hashes[j] == h;
      var i := c.engineReqs[j].index;
      assert h == env.versionedHash(Commitments(ctx)[i]);
    }
  }

  /**
    A retry still calls getBlobs, with an empty list of hashes; the getBlobs cache is then only
    trimmed, with no new entry.
  */
  lemma RetrySendsEmptyGetBlobs(env: Env, block: SignedBeaconBlock, blockBytes: Option<Bytes>, fork: ForkName,
                                blobsCache: map<nat, BlobCacheEntry>, resolved: seq<BlockInputDataBlobs>,
                                getBlobs: Option<MapState<VersionedHash, Option<BlobAndProof>>>, tracker: Option<seq<Root>>,
                                answers: Answers)
    requires tracker.Some? && env.hashTreeRoot(block.message) in tracker.value
    ensures var o := ResolveBlock(env, block, blockBytes, fork, blobsCache, resolved, getBlobs, tracker, answers);
      && o.calls[0] == GetBlobsCall(Deneb, [])
      && o.getBlobsCache == (if getBlobs.Some? then Some(MapPruned(getBlobs.value, MAX_ENGINE_GETBLOBS_CACHE)) else None)
      && o.retryTracker == Some(SetPruned(tracker.value, MAX_UNAVAILABLE_RETRY_CACHE))
  {
    var ctx := ContextOf(env, block, true);
    RetryGoesToNetwork(env, ctx, EntriesOf(getBlobs), blobsCache);
    var c := Classify(env, ctx, EntriesOf(getBlobs), blobsCache);
    assert VersionedHashes(c.engineReqs) == [];
  }

  /**
    The whole call: an input with its data settled is returned untouched; a root-only input first
    fetches its block, and fails with nothing changed when no block comes back.
  */
  lemma UnavailableFetchesTheBlockFirst(env: Env, u: MaybeBlockInput, blobsCache: map<nat, BlobCacheEntry>,
                                        resolved: seq<BlockInputDataBlobs>,
                                        getBlobs: Option<MapState<VersionedHash, Option<BlobAndProof>>>, tracker: Option<seq<Root>>,
                                        answers: Answers)
    ensures var o := Unavailable(env, u, blobsCache, resolved, getBlobs, tracker, answers);
      && (ReturnsUnchanged(u) ==> o == Outcome(Ok(u.input), [], blobsCache, resolved, getBlobs, tracker))
      && (u.NullBlockInput? ==> |o.calls| >= 1 && o.calls[0] == BlocksByRootCall([u.blockRootHex]))
      && (u.NullBlockInput? && |answers.blocks| == 0 ==>
            o == Outcome(Err(NoBlockReturned), [BlocksByRootCall([u.blockRootHex])], blobsCache, resolved, getBlobs, tracker))
      && (u.NullBlockInput? && |answers.blocks| > 0 ==> |o.calls| >= 2 && o.calls[1].GetBlobsCall?)
      && (u.Known? && u.input.kind.DataPromise? ==> o.calls[0].GetBlobsCall?)
  {
    if u.NullBlockInput? && |answers.blocks| > 0 {
      ResolveBlockCalls(env, answers.blocks[0].data, Some(answers.blocks[0].bytes), u.cachedData.fork,
                        blobsCache, resolved, getBlobs, tracker, answers);
    }
    if u.Known? && u.input.kind.DataPromise? {
      ResolveBlockCalls(env, u.input.block, u.input.blockBytes, u.input.kind.cachedData.fork,
                        blobsCache, resolved, getBlobs, tracker, answers);
    }
  }

  /** The versioned hash of commitment `i` of `block`. */
  function HashOf(env: Env, block: SignedBeaconBlock, i: nat): VersionedHash
    requires i < |block.message.body.blobKzgCommitments|
  {
    env.versionedHash(block.message.body.blobKzgCommitments[i])
  }

  /** A block with five commitments whose versioned hashes differ. */
  ghost predicate FiveDistinctBlobs(env: Env, block: SignedBeaconBlock) {
    && |block.message.body.blobKzgCommitments| == 5
    && forall a: nat, b: nat :: a < b < 5 ==> HashOf(env, block, a) != HashOf(env, block, b)
  }

  /** Where each of the scenario's five indices is routed. */
  lemma ScenarioRoutes(env: Env, block: SignedBeaconBlock, bp2: BlobAndProof)
    requires FiveDistinctBlobs(env, block)
    ensures var ctx := ContextOf(env, block, false);
      var G := map[HashOf(env, block, 2) := Some(bp2), HashOf(env, block, 3) := None];
      && RouteOf(env, ctx, G, map[], 0) == ToEngine
      && RouteOf(env, ctx, G, map[], 1) == ToEngine
      && RouteOf(env, ctx, G, map[], 2) == FromGetBlobsCache(bp2)
      && RouteOf(env, ctx, G, map[], 3) == ToNetwork
      && RouteOf(env, ctx, G, map[], 4) == ToEngine
  {
    assert HashOf(env, block, 0) != HashOf(env, block, 2) && HashOf(env, block, 0) != HashOf(env, block, 3);
    assert HashOf(env, block, 1) != HashOf(env, block, 2) && HashOf(env, block, 1) != HashOf(env, block, 3);
    assert HashOf(env, block, 4) != HashOf(env, block, 2) && HashOf(env, block, 4) != HashOf(env, block, 3);
  }

  lemma ScenarioClassify(env: Env, block: SignedBeaconBlock, bp2: BlobAndProof)
    requires FiveDistinctBlobs(env, block)
    ensures var ctx := ContextOf(env, block, false);
      Classify(env, ctx, map[HashOf(env, block, 2) := Some(bp2), HashOf(env, block, 3) := None], map[])
        == Classified(map[2 := RebuiltEntry(env, ctx, 2, Commitments(ctx)[2], bp2)],
                      [EngineReqFor(env, ctx, 0), EngineReqFor(env, ctx, 1), EngineReqFor(env, ctx, 4)],
                      [BlobIdentifier(ctx.blockRoot, 3)])
  {
    var ctx := ContextOf(env, block, false);
    var G := map[HashOf(env, block, 2) := Some(bp2), HashOf(env, block, 3) := None];
    var empty: map<nat, BlobCacheEntry> := map[];
    ScenarioRoutes(env, block, bp2);
    var e0, e1, e4 := EngineReqFor(env, ctx, 0), EngineReqFor(env, ctx, 1), EngineReqFor(env, ctx, 4);
    var rebuilt := map[2 := RebuiltEntry(env, ctx, 2, Commitments(ctx)[2], bp2)];
    ClassifyStep(env, ctx, G, empty, 1);
    assert ClassifyUpTo(env, ctx, G, empty, 1) == Classified(empty, [e0], []);
    ClassifyStep(env, ctx, G, empty, 2);
    assert ClassifyUpTo(env, ctx, G, empty, 2) == Classified(empty, [e0, e1], []);
    ClassifyStep(env, ctx, G, empty, 3);
    assert ClassifyUpTo(env, ctx, G, empty, 3) == Classified(rebuilt, [e0, e1], []);
    ClassifyStep(env, ctx, G, empty, 4);
    assert ClassifyUpTo(env, ctx, G, empty, 4) == Classified(rebuilt, [e0, e1], [BlobIdentifier(ctx.blockRoot, 3)]);
    ClassifyStep(env, ctx, G, empty, 5);
  }

  lemma ScenarioMerge(env: Env, ctx: BlockContext, reqs: seq<EngineReq>, bp0: BlobAndProof, bp1: BlobAndProof,
                      cache: map<nat, BlobCacheEntry>, networkReqs: seq<BlobIdentifier>)
    requires |reqs| == 3 && reqs[0].index == 0 && reqs[1].index == 1 && reqs[2].index == 4
    requires 0 !in cache && 1 !in cache && 4 !in cache
    ensures MergeUpTo(env, ctx, reqs, EngineReturned([Some(bp0), Some(bp1), None]), cache, networkReqs, 3)
         == Merged(cache[0 := RebuiltEntry(env, ctx, 0, reqs[0].kzgCommitment, bp0)][1 := RebuiltEntry(env, ctx, 1, reqs[1].kzgCommitment, bp1)],
                   networkReqs + [BlobIdentifier(reqs[2].blockRoot, 4)])
  {
    var answer := EngineReturned([Some(bp0), Some(bp1), None]);
    assert ResponseAt(answer, 3, 0) == Some(bp0);
    assert ResponseAt(answer, 3, 1) == Some(bp1);
    assert ResponseAt(answer, 3, 2) == None;
    var r0 := RebuiltEntry(env, ctx, 0, reqs[0].kzgCommitment, bp0);
    var r1 := RebuiltEntry(env, ctx, 1, reqs[1].kzgCommitment, bp1);
    assert MergeUpTo(env, ctx, reqs, answer, cache, networkReqs, 1) == Merged(cache[0 := r0], networkReqs);
    assert MergeUpTo(env, ctx, reqs, answer, cache, networkReqs, 2) == Merged(cache[0 := r0][1 := r1], networkReqs);
    assert 4 !in cache[0 := r0][1 := r1];
  }

  lemma ScenarioRecord(s: MapState<VersionedHash, Option<BlobAndProof>>, reqs: seq<EngineReq>, bp0: BlobAndProof, bp1: BlobAndProof)
    requires |reqs| == 3
    requires forall j :: 0 <= j < 3 ==> reqs[j].versionedHash !in s.entries
    requires reqs[0].versionedHash != reqs[1].versionedHash && reqs[1].versionedHash != reqs[2].versionedHash && reqs[2].versionedHash != reqs[0].versionedHash
    ensures RecordUpTo(s, reqs, EngineReturned([Some(bp0), Some(bp1), None]), 3)
         == MapState(s.keys + [reqs[0].versionedHash, reqs[1].versionedHash, reqs[2].versionedHash],
                     s.entries[reqs[0].versionedHash := Some(bp0)][reqs[1].versionedHash := Some(bp1)][reqs[2].versionedHash := None])
  {
    var answer := EngineReturned([Some(bp0), Some(bp1), None]);
    assert ResponseAt(answer, 3, 0) == Some(bp0);
    assert ResponseAt(answer, 3, 1) == Some(bp1);
    assert ResponseAt(answer, 3, 2) == None;
    assert RecordUpTo(s, reqs, answer, 1) == MapState(s.keys + [reqs[0].versionedHash], s.entries[reqs[0].versionedHash := Some(bp0)]);
  }

  /** The scenario's record stays within the cap, so pruning leaves it as recorded. */
  lemma ScenarioPrunedRecord(s: MapState<VersionedHash, Option<BlobAndProof>>, reqs: seq<EngineReq>, bp0: BlobAndProof, bp1: BlobAndProof)
    requires WellFormed(s) && |s.keys| + 3 <= MAX_ENGINE_GETBLOBS_CACHE
    requires |reqs| == 3
    requires forall j :: 0 <= j < 3 ==> reqs[j].versionedHash !in s.entries
    requires reqs[0].versionedHash != reqs[1].versionedHash && reqs[1].versionedHash != reqs[2].versionedHash && reqs[2].versionedHash != reqs[0].versionedHash
    ensures MapPruned(RecordUpTo(s, reqs, EngineReturned([Some(bp0), Some(bp1), None]), 3), MAX_ENGINE_GETBLOBS_CACHE)
         == MapState(s.keys + [reqs[0].versionedHash, reqs[1].versionedHash, reqs[2].versionedHash],
                     s.entries[reqs[0].versionedHash := Some(bp0)][reqs[1].versionedHash := Some(bp1)][reqs[2].versionedHash := None])
  {
    ScenarioRecord(s, reqs, bp0, bp1);
    RecordWithinCap(s, reqs, EngineReturned([Some(bp0), Some(bp1), None]));
  }

  lemma SortTwo(id3: BlobIdentifier, id4: BlobIdentifier)
    requires id3.index == 3 && id4.index == 4
    ensures SortByIndex([id3, id4]) == [id3, id4]
  {
    assert SortByIndex([id3]) == [id3];
    assert SortByIndex([id3, id4]) == InsertByIndex(id4, [id3]);
  }

  lemma InsertTwoSidecars(cache: map<nat, BlobCacheEntry>, s3: BlobSidecar, s4: BlobSidecar)
    requires s3.index == 3 && s4.index == 4
    ensures InsertSidecars(cache + map[], [s3, s4]) == cache[3 := BlobCacheEntry(s3, None)][4 := BlobCacheEntry(s4, None)]
  {
    assert cache + map[] == cache;
    assert [s3, s4][..1] == [s3];
    assert [s3][..0] == [];
    assert InsertSidecars(cache, [s3]) == cache[3 := BlobCacheEntry(s3, None)];
  }

  /** The scenario's getBlobs cache: blob 2 with its proof, and a `null` for blob 3. */
  function ScenarioGetBlobs(env: Env, block: SignedBeaconBlock, bp2: BlobAndProof): MapState<VersionedHash, Option<BlobAndProof>>
    requires |block.message.body.blobKzgCommitments| == 5
  {
    MapState([HashOf(env, block, 2), HashOf(env, block, 3)], map[HashOf(env, block, 2) := Some(bp2), HashOf(env, block, 3) := None])
  }

  /** The scenario's answers: the engine has blobs 0 and 1 but not 4, the network sidecars 3 and 4. */
  function ScenarioAnswers(bp0: BlobAndProof, bp1: BlobAndProof, s3: BlobSidecar, s4: BlobSidecar): Answers {
    Answers([], EngineReturned([Some(bp0), Some(bp1), None]), map[], [s3, s4], map[])
  }

  /** The scenario after the classification and the engine answer, the two stages both requests depend on. */
  lemma ScenarioAfterEngine(env: Env, block: SignedBeaconBlock, bp0: BlobAndProof, bp1: BlobAndProof, bp2: BlobAndProof,
                            s3: BlobSidecar, s4: BlobSidecar)
    requires FiveDistinctBlobs(env, block)
    ensures
      var root := env.hashTreeRoot(block.message);
      var ctx := ContextOf(env, block, false);
      var c := Classify(env, ctx, ScenarioGetBlobs(env, block, bp2).entries, map[]);
      var answers := ScenarioAnswers(bp0, bp1, s3, s4);
      var m := MergeUpTo(env, ctx, c.engineReqs, answers.engine, c.blobsCache + answers.arrivedDuringEngine, c.networkReqs, |c.engineReqs|);
      && VersionedHashes(c.engineReqs) == [HashOf(env, block, 0), HashOf(env, block, 1), HashOf(env, block, 4)]
      && m.networkReqs == [BlobIdentifier(root, 3), BlobIdentifier(root, 4)]
      && m.blobsCache == map[2 := RebuiltEntry(env, ctx, 2, Commitments(ctx)[2], bp2)]
                            [0 := RebuiltEntry(env, ctx, 0, Commitments(ctx)[0], bp0)]
                            [1 := RebuiltEntry(env, ctx, 1, Commitments(ctx)[1], bp1)]
  {
    var ctx := ContextOf(env, block, false);
    var answers := ScenarioAnswers(bp0, bp1, s3, s4);
    ScenarioClassify(env, block, bp2);
    var c := Classify(env, ctx, ScenarioGetBlobs(env, block, bp2).entries, map[]);
    assert c.blobsCache + answers.arrivedDuringEngine == c.blobsCache;
    ScenarioMerge(env, ctx, c.engineReqs, bp0, bp1, c.blobsCache, c.networkReqs);
  }

  /**
    A worked case with five blobs and none received yet. The getBlobs cache holds blob 2 and a
    `null` for blob 3; the engine returns blobs 0 and 1 but not 4; the network returns sidecars 3
    and 4. The engine is asked for hashes 0, 1 and 4, the network for identifiers 3 and 4, and all
    five indices end up in the cache: 0 to 2 rebuilt, 3 and 4 as received.
  */
  lemma FiveBlobScenarioRequests(env: Env, block: SignedBeaconBlock, bp0: BlobAndProof, bp1: BlobAndProof, bp2: BlobAndProof,
                                 s3: BlobSidecar, s4: BlobSidecar)
    requires FiveDistinctBlobs(env, block)
    requires s3.index == 3 && s4.index == 4
    ensures
      var root := env.hashTreeRoot(block.message);
      var ctx := ContextOf(env, block, false);
      var o := ResolveBlock(env, block, None, Deneb, map[], [], Some(ScenarioGetBlobs(env, block, bp2)), Some([]),
                            ScenarioAnswers(bp0, bp1, s3, s4));
      && o.calls == [GetBlobsCall(Deneb, [HashOf(env, block, 0), HashOf(env, block, 1), HashOf(env, block, 4)]),
                     BlobSidecarsByRootCall([BlobIdentifier(root, 3), BlobIdentifier(root, 4)])]
      && o.blobsCache == map[0 := RebuiltEntry(env, ctx, 0, Commitments(ctx)[0], bp0),
                             1 := RebuiltEntry(env, ctx, 1, Commitments(ctx)[1], bp1),
                             2 := RebuiltEntry(env, ctx, 2, Commitments(ctx)[2], bp2),
                             3 := BlobCacheEntry(s3, None),
                             4 := BlobCacheEntry(s4, None)]
  {
    FiveBlobScenarioCalls(env, block, bp0, bp1, bp2, s3, s4);
    FiveBlobScenarioBlobs(env, block, bp0, bp1, bp2, s3, s4);
  }

  /** The scenario's two requests: the engine for hashes 0, 1 and 4, the network for identifiers 3 and 4. */
  lemma FiveBlobScenarioCalls(env: Env, block: SignedBeaconBlock, bp0: BlobAndProof, bp1: BlobAndProof, bp2: BlobAndProof,
                                 s3: BlobSidecar, s4: BlobSidecar)
    requires FiveDistinctBlobs(env, block)
    requires s3.index == 3 && s4.index == 4
    ensures
      var root := env.hashTreeRoot(block.message);
      var ctx := ContextOf(env, block, false);
      var o := ResolveBlock(env, block, None, Deneb, map[], [], Some(ScenarioGetBlobs(env, block, bp2)), Some([]),
                            ScenarioAnswers(bp0, bp1, s3, s4));
      && o.calls == [GetBlobsCall(Deneb, [HashOf(env, block, 0), HashOf(env, block, 1), HashOf(env, block, 4)]),
                     BlobSidecarsByRootCall([BlobIdentifier(root, 3), BlobIdentifier(root, 4)])]
  {
    var root := env.hashTreeRoot(block.message);
    var ctx := ContextOf(env, block, false);
    var getBlobs := ScenarioGetBlobs(env, block, bp2);
    var answers := ScenarioAnswers(bp0, bp1, s3, s4);
    var empty: map<nat, BlobCacheEntry> := map[];
    var c := Classify(env, ctx, getBlobs.entries, empty);
    var m := MergeUpTo(env, ctx, c.engineReqs, answers.engine, c.blobsCache + answers.arrivedDuringEngine, c.networkReqs, |c.engineReqs|);
    ScenarioAfterEngine(env, block, bp0, bp1, bp2, s3, s4);
    ResolveBlockFields(env, block, None, Deneb, empty, [], Some(getBlobs), Some([]), answers, ctx, c, m);
    SortTwo(BlobIdentifier(root, 3), BlobIdentifier(root, 4));
  }

  /** The scenario's blob cache afterwards: 0 to 2 rebuilt, 3 and 4 as received. */
  lemma FiveBlobScenarioBlobs(env: Env, block: SignedBeaconBlock, bp0: BlobAndProof, bp1: BlobAndProof, bp2: BlobAndProof,
                                 s3: BlobSidecar, s4: BlobSidecar)
    requires FiveDistinctBlobs(env, block)
    requires s3.index == 3 && s4.index == 4
    ensures
      var root := env.hashTreeRoot(block.message);
      var ctx := ContextOf(env, block, false);
      var o := ResolveBlock(env, block, None, Deneb, map[], [], Some(ScenarioGetBlobs(env, block, bp2)), Some([]),
                            ScenarioAnswers(bp0, bp1, s3, s4));
      && o.blobsCache == map[0 := RebuiltEntry(env, ctx, 0, Commitments(ctx)[0], bp0),
                             1 := RebuiltEntry(env, ctx, 1, Commitments(ctx)[1], bp1),
                             2 := RebuiltEntry(env, ctx, 2, Commitments(ctx)[2], bp2),
                             3 := BlobCacheEntry(s3, None),
                             4 := BlobCacheEntry(s4, None)]
  {
    var root := env.hashTreeRoot(block.message);
    var ctx := ContextOf(env, block, false);
    var getBlobs := ScenarioGetBlobs(env, block, bp2);
    var answers := ScenarioAnswers(bp0, bp1, s3, s4);
    var empty: map<nat, BlobCacheEntry> := map[];
    var c := Classify(env, ctx, getBlobs.entries, empty);
    var m := MergeUpTo(env, ctx, c.engineReqs, answers.engine, c.blobsCache + answers.arrivedDuringEngine, c.networkReqs, |c.engineReqs|);
    ScenarioAfterEngine(env, block, bp0, bp1, bp2, s3, s4);
    ResolveBlockFields(env, block, None, Deneb, empty, [], Some(getBlobs), Some([]), answers, ctx, c, m);
    SortTwo(BlobIdentifier(root, 3), BlobIdentifier(root, 4));
    InsertTwoSidecars(m.blobsCache, s3, s4);
    FiveEntries(RebuiltEntry(env, ctx, 0, Commitments(ctx)[0], bp0), RebuiltEntry(env, ctx, 1, Commitments(ctx)[1], bp1),
                RebuiltEntry(env, ctx, 2, Commitments(ctx)[2], bp2), BlobCacheEntry(s3, None), BlobCacheEntry(s4, None));
  }

  /** The same answers, except that the network returns sidecar 3 only. */
  function ShortScenarioAnswers(bp0: BlobAndProof, bp1: BlobAndProof, s3: BlobSidecar): Answers {
    Answers([], EngineReturned([Some(bp0), Some(bp1), None]), map[], [s3], map[])
  }

  /** The worked case when the network returns sidecar 3 but not 4: the same two requests are made. */
  lemma ShortScenarioCalls(env: Env, block: SignedBeaconBlock, bp0: BlobAndProof, bp1: BlobAndProof, bp2: BlobAndProof,
                           s3: BlobSidecar)
    requires FiveDistinctBlobs(env, block)
    requires s3.index == 3
    ensures
      var root := env.hashTreeRoot(block.message);
      var o := ResolveBlock(env, block, None, Deneb, map[], [], Some(ScenarioGetBlobs(env, block, bp2)), Some([]),
                            ShortScenarioAnswers(bp0, bp1, s3));
      o.calls == [GetBlobsCall(Deneb, [HashOf(env, block, 0), HashOf(env, block, 1), HashOf(env, block, 4)]),
                  BlobSidecarsByRootCall([BlobIdentifier(root, 3), BlobIdentifier(root, 4)])]
  {
    var root := env.hashTreeRoot(block.message);
    var ctx := ContextOf(env, block, false);
    var getBlobs := ScenarioGetBlobs(env, block, bp2);
    var answers := ShortScenarioAnswers(bp0, bp1, s3);
    var empty: map<nat, BlobCacheEntry> := map[];
    var c := Classify(env, ctx, getBlobs.entries, empty);
    var m := MergeUpTo(env, ctx, c.engineReqs, answers.engine, c.blobsCache + answers.arrivedDuringEngine, c.networkReqs, |c.engineReqs|);
    ScenarioAfterEngine(env, block, bp0, bp1, bp2, s3, s3);
    assert answers.engine == ScenarioAnswers(bp0, bp1, s3, s3).engine;
    assert answers.arrivedDuringEngine == ScenarioAnswers(bp0, bp1, s3, s3).arrivedDuringEngine;
    ResolveBlockFields(env, block, None, Deneb, empty, [], Some(getBlobs), Some([]), answers, ctx, c, m);
    SortTwo(BlobIdentifier(root, 3), BlobIdentifier(root, 4));
  }

  /** In that case the cache ends up with indices 0 to 3 only. */
  lemma ShortScenarioBlobs(env: Env, block: SignedBeaconBlock, bp0: BlobAndProof, bp1: BlobAndProof, bp2: BlobAndProof,
                           s3: BlobSidecar)
    requires FiveDistinctBlobs(env, block)
    requires s3.index == 3
    ensures
      var root := env.hashTreeRoot(block.message);
      var ctx := ContextOf(env, block, false);
      var o := ResolveBlock(env, block, None, Deneb, map[], [], Some(ScenarioGetBlobs(env, block, bp2)), Some([]),
                            ShortScenarioAnswers(bp0, bp1, s3));
      && o.blobsCache == map[0 := RebuiltEntry(env, ctx, 0, Commitments(ctx)[0], bp0),
                             1 := RebuiltEntry(env, ctx, 1, Commitments(ctx)[1], bp1),
                             2 := RebuiltEntry(env, ctx, 2, Commitments(ctx)[2], bp2),
                             3 := BlobCacheEntry(s3, None)]
      && o.blobsCache.Keys == {0, 1, 2, 3}
  {
    var root := env.hashTreeRoot(block.message);
    var ctx := ContextOf(env, block, false);
    var getBlobs := ScenarioGetBlobs(env, block, bp2);
    var answers := ShortScenarioAnswers(bp0, bp1, s3);
    var empty: map<nat, BlobCacheEntry> := map[];
    var c := Classify(env, ctx, getBlobs.entries, empty);
    var m := MergeUpTo(env, ctx, c.engineReqs, answers.engine, c.blobsCache + answers.arrivedDuringEngine, c.networkReqs, |c.engineReqs|);
    ScenarioAfterEngine(env, block, bp0, bp1, bp2, s3, s3);
    assert answers.engine == ScenarioAnswers(bp0, bp1, s3, s3).engine;
    assert answers.arrivedDuringEngine == ScenarioAnswers(bp0, bp1, s3, s3).arrivedDuringEngine;
    ResolveBlockFields(env, block, None, Deneb, empty, [], Some(getBlobs), Some([]), answers, ctx, c, m);
    SortTwo(BlobIdentifier(root, 3), BlobIdentifier(root, 4));
    InsertOneSidecar(m.blobsCache, s3);
    FourEntries(RebuiltEntry(env, ctx, 0, Commitments(ctx)[0], bp0), RebuiltEntry(env, ctx, 1, Commitments(ctx)[1], bp1),
                RebuiltEntry(env, ctx, 2, Commitments(ctx)[2], bp2), BlobCacheEntry(s3, None));
  }

  lemma InsertOneSidecar(cache: map<nat, BlobCacheEntry>, s3: BlobSidecar)
    requires s3.index == 3
    ensures InsertSidecars(cache + map[], [s3]) == cache[3 := BlobCacheEntry(s3, None)]
  {
    assert cache + map[] == cache;
    assert [s3][..0] == [];
  }

  /** The short case's cache, built in the order the entries arrive. */
  lemma FourEntries(e0: BlobCacheEntry, e1: BlobCacheEntry, e2: BlobCacheEntry, e3: BlobCacheEntry)
    ensures var m := map[2 := e2][0 := e0][1 := e1][3 := e3];
      m == map[0 := e0, 1 := e1, 2 := e2, 3 := e3] && m.Keys == {0, 1, 2, 3}
  {
  }

  /**
    With sidecar 4 missing, a `getBlockInputBlobs` that collects the four cached blobs makes the
    call fail with one blob missing, and nothing is resolved.
  */
  lemma ShortScenarioFails(env: Env, block: SignedBeaconBlock, bp0: BlobAndProof, bp1: BlobAndProof, bp2: BlobAndProof,
                           s3: BlobSidecar)
    requires FiveDistinctBlobs(env, block)
    requires s3.index == 3
    ensures
      var o := ResolveBlock(env, block, None, Deneb, map[], [], Some(ScenarioGetBlobs(env, block, bp2)), Some([]),
                            ShortScenarioAnswers(bp0, bp1, s3));
      var collected := env.blockInputBlobs(o.blobsCache);
      && (collected.Some? && |collected.value.blobs| == 4 ==> o.result == Err(NotAllBlobsFetched(1)))
      && (collected.None? ==> o.result == Err(BlobsNotCollected))
      && (collected.None? || |collected.value.blobs| != 5 ==> o.resolved == [])
  {
    var root := env.hashTreeRoot(block.message);
    var ctx := ContextOf(env, block, false);
    var getBlobs := ScenarioGetBlobs(env, block, bp2);
    var answers := ShortScenarioAnswers(bp0, bp1, s3);
    var empty: map<nat, BlobCacheEntry> := map[];
    var c := Classify(env, ctx, getBlobs.entries, empty);
    var m := MergeUpTo(env, ctx, c.engineReqs, answers.engine, c.blobsCache + answers.arrivedDuringEngine, c.networkReqs, |c.engineReqs|);
    var getBlobs' := Some(MapPruned(RecordUpTo(getBlobs, c.engineReqs, answers.engine, |c.engineReqs|), MAX_ENGINE_GETBLOBS_CACHE));
    var tracker' := Some(SetPruned(SetAdd([], ctx.blockRoot), MAX_UNAVAILABLE_RETRY_CACHE));
    ScenarioAfterEngine(env, block, bp0, bp1, bp2, s3, s3);
    assert answers.engine == ScenarioAnswers(bp0, bp1, s3, s3).engine;
    assert answers.arrivedDuringEngine == ScenarioAnswers(bp0, bp1, s3, s3).arrivedDuringEngine;
    assert |SortByIndex(m.networkReqs)| > 0 by {
      SortTwo(BlobIdentifier(root, 3), BlobIdentifier(root, 4));
    }
    ResolveBlockStages(env, block, None, Deneb, empty, [], Some(getBlobs), Some([]), answers, ctx, c, m, getBlobs', tracker');
  }

  /** The scenario's cache, built in the order the entries arrive. */
  lemma FiveEntries(e0: BlobCacheEntry, e1: BlobCacheEntry, e2: BlobCacheEntry, e3: BlobCacheEntry, e4: BlobCacheEntry)
    ensures map[2 := e2][0 := e0][1 := e1][3 := e3][4 := e4] == map[0 := e0, 1 := e1, 2 := e2, 3 := e3, 4 := e4]
  {
  }

  /**
    The same case seen from the two process-wide caches: the getBlobs cache records the three
    engine answers after its two older keys, and the tracker now holds the block's root.
  */
  lemma FiveBlobScenarioCaches(env: Env, block: SignedBeaconBlock, bp0: BlobAndProof, bp1: BlobAndProof, bp2: BlobAndProof,
                               s3: BlobSidecar, s4: BlobSidecar)
    requires FiveDistinctBlobs(env, block)
    ensures
      var h0, h1, h2, h3, h4 := HashOf(env, block, 0), HashOf(env, block, 1), HashOf(env, block, 2), HashOf(env, block, 3), HashOf(env, block, 4);
      var o := ResolveBlock(env, block, None, Deneb, map[], [], Some(ScenarioGetBlobs(env, block, bp2)), Some([]),
                            ScenarioAnswers(bp0, bp1, s3, s4));
      && o.getBlobsCache == Some(MapState([h2, h3, h0, h1, h4],
                                          map[h2 := Some(bp2), h3 := None, h0 := Some(bp0), h1 := Some(bp1), h4 := None]))
      && o.retryTracker == Some([env.hashTreeRoot(block.message)])
  {
    var h0, h1, h2, h3, h4 := HashOf(env, block, 0), HashOf(env, block, 1), HashOf(env, block, 2), HashOf(env, block, 3), HashOf(env, block, 4);
    var root := env.hashTreeRoot(block.message);
    var ctx := ContextOf(env, block, false);
    var getBlobs := ScenarioGetBlobs(env, block, bp2);
    var answers := ScenarioAnswers(bp0, bp1, s3, s4);
    var empty: map<nat, BlobCacheEntry> := map[];

    ScenarioClassify(env, block, bp2);
    var c := Classify(env, ctx, getBlobs.entries, empty);
    var m := MergeUpTo(env, ctx, c.engineReqs, answers.engine, c.blobsCache + answers.arrivedDuringEngine, c.networkReqs, |c.engineReqs|);
    assert c.engineReqs[0].versionedHash == h0 && c.engineReqs[1].versionedHash == h1 && c.engineReqs[2].versionedHash == h4;
    assert h0 != h1 && h1 != h4 && h0 != h4;
    assert h0 != h2 && h0 != h3 && h1 != h2 && h1 != h3 && h4 != h2 && h4 != h3;
    assert getBlobs.keys + [h0, h1, h4] == [h2, h3, h0, h1, h4];
    ScenarioPrunedRecord(getBlobs, c.engineReqs, bp0, bp1);
    assert SetPruned(SetAdd([], root), MAX_UNAVAILABLE_RETRY_CACHE) == [root];

    ResolveBlockFields(env, block, None, Deneb, empty, [], Some(getBlobs), Some([]), answers, ctx, c, m);
  }

  // ---------------------------------------------------------------------------------------------
  // Bulk path
  // ---------------------------------------------------------------------------------------------

  /** A block contributes one identifier per commitment, all under its own root, from Deneb on. */
  lemma BlockIdentifiersMembership(env: Env, block: SignedBeaconBlock, id: BlobIdentifier)
    ensures id in BlockIdentifiers(env, block) <==>
              && ForkSeq(env.forkAt(block.message.slot)) >= ForkSeq(Deneb)
              && id.blockRoot == env.hashTreeRoot(block.message)
              && id.index < |block.message.body.blobKzgCommitments|
  {
    var ids := BlockIdentifiers(env, block);
    if id in ids {
      var j :| 0 <= j < |ids| && ids[j] == id;
    } else if ForkSeq(env.forkAt(block.message.slot)) >= ForkSeq(Deneb) && id.index < |block.message.body.blobKzgCommitments| {
      assert ids[id.index] == BlobIdentifier(env.hashTreeRoot(block.message), id.index);
    }
  }

  /** One more element adds its own results at the end. */
  lemma ConcatMapSnoc<T, U>(f: T -> seq<U>, xs: seq<T>, last: T)
    ensures ConcatMap(f, xs + [last]) == ConcatMap(f, xs) + f(last)
  {
    assert (xs + [last])[..|xs|] == xs;
  }

  lemma {:induction false} ConcatMapAppend<T, U>(f: T -> seq<U>, a: seq<T>, b: seq<T>)
    ensures ConcatMap(f, a + b) == ConcatMap(f, a) + ConcatMap(f, b)
    decreases |b|
  {
    if b == [] {
      assert a + b == a;
    } else {
      var b', last := b[..|b| - 1], b[|b| - 1];
      assert b == b' + [last];
      assert a + b == (a + b') + [last];
      ConcatMapSnoc(f, a + b', last);
      ConcatMapSnoc(f, b', last);
      ConcatMapAppend(f, a, b');
      var x, y, z := ConcatMap(f, a), ConcatMap(f, b'), f(last);
      assert ConcatMap(f, a + b) == (x + y) + z;
      assert ConcatMap(f, b) == y + z;
      assert (x + y) + z == x + (y + z);
    }
  }

  lemma {:induction false} ConcatMapMembership<T, U>(f: T -> seq<U>, xs: seq<T>, y: U)
    ensures y in ConcatMap(f, xs) <==> exists k :: 0 <= k < |xs| && y in f(xs[k])
    decreases |xs|
  {
    if xs != [] {
      var init := xs[..|xs| - 1];
      ConcatMapMembership(f, init, y);
      if exists k :: 0 <= k < |init| && y in f(init[k]) {
        var k :| 0 <= k < |init| && y in f(init[k]);
        assert xs[k] == init[k];
      }
      if exists k :: 0 <= k < |xs| && y in f(xs[k]) {
        var k :| 0 <= k < |xs| && y in f(xs[k]);
        if k < |init| { assert init[k] == xs[k]; }
      }
    }
  }

  lemma {:induction false} ConcatMapOfEmpties<T, U>(f: T -> seq<U>, xs: seq<T>)
    requires forall k :: 0 <= k < |xs| ==> f(xs[k]) == []
    ensures ConcatMap(f, xs) == []
    decreases |xs|
  {
    if xs != [] {
      var init := xs[..|xs| - 1];
      assert forall k :: 0 <= k < |init| ==> init[k] == xs[k];
      ConcatMapOfEmpties(f, init);
    }
  }

  /** The identifiers keep the order of the blocks: those of a prefix come first. */
  lemma BulkIdentifiersAppend(env: Env, a: seq<WithBytes>, b: seq<WithBytes>)
    ensures BulkIdentifiers(env, a + b) == BulkIdentifiers(env, a) + BulkIdentifiers(env, b)
  {
    ConcatMapAppend((block: WithBytes) => BlockIdentifiers(env, block.data), a, b);
  }

  /** An identifier is requested exactly when it belongs to one of the returned blocks. */
  lemma BulkIdentifiersMembership(env: Env, blocks: seq<WithBytes>, id: BlobIdentifier)
    ensures id in BulkIdentifiers(env, blocks) <==>
              exists k :: 0 <= k < |blocks| && id in BlockIdentifiers(env, blocks[k].data)
  {
    var f := (block: WithBytes) => BlockIdentifiers(env, block.data);
    ConcatMapMembership(f, blocks, id);
    assert forall k :: 0 <= k < |blocks| ==> f(blocks[k]) == BlockIdentifiers(env, blocks[k].data);
  }

  /** With only pre-Deneb blocks no identifier is requested, so the blob request is skipped. */
  lemma PreDenebBlocksNeedNoBlobs(env: Env, blocks: seq<WithBytes>)
    requires forall k :: 0 <= k < |blocks| ==> ForkSeq(env.forkAt(blocks[k].data.message.slot)) < ForkSeq(Deneb)
    ensures BulkIdentifiers(env, blocks) == []
  {
    var f := (block: WithBytes) => BlockIdentifiers(env, block.data);
    assert forall k :: 0 <= k < |blocks| ==> f(blocks[k]) == [];
    ConcatMapOfEmpties(f, blocks);
  }
}
