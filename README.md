# Lodestar blob retrieval, ssz_snappy reader and validator helpers in Dafny

This project models six pieces of the Lodestar Ethereum consensus client and proves properties
of them:

- **Blob retrieval by root** (`blobs_by_root.dfy`, `blobs_by_root_properties.dfy`, with
  `blob_types.dfy` and `insertion_ordered.dfy`).
  - `unavailableBeaconBlobsByRoot` completes a block input whose blobs are only partly known.
  - It fetches the block when only its root is known.
  - It sorts every missing blob index into one of three places: a process-wide `engine_getBlobsV1`
    result cache (the *getBlobs cache*), a request to the execution engine, or a
    `BlobSidecarsByRoot` request to a peer.
  - It merges the answers into the block's shared `blobsCache` and trims the getBlobs cache
    (512 entries) and the retry tracker (32 roots).
  - It then resolves availability, or fails with the number of blobs still missing.
  - `beaconBlocksMaybeBlobsByRoot` is the bulk path for a list of roots.
  - The JavaScript `Map` and `Set` of those caches are modelled with insertion order, since
    pruning deletes the oldest keys.
- **The `ssz_snappy` reader** of the req/resp protocol (`ssz_snappy_decode.dfy`).
  - `readSszSnappyHeader` reads the varint length prefix and checks it against the type's SSZ
    bounds.
  - `readSszSnappyBody` feeds chunks to the Snappy frame decompressor until exactly that many
    bytes come out. It refuses to read more than `maxEncodedLen(n)` bytes.
  - The buffered source is a class whose buffer survives from one reader to the next.
- **Validator API helpers** (`validator_utils.dfy`): the attestation subnet of a committee, the
  pubkeys of a list of validator indices, and the choice between an engine block and a builder
  block.
- **The pubkey caches** (`pubkey_cache.dfy`): `syncPubkeys` extends the pubkey → index map and the
  index → public key array to a new validator list.
- **BLS verifier jobs** (`job_item.dfy`): counting the signature sets of a job, and splitting a
  same-message job into one job per pair.
- **The attester-slashing repository** (`attester_slashing.dfy`): `hasAll`.

Everything the code receives from outside is a parameter, except the preset constants, which are those of mainnet:

- for the blob retrieval, the blocks and sidecars a peer returns, the engine's answer, and the
  blobs other tasks store into `blobsCache` while a request is awaited (`Answers`);
- hashing, KZG and configuration (the fields of `Env`);
- for the reader, the varint codec and the decompressor (the fields of `Codec`).

Each method returns or records the requests it makes, in order. Stateful objects are classes:

- the block's `CachedData`, with its `blobsCache` and the `resolveAvailability` calls made;
- `OrderedMap` and `OrderedSet`;
- `BufferedSource`;
- the two pubkey tables.

Each method over them is proved equal to a function of the old state. The properties are proved
about those functions.

## Model

| member | source | states |
|---|---|---|
| BlobsByRoot.UnavailableBeaconBlobsByRoot | packages/beacon-node/src/network/reqresp/beaconBlocksMaybeBlobsByRoot.ts:65-267 | Returns an input untouched, with no request and no cache change, when it has its block and is not waiting for data. Otherwise its result, its requests, the block's blob cache, the availability calls and both process-wide caches are those of `Unavailable` on the old state. Both caches stay well formed. |
| BlobsByRoot.ResolveKnownBlock | packages/beacon-node/src/network/reqresp/beaconBlocksMaybeBlobsByRoot.ts:99-266 | Resolving a known block checks the retry tracker, adding the root on a first attempt, then classifies, merges and completes. The whole new state is `ResolveBlock` of the old one. |
| BlobsByRoot.ClassifyMissing | packages/beacon-node/src/network/reqresp/beaconBlocksMaybeBlobsByRoot.ts:123-153 | The classification loop leaves the blob cache, the engine request list and the network request list equal to `Classify` of the old cache. |
| BlobsByRoot.MergeEngineAnswer | packages/beacon-node/src/network/reqresp/beaconBlocksMaybeBlobsByRoot.ts:163-197 | The loop over the engine's answers leaves the blob cache and network list equal to `MergeUpTo`, and the getBlobs cache equal to `RecordUpTo` of its old state. |
| BlobsByRoot.MergeAndComplete | packages/beacon-node/src/network/reqresp/beaconBlocksMaybeBlobsByRoot.ts:155-220 | After the classification the code always calls getBlobs (a failed call counts as all `null`), adds what arrived meanwhile, merges, and trims both caches. The outcome is `AfterClassify`. |
| BlobsByRoot.PruneMap | packages/beacon-node/src/network/reqresp/beaconBlocksMaybeBlobsByRoot.ts:199-209 | Deleting keys in `keys()` order while `max(0, size - 512)` remain to go leaves the map `MapPruned` and well formed. |
| BlobsByRoot.PruneSet | packages/beacon-node/src/network/reqresp/beaconBlocksMaybeBlobsByRoot.ts:210-220 | Trims the retry tracker in the same way, to `SetPruned`. |
| BlobsByRoot.FetchAndComplete | packages/beacon-node/src/network/reqresp/beaconBlocksMaybeBlobsByRoot.ts:222-266 | Sorts the remaining identifiers and makes the network request only when there are any. Stores the sidecars and completes. The outcome is `AfterMerge`. |
| BlobsByRoot.StoreSidecars | packages/beacon-node/src/network/reqresp/beaconBlocksMaybeBlobsByRoot.ts:243-245 | The store loop leaves the blob cache equal to `InsertSidecars` and records no availability call. |
| BlobsByRoot.CompleteAvailability | packages/beacon-node/src/network/reqresp/beaconBlocksMaybeBlobsByRoot.ts:249-266 | Resolves availability once, and returns the available block input, exactly when `getBlockInputBlobs` gives one blob per commitment. Otherwise it returns the error, with the count of missing blobs, and resolves nothing. |
| BlobsByRoot.CachedDataOf | packages/beacon-node/src/network/reqresp/beaconBlocksMaybeBlobsByRoot.ts:78-97 | An input has no shared blob state to write exactly when it is handed back unchanged. |
| BlobsByRoot.SortByIndexProperties | packages/beacon-node/src/network/reqresp/beaconBlocksMaybeBlobsByRoot.ts:223 | The sort by index yields a permutation (same multiset) of the identifiers, sorted by index. |
| BlobsByRoot.InsertByIndexProperties | packages/beacon-node/src/network/reqresp/beaconBlocksMaybeBlobsByRoot.ts:223 | Inserting into a sorted list adds exactly the element and keeps the list sorted. |
| BlobsByRoot.RecordKeepsWellFormed | packages/beacon-node/src/network/reqresp/beaconBlocksMaybeBlobsByRoot.ts:166 | Saving the engine responses keeps the getBlobs cache a well-formed insertion-ordered map. |
| BlobsByRoot.BeaconBlocksMaybeBlobsByRoot | packages/beacon-node/src/network/reqresp/beaconBlocksMaybeBlobsByRoot.ts:30-63 | Fetches the blocks, then asks for the sidecars only when some identifier exists, the identifiers being those of `BulkIdentifiers`. Both answers go to `matchBlockWithBlobs`, with no sidecars when none were asked. |
| BlobsByRootProperties.ClassifyKeepsCache | packages/beacon-node/src/network/reqresp/beaconBlocksMaybeBlobsByRoot.ts:123-153 | The classification keeps every entry already present. Every entry it adds is at a missing index whose hash has a non-null blob in the getBlobs cache, on a first attempt. |
| BlobsByRootProperties.ClassifyRebuilds | packages/beacon-node/src/network/reqresp/beaconBlocksMaybeBlobsByRoot.ts:129-141 | Every such index holds the sidecar rebuilt from that blob and proof, with the block's header and inclusion proof. |
| BlobsByRootProperties.ClassifyEngine | packages/beacon-node/src/network/reqresp/beaconBlocksMaybeBlobsByRoot.ts:145-149 | The engine is asked, in increasing index order, about exactly the indices that are missing, on a first attempt, and absent from the getBlobs cache. |
| BlobsByRootProperties.ClassifyNetwork | packages/beacon-node/src/network/reqresp/beaconBlocksMaybeBlobsByRoot.ts:129-144 | The network is asked, in increasing index order, for exactly the missing indices whose cached answer is `null` or that are on a retry. |
| BlobsByRootProperties.ClassifyPartitions | packages/beacon-node/src/network/reqresp/beaconBlocksMaybeBlobsByRoot.ts:123-153 | Every blob index of the block ends in exactly one of three places: the cache, the engine request or the network request. |
| BlobsByRootProperties.RetryGoesToNetwork | packages/beacon-node/src/network/reqresp/beaconBlocksMaybeBlobsByRoot.ts:129-144 | On a retry, nothing is rebuilt and the engine is asked nothing. Every missing index goes to the network. |
| BlobsByRootProperties.MergeCoversAsked | packages/beacon-node/src/network/reqresp/beaconBlocksMaybeBlobsByRoot.ts:163-197 | After the merge, every index the engine was asked about is in the cache or in the network request. An answered one is in the cache. |
| BlobsByRootProperties.MergeAppendsUnanswered | packages/beacon-node/src/network/reqresp/beaconBlocksMaybeBlobsByRoot.ts:188-196 | The merge only appends to the network request. Each identifier it appends belongs to an index the engine gave no blob for. |
| BlobsByRootProperties.MergeStoresEngineBlobs | packages/beacon-node/src/network/reqresp/beaconBlocksMaybeBlobsByRoot.ts:167-181 | With the engine indices increasing, an answered index that was still missing holds the sidecar rebuilt from the engine's blob and proof. |
| BlobsByRootProperties.MergeKeepsCache | packages/beacon-node/src/network/reqresp/beaconBlocksMaybeBlobsByRoot.ts:170-185 | The merge never overwrites an index already in the blob cache: every entry present before it is there afterwards with the same value. |
| BlobsByRootProperties.EngineFailureFallsBackToNetwork | packages/beacon-node/src/network/reqresp/beaconBlocksMaybeBlobsByRoot.ts:158-161 | A failed getBlobs call rebuilds nothing: the cache is unchanged and every still-missing asked index goes to the network. |
| BlobsByRootProperties.RecordProperties | packages/beacon-node/src/network/reqresp/beaconBlocksMaybeBlobsByRoot.ts:163-166 | Recording keeps the older keys first, in order, and adds at most one key per asked hash. Every asked hash becomes a key holding the last answer (or `null`) given for it. Other hashes are left alone, and every asked hash holds `null` when the call failed. |
| BlobsByRootProperties.RecordWithinCap | packages/beacon-node/src/network/reqresp/beaconBlocksMaybeBlobsByRoot.ts:199-209 | A getBlobs cache that stays within 512 keys after recording is not trimmed. |
| BlobsByRootProperties.InsertSidecarsLastWins | packages/beacon-node/src/network/reqresp/beaconBlocksMaybeBlobsByRoot.ts:243-245 | Each stored sidecar is keyed by its own index, and the last sidecar with a given index wins. |
| BlobsByRootProperties.InsertSidecarsKeepsOthers | packages/beacon-node/src/network/reqresp/beaconBlocksMaybeBlobsByRoot.ts:243-245 | An index that no stored sidecar carries keeps its previous entry, or stays absent. |
| BlobsByRootProperties.ResolveBlockKeepsCachesBounded | packages/beacon-node/src/network/reqresp/beaconBlocksMaybeBlobsByRoot.ts:105-220 | Both process-wide caches stay well formed, with at most 512 getBlobs entries and 32 tracked roots. The block's root is tracked afterwards, provided the tracker was within its bound before. |
| BlobsByRootProperties.ResolveBlockResolvesOnlyWhenComplete | packages/beacon-node/src/network/reqresp/beaconBlocksMaybeBlobsByRoot.ts:249-266 | Availability is resolved exactly when one blob per commitment is collected, and then once, with that data and the by-root source. Otherwise the error names the missing count and nothing is resolved. |
| BlobsByRootProperties.ResolveBlockCalls | packages/beacon-node/src/network/reqresp/beaconBlocksMaybeBlobsByRoot.ts:155-238 | The engine is always asked first, with the Deneb method, for the hashes of exactly the indices routed to it. A second request, if any, asks the network for a non-empty list sorted by index. |
| BlobsByRootProperties.EngineHashesAreRouted | packages/beacon-node/src/network/reqresp/beaconBlocksMaybeBlobsByRoot.ts:145-155 | A hash is in the getBlobs request if and only if some index routed to the engine carries it. |
| BlobsByRootProperties.RetrySendsEmptyGetBlobs | packages/beacon-node/src/network/reqresp/beaconBlocksMaybeBlobsByRoot.ts:142-158 | A retry still calls getBlobs, with an empty hash list. The getBlobs cache is then only trimmed, with no new entry. |
| BlobsByRootProperties.UnavailableFetchesTheBlockFirst | packages/beacon-node/src/network/reqresp/beaconBlocksMaybeBlobsByRoot.ts:78-97 | A settled input is returned as it is, with no request. A root-only input first fetches its block by root, and fails with nothing changed when no block comes back. |
| BlobsByRootProperties.FiveBlobScenarioRequests | packages/beacon-node/src/network/reqresp/beaconBlocksMaybeBlobsByRoot.ts:123-245 | A worked case with five blobs. The getBlobs cache holds blob 2 and a `null` for 3; the engine answers 0 and 1 but not 4; the network returns 3 and 4. The engine is asked for 0, 1 and 4 and the network for 3 and 4, and the cache ends with all five. |
| BlobsByRootProperties.FiveBlobScenarioCaches | packages/beacon-node/src/network/reqresp/beaconBlocksMaybeBlobsByRoot.ts:105-220 | In the same case, the getBlobs cache records the three engine answers after its two older keys, and the tracker holds the block root. |
| BlobsByRootProperties.ShortScenarioCalls | packages/beacon-node/src/network/reqresp/beaconBlocksMaybeBlobsByRoot.ts:123-245 | The same case when the network returns sidecar 3 only: the same two requests are made. |
| BlobsByRootProperties.ShortScenarioBlobs | packages/beacon-node/src/network/reqresp/beaconBlocksMaybeBlobsByRoot.ts:123-245 | In that case the cache ends with exactly the indices 0 to 3: 0 to 2 rebuilt, 3 as received. |
| BlobsByRootProperties.ShortScenarioFails | packages/beacon-node/src/network/reqresp/beaconBlocksMaybeBlobsByRoot.ts:243-253 | In that case, when `getBlockInputBlobs` collects four blobs the call fails with one blob missing. When it throws the call fails too. Whenever it does not collect five, nothing is resolved. |
| BlobsByRootProperties.BulkIdentifiersMembership | packages/beacon-node/src/network/reqresp/beaconBlocksMaybeBlobsByRoot.ts:39-51 | An identifier is requested if and only if it is among the identifiers of one of the returned blocks. |
| BlobsByRootProperties.BlockIdentifiersMembership | packages/beacon-node/src/network/reqresp/beaconBlocksMaybeBlobsByRoot.ts:39-51 | A block's identifiers are exactly `(its root, i)` for `i` below its commitment count, and only from Deneb on. |
| BlobsByRootProperties.BulkIdentifiersAppend | packages/beacon-node/src/network/reqresp/beaconBlocksMaybeBlobsByRoot.ts:39-51 | The identifiers keep block order: those of earlier blocks come first. |
| BlobsByRootProperties.PreDenebBlocksNeedNoBlobs | packages/beacon-node/src/network/reqresp/beaconBlocksMaybeBlobsByRoot.ts:44-58 | With only pre-Deneb blocks no identifier is built, so no sidecar request is made. |
| BlobTypes.CachedData.ResolveAvailability | packages/beacon-node/src/network/reqresp/beaconBlocksMaybeBlobsByRoot.ts:255 | Records one availability resolution and leaves the blob cache alone. |
| InsertionOrdered.OrderedMap.Set | packages/beacon-node/src/network/reqresp/beaconBlocksMaybeBlobsByRoot.ts:166 | `Map.set` is `MapSet`: a new key is appended to the order, an existing one keeps its place. A well-formed map stays well formed. |
| InsertionOrdered.OrderedMap.Delete | packages/beacon-node/src/network/reqresp/beaconBlocksMaybeBlobsByRoot.ts:204 | `Map.delete` removes the key from the order and the entries. A well-formed map stays well formed. |
| InsertionOrdered.OrderedSet.Add | packages/beacon-node/src/network/reqresp/beaconBlocksMaybeBlobsByRoot.ts:110 | `Set.add` appends only a new element. Distinct elements stay distinct. |
| InsertionOrdered.OrderedSet.Delete | packages/beacon-node/src/network/reqresp/beaconBlocksMaybeBlobsByRoot.ts:215 | `Set.delete` removes the element wherever it is, keeping the others in order. Distinct elements stay distinct. |
| InsertionOrdered.WithoutKeepsDistinct | packages/beacon-node/src/network/reqresp/beaconBlocksMaybeBlobsByRoot.ts:204 | Removing a key from distinct keys leaves them distinct. |
| InsertionOrdered.MapDeleteProperties | packages/beacon-node/src/network/reqresp/beaconBlocksMaybeBlobsByRoot.ts:204 | `delete` keeps a map well formed and removes exactly the key; every other entry keeps its value. |
| InsertionOrdered.MapSetProperties | packages/beacon-node/src/network/reqresp/beaconBlocksMaybeBlobsByRoot.ts:166 | `set` keeps the map well formed and writes exactly its key. It appends the key to the order only when the key is new. |
| InsertionOrdered.MapPrunedProperties | packages/beacon-node/src/network/reqresp/beaconBlocksMaybeBlobsByRoot.ts:199-209 | Trimming keeps the map well formed with at most `cap` entries. It deletes exactly the `max(0, size - cap)` oldest keys, and every other entry survives with its value. |
| InsertionOrdered.MapPrunedUnderCap | packages/beacon-node/src/network/reqresp/beaconBlocksMaybeBlobsByRoot.ts:201-203 | A map within its cap is left as it is. |
| InsertionOrdered.SetPrunedProperties | packages/beacon-node/src/network/reqresp/beaconBlocksMaybeBlobsByRoot.ts:210-220 | A trimmed set stays distinct, with at most `cap` elements: the newest ones, in order. |
| InsertionOrdered.SetAddProperties | packages/beacon-node/src/network/reqresp/beaconBlocksMaybeBlobsByRoot.ts:110 | Adding keeps the elements distinct and contains the element. A new one becomes the newest. |
| InsertionOrdered.NewestSurvivesPrune | packages/beacon-node/src/network/reqresp/beaconBlocksMaybeBlobsByRoot.ts:210-220 | The newest tracked root survives any trim to a positive size. |
| InsertionOrdered.PruneCount | packages/beacon-node/src/network/reqresp/beaconBlocksMaybeBlobsByRoot.ts:201-212 | `Math.max(0, size - cap)` never exceeds the size, and leaves `min(size, cap)` keys. |
| SszSnappyDecode.ReadSszSnappyPayload | packages/reqresp/src/encodingStrategies/sszSnappy/decode.ts:18-22 | The result and the source left behind are those of `PayloadFrom`: the header, then the body on what the header left. |
| SszSnappyDecode.ReadSszSnappyHeader | packages/reqresp/src/encodingStrategies/sszSnappy/decode.ts:28-61 | The loop's result and the source it leaves are `HeaderFrom` of the old source state. |
| SszSnappyDecode.ReadSszSnappyBody | packages/reqresp/src/encodingStrategies/sszSnappy/decode.ts:67-111 | The loop's result and the source it leaves are `BodyFrom` of the old source state, with a fresh decompressor. |
| SszSnappyDecode.HeaderSkipsEmptyChunks | packages/reqresp/src/encodingStrategies/sszSnappy/decode.ts:29-60 | The header reader passes over empty buffers and decodes the first non-empty one. It is `SOURCE_ABORTED` when the source ends first. |
| SszSnappyDecode.HeaderResult | packages/reqresp/src/encodingStrategies/sszSnappy/decode.ts:36-57 | A header read succeeds only with a length within the type's bounds. It then consumes exactly the varint's encoding length from the buffer it decoded. |
| SszSnappyDecode.HeaderErrors | packages/reqresp/src/encodingStrategies/sszSnappy/decode.ts:36-60 | The four header errors, each exactly under its condition, checked in the code's order. |
| SszSnappyDecode.BodyIsTheDecompressedStream | packages/reqresp/src/encodingStrategies/sszSnappy/decode.ts:84-106 | A successful body has exactly the declared length. It is the output of the decompressor over the chunks it was fed, in order. |
| SszSnappyDecode.BodyErrors | packages/reqresp/src/encodingStrategies/sszSnappy/decode.ts:72-110 | How a body read fails. Too many bytes: the output crosses `n` with the last chunk fed and was within `n` (below it once a chunk was fed) before it. Decompressor error: `uncompress` threw on the buffer handed over last, and no chunk was counted as fed for it. Source aborted: nothing is pending. In the last two cases the output so far is within `n`, and below it once a chunk was fed. |
| SszSnappyDecode.BodyReadsAtMostMaxEncodedLen | packages/reqresp/src/encodingStrategies/sszSnappy/decode.ts:72-77 | A successful body read pulled at most `maxEncodedLen(n)` bytes, counting the bytes already buffered. It takes chunks only from the front of the source. |
| SszSnappyDecode.TooMuchInputIsRefusedFirst | packages/reqresp/src/encodingStrategies/sszSnappy/decode.ts:74-77 | Once the count passes `maxEncodedLen(n)`, the reader fails with `TOO_MUCH_BYTES_READ` before decompressing. |
| SszSnappyDecode.PayloadWithinTypeBounds | packages/reqresp/src/encodingStrategies/sszSnappy/decode.ts:18-55 | A successful payload's length is within the type's SSZ bounds. |
| SszSnappyDecode.BufferedSource.Next | packages/reqresp/src/encodingStrategies/sszSnappy/decode.ts:29-33 | One iterator step: the first step of an iterator hands out bytes left unconsumed. Otherwise it appends the next chunk, or ends the source. |
| SszSnappyDecode.BufferedSource.Consume | packages/reqresp/src/encodingStrategies/sszSnappy/decode.ts:45 | Drops the first `n` buffered bytes. |
| ValidatorUtils.ComputeSubnetForCommitteesAtSlot | packages/beacon-node/src/api/impl/validator/utils.ts:8-16 | The subnet is below 64 and equals `compute_subnet_for_attestation` of the phase0 validator guide. |
| ValidatorUtils.SubnetsOfOneSlotAreDistinct | packages/beacon-node/src/api/impl/validator/utils.ts:8-16 | With at most 64 committees per slot, two committees of one slot never share a subnet. |
| ValidatorUtils.SubnetRepeatsEveryEpoch | packages/beacon-node/src/api/impl/validator/utils.ts:13-15 | The subnet depends on the slot only through its position in the epoch. |
| ValidatorUtils.GetPubkeysForIndices | packages/beacon-node/src/api/impl/validator/utils.ts:27-46 | Succeeds if and only if every index is below the validator count, returning the pubkeys in order. Otherwise it fails with the first index that is too high. |
| ValidatorUtils.FixedPoliciesIgnoreValues | packages/beacon-node/src/api/impl/validator/utils.ts:59-83 | The execution and builder policies ignore the values and the boost, and pick their own source as preferred. |
| ValidatorUtils.BoostedComparison | packages/beacon-node/src/api/impl/validator/utils.ts:64-78 | For Default and MaxProfit with a boost between 0 and 2^64-1 exclusive, the engine wins exactly when `engine >= floor(builder * boost / 100)`. |
| ValidatorUtils.BoostExtremesDecideAlone | packages/beacon-node/src/api/impl/validator/utils.ts:64-72 | For Default and MaxProfit, a boost of 0 picks the engine as preferred and a boost of 2^64-1 the builder as preferred, whatever the values. The preferred reasons arise for exactly those two boosts. |
| ValidatorUtils.UnboostedPicksHigherValue | packages/beacon-node/src/api/impl/validator/utils.ts:74-78 | With a boost of 100, the higher value wins and the engine wins ties. |
| ValidatorUtils.EngineChoiceMonotone | packages/beacon-node/src/api/impl/validator/utils.ts:59-84 | Raising the engine block value never turns an engine choice into a builder choice. |
| PubkeyCache.SyncPubkeys | packages/state-transition/src/cache/pubkeyCache.ts:14-33 | Fails with both sizes, changing nothing, when the tables are out of step. Otherwise the array takes the validator count as its length and holds `fromBytes(pubkey)` from the old size on. Lower slots are kept, and the map is `Registered` from the old size. |
| PubkeyCache.RegisterFrom | packages/state-transition/src/cache/pubkeyCache.ts:25-32 | The registration loop writes every validator from `start` on into both tables, in index order. |
| PubkeyCache.PubkeyIndexMap.Set | packages/state-transition/src/cache/pubkeyCache.ts:27 | `pubkey2index.set` maps the pubkey to the index and leaves every other pubkey as it was. |
| PubkeyCache.Index2PubkeyCache.Put | packages/state-transition/src/cache/pubkeyCache.ts:31 | Writing slot `i` of the array stores that public key there and leaves every other slot as it was. |
| PubkeyCache.Index2PubkeyCache.SetLength | packages/state-transition/src/cache/pubkeyCache.ts:24 | Assigning `length` truncates, or extends with holes, and keeps the slots below both lengths. |
| PubkeyCache.RegisteredKeys | packages/state-transition/src/cache/pubkeyCache.ts:25-32 | Registering adds exactly the registered validators' pubkeys as keys. |
| PubkeyCache.RegisteredLookup | packages/state-transition/src/cache/pubkeyCache.ts:25-32 | Each registered pubkey maps to the last index carrying it. Unrelated keys keep their values. |
| PubkeyCache.RegisteredSize | packages/state-transition/src/cache/pubkeyCache.ts:19-32 | When every registration brings a new key, the map grows by exactly the number registered. |
| PubkeyCache.SyncKeepsTablesInStep | packages/state-transition/src/cache/pubkeyCache.ts:19-32 | After a sync over fresh, pairwise different pubkeys, both tables have the validator count as size, so the next sync's check passes. |
| JobItem.SplitCountsEverySet | packages/beacon-node/src/chain/bls/multithread/jobItem.ts:38-45 | Single-set default jobs count one set each in `jobItemSigSets`, so jobs of one set each count as many sets as there are jobs. |
| JobItem.JobItemSameMessageToMultiSet | packages/beacon-node/src/chain/bls/multithread/jobItem.ts:85-117 | Gives one job per pair, in order. Each keeps the added time and priority, is not batchable, and holds exactly one single set over the original message. The result is exactly `RetryJob` over each pair, so no job pins a thread. The jobs count as many signature sets as there were pairs. |
| AttesterSlashingRepository.HasAll | packages/beacon-node/src/db/repositories/attesterSlashing.ts:18-31 | True if and only if every requested index attests in some stored slashing, in either attestation. An empty request is true, and no stored slashings with a non-empty request is false. |
| AttesterSlashingRepository.CoveredExtend | packages/beacon-node/src/db/repositories/attesterSlashing.ts:21-24 | Collecting one more slashing adds exactly the indices of its two attestations. |
| AttesterSlashingRepository.CoversAllDependsOnlyOnTheSet | packages/beacon-node/src/db/repositories/attesterSlashing.ts:25-30 | The answer depends only on which indices are requested, not on their order or repetitions. |

## Left out

- Metrics: every `metrics?.…` call is left out, since none of them affects the result or the caches.
- Peers, the transport and `async`/`await`. The network and engine answers are parameters. The
  interleaving with other tasks is modelled only as the blobs stored into `blobsCache` during the
  two awaits.
- Cryptography, SSZ hashing and configuration, which are fields of `Env`:
  - `hashTreeRoot`, `kzgCommitmentToVersionedHash`, `computeInclusionProof` and
    `signedBlockToSignedHeader`;
  - `getForkName`.
  Hex-string keys (`toHexString`) are modelled by the bytes they encode, because the encoding is
  injective.
- `getBlockInputBlobs` and `matchBlockWithBlobs` are defined elsewhere and appear as `Env` fields.
  A throw of `getBlockInputBlobs` is `BlobsNotCollected`.
- `BlobsByRoot.UnavailableBeaconBlobsByRoot`: `allBlocks[0]` of an empty peer answer would throw a
  `TypeError`. It is modelled as the error `NoBlockReturned`. The root of the fetched block is not
  compared with the requested one, as in the code.
- The `BufferedSource` class of `packages/reqresp/src/utils` is not part of this
  model. Its behaviour is modelled from how the two readers use it:
  - a new iterator first hands out the unconsumed buffer;
  - each later step appends one chunk.
- The Snappy frame decompressor, the varint decoder, `encodingLength` and `maxEncodedLen` are
  defined elsewhere and are fields of `Codec`. The decompressor sees the chunks it was fed
  before, so it may keep state.
- `SszSnappyDecode.ReadSszSnappyHeader`: `MAX_VARINT_BYTES` is declared but not used by the
  reader, so no contract mentions it.
- JavaScript number precision is not modelled:
  - `ValidatorUtils.ComputeSubnetForCommitteesAtSlot` computes on unbounded naturals; slots and
    committee counts stay far below 2^53.
- `ValidatorUtils.ComputeSubnetForCommitteesAtSlot`: only the mainnet preset is modelled
  (`SLOTS_PER_EPOCH` 32, `MAX_COMMITTEES_PER_SLOT` 64, `ATTESTATION_SUBNET_COUNT` 64). The minimal
  preset's 8 slots per epoch and 4 committees per slot are not.
  - The bigints of `selectBlockProductionSource` are already unbounded. Their division truncates
    toward zero, which `BigIntDiv` writes out.
- `PubkeyCache.SyncPubkeys`: public-key deserialization (`PublicKey.fromBytes`) is a
  caller-supplied function and is never validated, as the code says. The 48-byte key length is not
  modelled.
- `JobItem.JobItemSameMessageToMultiSet`: the `resolve`/`reject` callbacks, the promises and
  `Promise.all` are not modelled. A `LinkedList` is a sequence.
- `JobItem.JobItemSigSets` is a plain function with no contract of its own. What it counts is
  stated through `SplitCountsEverySet` and `JobItemSameMessageToMultiSet`.
- `jobItemWorkReq` aggregates keys and signatures; BLS arithmetic is out of scope.
- `AttesterSlashingRepository.HasAll`: the database read (`values()`) is the input list.
- The rest of Lodestar: chain, sync, API server and database engines.

## Code and design notes

These are places where the code behaves differently from a plain reading of its intent. The
model follows the code.

- `executionEngine.getBlobs` is called even when no hash is routed to the engine, for example on
  a retry or when every blob is already known (line 158 is unconditional).
- Both process-wide caches are trimmed before the network request, not after it.
- A root is added to the retry tracker only on the first attempt. `Set.add` of a present key
  would not change the order anyway.
- The engine's answer may be shorter than the request. A missing answer counts as `null`
  (line 164).
