/**
  The beacon chain values the blob resolution works on: blocks, blob sidecars, block inputs and
  the per-block blob cache. Hashing, KZG, inclusion proofs, headers and the two block-input
  helpers are the uninterpreted fields of an `Env`.
*/
module BlobTypes {
  import opened Results
  import opened Types

  type Root = Bytes
  /** An EIP-4844 versioned hash of a KZG commitment. */
  type VersionedHash = Bytes
  type KzgCommitment = Bytes
  type KzgProof = Bytes
  type Blob = Bytes

  datatype ForkName = Phase0 | Altair | Bellatrix | Capella | Deneb | Electra

  /** The order of the forks. */
  function ForkSeq(fork: ForkName): nat {
    match fork
    case Phase0 => 0
    case Altair => 1
    case Bellatrix => 2
    case Capella => 3
    case Deneb => 4
    case Electra => 5
  }

  /** The body fields that matter here; the others are kept as opaque bytes. */
  datatype BeaconBlockBody = BeaconBlockBody(blobKzgCommitments: seq<KzgCommitment>, otherFields: Bytes)

  datatype BeaconBlock = BeaconBlock(slot: nat, proposerIndex: nat, parentRoot: Root, stateRoot: Root, body: BeaconBlockBody)

  datatype SignedBeaconBlock = SignedBeaconBlock(message: BeaconBlock, signature: Bytes)

  datatype SignedBeaconBlockHeader =
    SignedBeaconBlockHeader(slot: nat, proposerIndex: nat, parentRoot: Root, stateRoot: Root, bodyRoot: Root, signature: Bytes)

  /** A block as it comes off the wire, with its serialized bytes. */
  datatype WithBytes = WithBytes(data: SignedBeaconBlock, bytes: Bytes)

  /** An entry of a `BlobSidecarsByRoot` request. */
  datatype BlobIdentifier = BlobIdentifier(blockRoot: Root, index: nat)

  datatype BlobSidecar = BlobSidecar(
    index: nat,
    blob: Blob,
    kzgCommitment: KzgCommitment,
    kzgProof: KzgProof,
    signedBlockHeader: SignedBeaconBlockHeader,
    kzgCommitmentInclusionProof: seq<Root>)

  /** An element of an `engine_getBlobsV1` response. */
  datatype BlobAndProof = BlobAndProof(blob: Blob, proof: KzgProof)

  /** A value of the per-block `blobsCache`, keyed by blob index. */
  datatype BlobCacheEntry = BlobCacheEntry(blobSidecar: BlobSidecar, blobBytes: Option<Bytes>)

  /** What `getBlockInputBlobs` collects from a `blobsCache`. */
  datatype BlockInputBlobs = BlockInputBlobs(blobs: seq<BlobSidecar>, blobsBytes: seq<Option<Bytes>>)

  datatype BlockSource = GossipBlock | ApiBlock | ByRangeBlock | ByRootBlock
  datatype BlobsSource = GossipBlobs | ApiBlobs | ByRangeBlobs | ByRootBlobs

  datatype BlockInputDataBlobs = BlockInputDataBlobs(
    fork: ForkName,
    blobs: seq<BlobSidecar>,
    blobsBytes: seq<Option<Bytes>>,
    blobsSource: BlobsSource)

  /**
    The shared state of a block whose blobs are still arriving: the blob cache that gossip, the
    API and the range/root sync all write into, and the `resolveAvailability` calls made so far.
  */
  class CachedData {
    const fork: ForkName
    var blobsCache: map<nat, BlobCacheEntry>
    var resolved: seq<BlockInputDataBlobs>

    constructor (fork: ForkName, blobsCache: map<nat, BlobCacheEntry>)
      ensures this.fork == fork && this.blobsCache == blobsCache && resolved == []
    {
      this.fork := fork;
      this.blobsCache := blobsCache;
      resolved := [];
    }

    /** `resolveAvailability(blockData)`, recorded as an event. */
    method ResolveAvailability(blockData: BlockInputDataBlobs)
      modifies this
      ensures resolved == old(resolved) + [blockData]
      ensures blobsCache == old(blobsCache)
    {
      resolved := resolved + [blockData];
    }
  }

  datatype BlockInputType =
    | PreData
    | AvailableData(blockData: BlockInputDataBlobs)
    | DataPromise(cachedData: CachedData)

  datatype BlockInput = BlockInput(block: SignedBeaconBlock, source: BlockSource, blockBytes: Option<Bytes>, kind: BlockInputType)

  /** A `BlockInput`, or a `NullBlockInput` that knows only the block root and the shared blob state. */
  datatype MaybeBlockInput =
    | Known(input: BlockInput)
    | NullBlockInput(blockRootHex: Root, cachedData: CachedData)

  /** The configuration, cryptography and helper functions the code calls but does not define. */
  datatype Env = Env(
    forkAt: nat -> ForkName,                               // config.getForkName(slot)
    hashTreeRoot: BeaconBlock -> Root,                     // BeaconBlock.hashTreeRoot of the slot's fork
    versionedHash: KzgCommitment -> VersionedHash,         // kzgCommitmentToVersionedHash
    inclusionProof: (ForkName, BeaconBlockBody, nat) -> seq<Root>,  // computeInclusionProof
    signedHeader: SignedBeaconBlock -> SignedBeaconBlockHeader,     // signedBlockToSignedHeader
    blockInputBlobs: map<nat, BlobCacheEntry> -> Option<BlockInputBlobs>,  // getBlockInputBlobs; None: it threw
    matchBlockWithBlobs: (seq<WithBytes>, seq<BlobSidecar>) -> seq<BlockInput>)
}
