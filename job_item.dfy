/**
  Jobs of the BLS verifier pool. A job either carries independent signature sets, or many
  (pubkey, signature) pairs over one message that the pool first tries as one aggregate; when that
  aggregate fails, the job is split into one single-set job per pair.
*/
module JobItem {
  import opened Results
  import opened Types

  datatype VerifySignatureOpts = VerifySignatureOpts(batchable: Option<bool>, verifyOnMainThread: Option<bool>, priority: Option<bool>)

  /** `ISignatureSet`: one pubkey, or pubkeys to aggregate, over a signing root. */
  datatype SignatureSet =
    | Single(pubkey: PublicKey, signingRoot: Bytes, signature: Bytes)
    | Aggregate(pubkeys: seq<PublicKey>, signingRoot: Bytes, signature: Bytes)

  datatype JobQueueItemDefault = JobQueueItemDefault(addedTimeMs: int, opts: VerifySignatureOpts, sets: seq<SignatureSet>)

  datatype PubkeySignature = PubkeySignature(publicKey: PublicKey, signature: Bytes)

  datatype JobQueueItemSameMessage =
    JobQueueItemSameMessage(addedTimeMs: int, opts: VerifySignatureOpts, sets: seq<PubkeySignature>, message: Bytes)

  datatype JobQueueItem = DefaultJob(job: JobQueueItemDefault) | SameMessageJob(sameMessage: JobQueueItemSameMessage)

  /** The number of signature sets a job puts into a worker request. */
  function JobItemSigSets(job: JobQueueItem): nat {
    match job
    case DefaultJob(j) => |j.sets|
    case SameMessageJob(_) => 1
  }

  /** The signature sets a list of default jobs puts into worker requests. */
  function TotalSigSets(jobs: seq<JobQueueItemDefault>): nat {
    if jobs == [] then 0 else TotalSigSets(jobs[..|jobs| - 1]) + JobItemSigSets(DefaultJob(jobs[|jobs| - 1]))
  }

  /** The job that retries one pair of a same-message job on its own. */
  function RetryJob(job: JobQueueItemSameMessage, pair: PubkeySignature): JobQueueItemDefault {
    JobQueueItemDefault(
      job.addedTimeMs,
      VerifySignatureOpts(Some(false), None, job.opts.priority),
      [Single(pair.publicKey, job.message, pair.signature)])
  }

  /**
    One default job per pair, in order. Each is not batchable, keeps the priority and the time the
    original was added, and verifies exactly one single set over the original message.
  */
  method JobItemSameMessageToMultiSet(job: JobQueueItemSameMessage) returns (jobs: seq<JobQueueItemDefault>)
    ensures |jobs| == |job.sets|
    ensures forall i :: 0 <= i < |jobs| ==>
              && jobs[i].addedTimeMs == job.addedTimeMs
              && jobs[i].opts.batchable == Some(false)
              && jobs[i].opts.priority == job.opts.priority
              && jobs[i].sets == [Single(job.sets[i].publicKey, job.message, job.sets[i].signature)]
              && JobItemSigSets(DefaultJob(jobs[i])) == 1
    ensures jobs == seq(|job.sets|, i requires 0 <= i < |job.sets| => RetryJob(job, job.sets[i]))
    ensures TotalSigSets(jobs) == |job.sets|
  {
    jobs := [];
    var k := 0;
    while k < |job.sets|
      invariant 0 <= k <= |job.sets|
      invariant jobs == seq(k, i requires 0 <= i < k => RetryJob(job, job.sets[i]))
      invariant TotalSigSets(jobs) == k
    {
      var pair := job.sets[k];
      jobs := jobs + [JobQueueItemDefault(
        job.addedTimeMs,
        VerifySignatureOpts(Some(false), None, job.opts.priority),
        [Single(pair.publicKey, job.message, pair.signature)])];
      assert jobs[..|jobs| - 1] == seq(k, i requires 0 <= i < k => RetryJob(job, job.sets[i]));
      k := k + 1;
    }
  }

  /** Splitting turns the one set a same-message job counts into one set per pair. */
  lemma {:induction false} SplitCountsEverySet(jobs: seq<JobQueueItemDefault>)
    requires forall i :: 0 <= i < |jobs| ==> |jobs[i].sets| == 1
    ensures TotalSigSets(jobs) == |jobs|
  {
    if jobs != [] {
      SplitCountsEverySet(jobs[..|jobs| - 1]);
    }
  }
}
