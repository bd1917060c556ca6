/**
  The two pubkey tables of the state caches: pubkey -> validator index, and validator index ->
  deserialized public key. `SyncPubkeys` appends the validators that joined since the last call.
*/
module PubkeyCache {
  import opened Results
  import opened Types

  /** Pubkey -> validator index. */
  class PubkeyIndexMap {
    var entries: map<BLSPubkey, ValidatorIndex>

    constructor ()
      ensures entries == map[]
    {
      entries := map[];
    }

    function Size(): nat
      reads this
    {
      |entries|
    }

    function Get(pubkey: BLSPubkey): Option<ValidatorIndex>
      reads this
    {
      if pubkey in entries then Some(entries[pubkey]) else None
    }

    method Set(pubkey: BLSPubkey, index: ValidatorIndex)
      modifies this
      ensures entries == old(entries)[pubkey := index]
    {
      entries := entries[pubkey := index];
    }
  }

  /**
    Validator index -> public key, a JavaScript array. `None` stands for a hole, the slot an
    assignment to `length` creates when it grows the array.
  */
  class Index2PubkeyCache {
    var slots: seq<Option<PublicKey>>

    constructor ()
      ensures slots == []
    {
      slots := [];
    }

    function Length(): nat
      reads this
    {
      |slots|
    }

    /** `array.length = n`: truncates, or extends with holes. */
    method SetLength(n: nat)
      modifies this
      ensures |slots| == n
      ensures forall i :: 0 <= i < n && i < |old(slots)| ==> slots[i] == old(slots)[i]
      ensures forall i :: |old(slots)| <= i < n ==> slots[i] == None
    {
      if n <= |slots| {
        slots := slots[..n];
      } else {
        slots := slots + seq(n - |slots|, _ => None);
      }
    }

    method Put(index: ValidatorIndex, pubkey: PublicKey)
      requires index < |slots|
      modifies this
      ensures slots == old(slots)[index := Some(pubkey)]
    {
      slots := slots[index := Some(pubkey)];
    }
  }

  datatype SyncError = PubkeyIndicesOutOfSync(mapSize: nat, arrayLength: nat)

  /** `m` after `m.set(validators[i].pubkey, i)` for i = lo, ..., hi - 1, in that order. */
  function Registered(m: map<BLSPubkey, ValidatorIndex>, validators: seq<Validator>, lo: nat, hi: nat)
    : map<BLSPubkey, ValidatorIndex>
    requires hi <= |validators|
    decreases hi
  {
    if hi <= lo then m else Registered(m, validators, lo, hi - 1)[validators[hi - 1].pubkey := hi - 1]
  }

  /** The pubkeys of `validators[lo..hi]` are pairwise different and none is a key of `m`. */
  ghost predicate FreshPubkeys(m: map<BLSPubkey, ValidatorIndex>, validators: seq<Validator>, lo: nat, hi: nat)
    requires hi <= |validators|
  {
    && (forall i :: lo <= i < hi ==> validators[i].pubkey !in m)
    && (forall i, j :: lo <= i < j < hi ==> validators[i].pubkey != validators[j].pubkey)
  }

  /** Registering validators lo..hi-1 adds exactly their pubkeys as keys. */
  lemma {:induction false} RegisteredKeys(m: map<BLSPubkey, ValidatorIndex>, validators: seq<Validator>, lo: nat, hi: nat)
    requires hi <= |validators|
    ensures forall k :: k in Registered(m, validators, lo, hi)
              <==> k in m || exists i :: lo <= i < hi && validators[i].pubkey == k
    decreases hi
  {
    if hi > lo {
      RegisteredKeys(m, validators, lo, hi - 1);
    }
  }

  /**
    Each registered pubkey maps to the LAST index in lo..hi-1 that carries it; the keys that no
    registered validator carries keep their values.
  */
  lemma {:induction false} RegisteredLookup(m: map<BLSPubkey, ValidatorIndex>, validators: seq<Validator>, lo: nat, hi: nat)
    requires hi <= |validators|
    ensures forall i :: lo <= i < hi && (forall j :: i < j < hi ==> validators[j].pubkey != validators[i].pubkey)
              ==> validators[i].pubkey in Registered(m, validators, lo, hi)
                  && Registered(m, validators, lo, hi)[validators[i].pubkey] == i
    ensures forall k :: k in m && (forall i :: lo <= i < hi ==> validators[i].pubkey != k)
              ==> k in Registered(m, validators, lo, hi) && Registered(m, validators, lo, hi)[k] == m[k]
    decreases hi
  {
    if hi > lo {
      RegisteredLookup(m, validators, lo, hi - 1);
    }
  }

  /** The pubkey of validator `i`. */
  function PubkeyAt(validators: seq<Validator>, i: nat): BLSPubkey
    requires i < |validators|
  {
    validators[i].pubkey
  }

  /** Each validator of lo..hi-1 brings a pubkey that is not yet a key when it is registered. */
  ghost predicate AddsNewKeys(m: map<BLSPubkey, ValidatorIndex>, validators: seq<Validator>, lo: nat, hi: nat)
    requires hi <= |validators|
  {
    forall i :: lo <= i < hi ==> PubkeyAt(validators, i) !in Registered(m, validators, lo, i)
  }

  /**
    The two tables stay in step: when every registration adds a new key, registering `hi - lo`
    validators grows the map by exactly that many keys.
  */
  lemma {:induction false} RegisteredSize(m: map<BLSPubkey, ValidatorIndex>, validators: seq<Validator>, lo: nat, hi: nat)
    requires lo <= hi <= |validators|
    requires AddsNewKeys(m, validators, lo, hi)
    ensures |Registered(m, validators, lo, hi)| == |m| + (hi - lo)
    decreases hi
  {
    if hi > lo {
      assert AddsNewKeys(m, validators, lo, hi - 1);
      RegisteredSize(m, validators, lo, hi - 1);
      assert PubkeyAt(validators, hi - 1) !in Registered(m, validators, lo, hi - 1);
    }
  }

  /** Fresh pubkeys (none in `m`, pairwise different) each add a new key. */
  lemma FreshPubkeysAddNewKeys(m: map<BLSPubkey, ValidatorIndex>, validators: seq<Validator>, lo: nat, hi: nat)
    requires lo <= hi <= |validators|
    requires FreshPubkeys(m, validators, lo, hi)
    ensures AddsNewKeys(m, validators, lo, hi)
  {
    forall i | lo <= i < hi
      ensures PubkeyAt(validators, i) !in Registered(m, validators, lo, i)
    {
      NotRegistered(m, validators, lo, i, validators[i].pubkey);
    }
  }

  /** A key that neither `m` nor any of the registered validators carries stays absent. */
  lemma {:induction false} NotRegistered(m: map<BLSPubkey, ValidatorIndex>, validators: seq<Validator>, lo: nat, hi: nat, k: BLSPubkey)
    requires hi <= |validators|
    requires k !in m && forall i :: lo <= i < hi ==> validators[i].pubkey != k
    ensures k !in Registered(m, validators, lo, hi)
    decreases hi
  {
    if hi > lo {
      NotRegistered(m, validators, lo, hi - 1, k);
    }
  }

  /**
    Checks that the two tables have the same size, then extends them to `validators`. Only
    validators at or above the old size are written; entries below it are kept as they were.
  */
  method SyncPubkeys(validators: seq<Validator>, pubkey2index: PubkeyIndexMap, index2pubkey: Index2PubkeyCache,
                     fromBytes: BLSPubkey -> PublicKey)
    returns (err: Option<SyncError>)
    modifies pubkey2index, index2pubkey
    ensures old(pubkey2index.Size()) != old(index2pubkey.Length()) ==>
              && err == Some(PubkeyIndicesOutOfSync(old(pubkey2index.Size()), old(index2pubkey.Length())))
              && unchanged(pubkey2index) && unchanged(index2pubkey)
    ensures old(pubkey2index.Size()) == old(index2pubkey.Length()) ==>
              && err == None
              && index2pubkey.Length() == |validators|
              && (forall i :: old(index2pubkey.Length()) <= i < |validators| ==>
                    index2pubkey.slots[i] == Some(fromBytes(validators[i].pubkey)))
              && (forall i :: 0 <= i < |validators| && i < old(index2pubkey.Length()) ==>
                    index2pubkey.slots[i] == old(index2pubkey.slots[i]))
              && pubkey2index.entries
                 == Registered(old(pubkey2index.entries), validators, old(pubkey2index.Size()), |validators|)
    ensures |validators| == old(index2pubkey.Length()) ==>
              pubkey2index.entries == old(pubkey2index.entries) && index2pubkey.slots == old(index2pubkey.slots)
  {
    if pubkey2index.Size() != index2pubkey.Length() {
      return Some(PubkeyIndicesOutOfSync(pubkey2index.Size(), index2pubkey.Length()));
    }

    var newCount := |validators|;
    index2pubkey.SetLength(newCount);
    RegisterFrom(validators, pubkey2index, index2pubkey, fromBytes, pubkey2index.Size());
    if newCount == old(index2pubkey.Length()) {
      assert index2pubkey.slots == old(index2pubkey.slots);
    }
    return None;
  }

  /** The loop of `SyncPubkeys`: registers validators `start ..` in both tables, in index order. */
  method RegisterFrom(validators: seq<Validator>, pubkey2index: PubkeyIndexMap, index2pubkey: Index2PubkeyCache,
                      fromBytes: BLSPubkey -> PublicKey, start: nat)
    requires |index2pubkey.slots| == |validators|
    modifies pubkey2index, index2pubkey
    ensures |index2pubkey.slots| == |validators|
    ensures forall k :: start <= k < |validators| ==> index2pubkey.slots[k] == Some(fromBytes(validators[k].pubkey))
    ensures forall k :: 0 <= k < |validators| && k < start ==> index2pubkey.slots[k] == old(index2pubkey.slots[k])
    ensures pubkey2index.entries == Registered(old(pubkey2index.entries), validators, start, |validators|)
  {
    var newCount := |validators|;
    if start < newCount {
      var i := start;
      while i < newCount
        invariant start <= i <= newCount
        invariant |index2pubkey.slots| == newCount
        invariant forall k :: start <= k < i ==> index2pubkey.slots[k] == Some(fromBytes(validators[k].pubkey))
        invariant forall k :: 0 <= k < newCount && k < start ==> index2pubkey.slots[k] == old(index2pubkey.slots[k])
        invariant pubkey2index.entries == Registered(old(pubkey2index.entries), validators, start, i)
      {
        var pubkey := validators[i].pubkey;
        pubkey2index.Set(pubkey, i);
        index2pubkey.Put(i, fromBytes(pubkey));
        i := i + 1;
      }
    }
  }

  /** After a successful sync over fresh pubkeys the two tables have the same size again. */
  lemma SyncKeepsTablesInStep(oldEntries: map<BLSPubkey, ValidatorIndex>, validators: seq<Validator>)
    requires |oldEntries| <= |validators|
    requires FreshPubkeys(oldEntries, validators, |oldEntries|, |validators|)
    ensures |Registered(oldEntries, validators, |oldEntries|, |validators|)| == |validators|
  {
    FreshPubkeysAddNewKeys(oldEntries, validators, |oldEntries|, |validators|);
    RegisteredSize(oldEntries, validators, |oldEntries|, |validators|);
  }
}
