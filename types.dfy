/** Consensus types shared by several components. Cryptographic objects are opaque byte strings. */
module Types {

  type Bytes = seq<bv8>

  /** A compressed BLS public key (48 bytes on the wire; the length is not modelled). */
  type BLSPubkey = Bytes

  /** A deserialized BLS public key; `PublicKey.fromBytes` is a caller-supplied function. */
  datatype PublicKey = PublicKey(point: Bytes)

  type ValidatorIndex = nat

  /** The fields of a registry entry that the modelled code reads. */
  datatype Validator = Validator(pubkey: BLSPubkey, withdrawalCredentials: Bytes, effectiveBalance: nat, slashed: bool)
}
