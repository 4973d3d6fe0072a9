/**
 * Key wrapping (hsm-core/src/wrap.rs) with symbolic cryptography: key
 * derivation and sealing are free constructors, so a KEK is exactly its inputs
 * and a blob opens exactly under the KEK, nonce and associated data it was
 * sealed with.
 */
module Wrap {
  import opened Options

  type Secret = seq<int>
  type Salt = seq<int>
  type Seed = seq<int>
  type Nonce = seq<int>

  datatype Argon2Params = Argon2Params(mCost: nat, tCost: nat, parallelism: nat)

  datatype WrapType = DevWrap | PinWrap

  datatype PublicKey = PublicOf(seed: Seed)

  datatype Kek =
    | DevKek(secret: Secret)
    | PinKek(pin: string, salt: Salt, params: Argon2Params, secret: Secret)

  /** The ciphertext and tag, as the AEAD call that produced them. */
  datatype Sealed = Sealed(kek: Kek, nonce: Nonce, boundType: WrapType, boundKey: PublicKey, seed: Seed)

  datatype KeyBlob = KeyBlob(wrapType: WrapType, nonce: Nonce, pubkey: PublicKey, sealed: Sealed, salt: Salt)

  function WrapSeed(kek: Kek, seed: Seed, pubkey: PublicKey, wrapType: WrapType, salt: Salt, nonce: Nonce): KeyBlob {
    KeyBlob(wrapType, nonce, pubkey, Sealed(kek, nonce, wrapType, pubkey, seed), salt)
  }

  function UnwrapSeed(kek: Kek, blob: KeyBlob): Option<Seed> {
    if blob.sealed == Sealed(kek, blob.nonce, blob.wrapType, blob.pubkey, blob.sealed.seed)
    then Some(blob.sealed.seed)
    else None
  }

  /**
   * A wrapped seed opens under a PIN exactly when the PIN, the device secret
   * and the stored salt and parameters are the ones it was wrapped with; a
   * blob whose type, public key, nonce or salt was exchanged never opens.
   */
  lemma OpensOnlyUnderItsPin(pin: string, other: string, salt: Salt, params: Argon2Params, secret: Secret,
                             otherSecret: Secret, seed: Seed, nonce: Nonce, tampered: KeyBlob)
    ensures var blob := WrapSeed(PinKek(pin, salt, params, secret), seed, PublicOf(seed), PinWrap, salt, nonce);
            && UnwrapSeed(PinKek(other, blob.salt, params, otherSecret), blob)
               == (if other == pin && otherSecret == secret then Some(seed) else None)
            && UnwrapSeed(DevKek(otherSecret), blob) == None
            && (tampered.sealed == blob.sealed && tampered != blob
                ==> UnwrapSeed(PinKek(pin, tampered.salt, params, secret), tampered) == None)
  {
  }
}
