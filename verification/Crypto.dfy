/**
 The cryptographic operations the repository calls, as a record of functions.  Nothing is known about
 them except where a lemma asks for one of the predicates below.
 */
module Crypto {
  import opened Prelude

  datatype VerifyingKey = VerifyingKey(point: Bytes)

  datatype SigningKey = SigningKey(seed: Bytes)

  /** Ed25519 and SHA-256.  `decodeSpki` is partial: most byte strings are not keys. */
  datatype Primitives = Primitives(
    decodeSpki: Bytes -> Option<VerifyingKey>,
    verify: (VerifyingKey, Bytes, Bytes) -> bool,
    sha256: Bytes -> Bytes,
    publicKey: SigningKey -> VerifyingKey,
    publicSpki: SigningKey -> Bytes,
    sign: (SigningKey, Bytes) -> Bytes)

  /** What one key pair owes its owner: its SPKI decodes to its public key, and its signatures verify. */
  ghost predicate SignsCorrectly(p: Primitives, sk: SigningKey) {
    && p.decodeSpki(p.publicSpki(sk)) == Some(p.publicKey(sk))
    && forall message: Bytes :: p.verify(p.publicKey(sk), message, p.sign(sk, message))
  }

  /** SHA-256 taken as collision free. */
  ghost predicate CollisionFree(p: Primitives) {
    forall x: Bytes, y: Bytes :: p.sha256(x) == p.sha256(y) ==> x == y
  }

  /** Ideal signatures: whatever verifies under `key` was signed by its owner, whose signed messages are `signed`. */
  ghost predicate Unforgeable(p: Primitives, key: VerifyingKey, signed: iset<Bytes>) {
    forall message: Bytes, signature: Bytes :: p.verify(key, message, signature) ==> message in signed
  }

  /** A key has one encoding: only its own SPKI bytes decode to it, as DER without options allows. */
  ghost predicate CanonicalSpki(p: Primitives, sk: SigningKey) {
    forall bytes: Bytes :: p.decodeSpki(bytes) == Some(p.publicKey(sk)) ==> bytes == p.publicSpki(sk)
  }
}
