/**
 * The credential hasher used for passwords, verification codes and refresh
 * tokens (`CryptoService.createHash` / `verifyHash`, which is not part of this
 * model). It is modelled by the two properties the engine relies on: a digest
 * is never the empty string, and different plaintexts have different digests.
 * One-wayness and salting are not modelled.
 */
module Crypto {

  /** The digest of `plain`: an injective tagging that stands for the real hash. */
  function Hash(plain: string): (digest: string)
    ensures digest != ""
  {
    "$" + plain
  }

  /** `verifyHash(digest, plain)`: does `plain` hash to `digest`? */
  predicate VerifyHash(digest: string, plain: string) {
    digest == Hash(plain)
  }

  /** Two plaintexts with the same digest are the same plaintext. */
  lemma {:induction false} HashInjective(a: string, b: string)
    requires Hash(a) == Hash(b)
    ensures a == b
  {
    assert a == Hash(a)[1..];
    assert b == Hash(b)[1..];
  }

  /** A stored digest accepts exactly the plaintext it was made from. */
  lemma VerifyHashExactlyPreimage(stored: string, presented: string)
    ensures VerifyHash(Hash(stored), presented) <==> presented == stored
  {
    if VerifyHash(Hash(stored), presented) {
      HashInjective(stored, presented);
    }
  }

  /** An empty digest (a cleared field) accepts no plaintext at all. */
  lemma EmptyDigestAcceptsNothing(presented: string)
    ensures !VerifyHash("", presented)
  {
  }
}
