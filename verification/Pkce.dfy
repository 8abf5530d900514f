/** Check 1: the poller must hold the verifier behind the challenge (section 4.6 of RFC 7636). */
module Pkce {
  import opened Prelude
  import opened Encoding

  predicate VerifyClientPkce(sha256: Hash, verifier: string, challenge: string) {
    verifier != "" && challenge != "" && Encode(sha256(verifier)) == challenge
  }

  /** Against a challenge that encodes a digest, exactly the non-empty preimages of it pass. */
  lemma PkceAgreement(sha256: Hash, verifier: string, digest: Digest)
    ensures VerifyClientPkce(sha256, verifier, Encode(digest))
       <==> verifier != "" && sha256(verifier) == digest
  {
    EncodedText(digest);
    EncodeInjective(sha256(verifier), digest);
  }

  /** The client's pair, from 32 random bytes. The broker accepts it, the verifier is well formed
      by section 4.1 of RFC 7636, and it determines the random bytes it was made from. */
  method NewPkcePair(sha256: Hash, raw: seq<Byte>) returns (verifier: string, challenge: string)
    requires |raw| == 32
    ensures VerifyClientPkce(sha256, verifier, challenge)
    ensures |verifier| == 43 && forall c | c in verifier :: Unreserved(c)
    ensures Decode(verifier) == Some(raw)
    ensures Decode(challenge) == Some(sha256(verifier))
  {
    verifier := Encode(raw);
    var sum := sha256(verifier);
    challenge := Encode(sum);
    EncodedText(raw);
    EncodedText(sum);
    DecodeEncode(raw);
    DecodeEncode(sum);
  }
}
