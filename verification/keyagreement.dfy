/** Key-agreement state and the mutual authentication check of PACE: the
    terminal's and the card's authentication tags must agree. */
module KeyAgreement {
  import opened Wrappers
  import opened Encoding
  import Mapping

  /** Ephemeral ECDH state; declared by the source, not operated on. */
  datatype KeyAgreementState = KeyAgreementState(
    ephemeralPrivateKey: Option<int>,
    ephemeralPublicKey: Option<Mapping.Point>,
    cardPublicKey: Option<Mapping.Point>,
    sharedSecret: Option<int>)

  /** Proof of session-key possession. */
  datatype AuthenticationTag = AuthenticationTag(tag: seq<uint8>)

  /** Both sides' tags; either may be missing. */
  datatype AuthenticationContext = AuthenticationContext(
    terminalTag: Option<AuthenticationTag>,
    cardTag: Option<AuthenticationTag>)

  /** Mutual authentication holds when both tags are present and equal as
      byte strings (same length, same bytes). */
  ghost predicate TagsAgree(ctx: AuthenticationContext) {
    ctx.terminalTag.Some? && ctx.cardTag.Some? && ctx.terminalTag.value.tag == ctx.cardTag.value.tag
  }

  /** `IsAuthenticated`: rejects a missing tag, then a length mismatch, then
      compares byte by byte and stops at the first difference. */
  method IsAuthenticated(ctx: AuthenticationContext) returns (ok: bool)
    ensures ok <==> TagsAgree(ctx)
  {
    if ctx.terminalTag.None? || ctx.cardTag.None? {
      return false;
    }
    var terminal := ctx.terminalTag.value.tag;
    var card := ctx.cardTag.value.tag;
    if |terminal| != |card| {
      return false;
    }
    var i := 0;
    while i < |terminal|
      invariant 0 <= i <= |terminal|
      invariant terminal[..i] == card[..i]
    {
      if terminal[i] != card[i] {
        return false;
      }
      i := i + 1;
    }
    assert terminal == terminal[..i];
    return true;
  }

  /** Swapping the two tags does not change the verdict. */
  lemma TagsAgreeSymmetric(terminal: Option<AuthenticationTag>, card: Option<AuthenticationTag>)
    ensures TagsAgree(AuthenticationContext(terminal, card)) <==> TagsAgree(AuthenticationContext(card, terminal))
  {
  }

  /** Two present empty tags authenticate; tags of different lengths, or of
      equal length differing in any one byte (the last one included), do not. */
  lemma TagsAgreeCases(a: seq<uint8>, b: seq<uint8>)
    ensures TagsAgree(AuthenticationContext(Some(AuthenticationTag([])), Some(AuthenticationTag([]))))
    ensures |a| != |b| ==> !TagsAgree(AuthenticationContext(Some(AuthenticationTag(a)), Some(AuthenticationTag(b))))
    ensures |a| == |b| && (exists i :: 0 <= i < |a| && a[i] != b[i]) ==>
              !TagsAgree(AuthenticationContext(Some(AuthenticationTag(a)), Some(AuthenticationTag(b))))
  {
  }
}
