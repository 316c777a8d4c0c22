/** The Flask generation's semantic check of a create request. */
module FlaskValidate {
  import opened Base
  import opened Text
  import opened Patterns

  /** `ownerRegex` matched against the whole owner: at least 30 lower-case letters or digits. */
  predicate IsValidFlaskOwner(owner: string)
  {
    |owner| >= 30 && forall i :: 0 <= i < |owner| ==> IsLower(owner[i]) || IsDigit(owner[i])
  }

  /** `userKeyUrlRegex`: 3 to 25 ASCII letters or digits. */
  predicate IsValidFlaskUserKeyUrl(key: string)
  {
    3 <= |key| <= 25 && forall i :: 0 <= i < |key| ==> IsAsciiAlnum(key[i])
  }

  /** The fields of a create request that the check reads. */
  datatype Payload = Payload(
    owner: string,
    userKeyUrl: string,
    upstreamUrl: string,
    template: string,
    templateVersion: string)

  /** The dictionary the check returns: `{"status": "okay"}` or `{"error": ...}` for one field. */
  datatype Status = Okay | Invalid(field: Field)

  /** validatePostBackendContent: the three checks in order, stopping at the first that fails. */
  function ValidatePostBackendContent(p: Payload): Status
  {
    if !IsValidFlaskOwner(p.owner) then Invalid(Owner)
    else if !IsValidFlaskUserKeyUrl(p.userKeyUrl) then Invalid(UserKeyUrl)
    else if !MatchesUpstreamUrl(p.upstreamUrl) then Invalid(UpstreamUrl)
    else Okay
  }

  /**
   * The request is accepted exactly when all three fields pass, and a rejection names the first
   * failing field in the order owner, user key, upstream URL, whatever the later fields hold.
   */
  lemma ValidateReportsFirstFailure(p: Payload)
    ensures ValidatePostBackendContent(p) == Okay <==>
      IsValidFlaskOwner(p.owner) && IsValidFlaskUserKeyUrl(p.userKeyUrl) && MatchesUpstreamUrl(p.upstreamUrl)
    ensures ValidatePostBackendContent(p) == Invalid(Owner) <==> !IsValidFlaskOwner(p.owner)
    ensures ValidatePostBackendContent(p) == Invalid(UserKeyUrl) <==>
      IsValidFlaskOwner(p.owner) && !IsValidFlaskUserKeyUrl(p.userKeyUrl)
    ensures ValidatePostBackendContent(p) == Invalid(UpstreamUrl) <==>
      IsValidFlaskOwner(p.owner) && IsValidFlaskUserKeyUrl(p.userKeyUrl) && !MatchesUpstreamUrl(p.upstreamUrl)
  {
  }

  /** A Flask owner is lower-case alphanumeric and so has neither '%' nor '_' nor an upper-case letter. */
  lemma FlaskOwnerIsPlain(owner: string)
    requires IsValidFlaskOwner(owner)
    ensures '%' !in owner && '_' !in owner
    ensures forall i :: 0 <= i < |owner| ==> !IsUpper(owner[i])
  {
  }
}
