/**
 * The request and response models of the FastAPI generation and the validators that run
 * when a request model is built.
 */
module Serializers {
  import opened Base
  import opened Text
  import opened Patterns

  /** A character of `owner_regex`: a letter, a digit, '@', '.' or '-'. */
  predicate IsOwnerChar(c: char)
  {
    IsAsciiAlnum(c) || c == '@' || c == '.' || c == '-'
  }

  /** `owner_regex` matched against the whole owner: at least 30 owner characters. */
  predicate IsValidOwner(owner: string)
  {
    |owner| >= 30 && forall i :: 0 <= i < |owner| ==> IsOwnerChar(owner[i])
  }

  /** `user_key_url_regex` matched against the whole key: 3 to 25 ASCII letters or digits. */
  predicate IsValidUserKeyUrl(key: string)
  {
    3 <= |key| <= 25 && forall i :: 0 <= i < |key| ==> IsAsciiAlnum(key[i])
  }

  /** The owner validator: hands the owner back when it matches, rejects it otherwise. */
  function OwnerValidation(owner: string): (r: Result<string>)
    ensures r == Ok(owner) || r == Err(ValidationError([Owner]))
    ensures r.Ok? <==> IsValidOwner(owner)
  {
    if IsValidOwner(owner) then Ok(owner) else Err(ValidationError([Owner]))
  }

  /** The user key validator. */
  function UserKeyUrlValidation(key: string): (r: Result<string>)
    ensures r == Ok(key) || r == Err(ValidationError([UserKeyUrl]))
    ensures r.Ok? <==> IsValidUserKeyUrl(key)
  {
    if IsValidUserKeyUrl(key) then Ok(key) else Err(ValidationError([UserKeyUrl]))
  }

  /** The upstream URL validator. */
  function UpstreamUrlValidation(url: string): (r: Result<string>)
    ensures r == Ok(url) || r == Err(ValidationError([UpstreamUrl]))
    ensures r.Ok? <==> MatchesUpstreamUrl(url)
  {
    if MatchesUpstreamUrl(url) then Ok(url) else Err(ValidationError([UpstreamUrl]))
  }

  /** A key that passes validation holds neither '_' nor '%': it cannot split a location URL or a filename. */
  lemma UserKeyUrlHasNoSeparators(key: string)
    requires IsValidUserKeyUrl(key)
    ensures '_' !in key && '%' !in key
  {
  }

  /** An accepted upstream URL is `http://` or `https://` followed by at least one URL character. */
  lemma UpstreamUrlShape(url: string)
    ensures MatchesUpstreamUrl(url) <==>
      || (StartsWith(url, "http://") && |url| > 7 && forall i :: 7 <= i < |url| ==> IsUrlChar(url[i]))
      || (StartsWith(url, "https://") && |url| > 8 && forall i :: 8 <= i < |url| ==> IsUrlChar(url[i]))
  {
    if |url| >= 7 {
      UrlAtomsAreUrlChars(url[7..]);
      assert forall i :: 7 <= i < |url| ==> url[7..][i - 7] == url[i];
    }
    if |url| >= 8 {
      UrlAtomsAreUrlChars(url[8..]);
      assert forall i :: 8 <= i < |url| ==> url[8..][i - 8] == url[i];
    }
  }

  /** BackendIn: what a client sends to create a backend. */
  datatype BackendIn = BackendIn(
    owner: string,
    template: string,
    templateVersion: string,
    userKeyUrl: string,
    upstreamUrl: string,
    authEnabled: bool)

  /** BackendOut: a backend as the service reports it; `filePath` is internal. */
  datatype BackendOut = BackendOut(
    id: string,
    owner: string,
    locationUrl: string,
    template: string,
    templateVersion: string,
    authEnabled: bool,
    filePath: string)

  /** BackendTemp: the union of both models with every field optional, used while a backend is assembled. */
  datatype BackendTemp = BackendTemp(
    id: Option<string>,
    owner: Option<string>,
    locationUrl: Option<string>,
    template: Option<string>,
    templateVersion: Option<string>,
    userKeyUrl: Option<string>,
    upstreamUrl: Option<string>,
    authEnabled: Option<bool>)

  /** A BackendTemp built without arguments: every field is unset. */
  const EmptyBackendTemp := BackendTemp(None, None, None, None, None, None, None, None)

  /** The fields whose validator rejects the given values, in declaration order. */
  function FailingFields(owner: string, key: string, upstream: string): seq<Field>
  {
    (if IsValidOwner(owner) then [] else [Owner])
    + (if IsValidUserKeyUrl(key) then [] else [UserKeyUrl])
    + (if MatchesUpstreamUrl(upstream) then [] else [UpstreamUrl])
  }

  /**
   * Building a BackendIn runs every validator; it succeeds only if all of them accept, and
   * otherwise reports every rejected field at once.
   */
  function NewBackendIn(owner: string, template: string, templateVersion: string,
                        key: string, upstream: string, authEnabled: bool): (r: Result<BackendIn>)
    ensures r.Ok? <==> IsValidOwner(owner) && IsValidUserKeyUrl(key) && MatchesUpstreamUrl(upstream)
    ensures r.Ok? ==> r.value == BackendIn(owner, template, templateVersion, key, upstream, authEnabled)
    ensures r.Err? ==> r.error.ValidationError? && |r.error.fields| >= 1
    ensures r.Err? ==> (Owner in r.error.fields <==> !IsValidOwner(owner))
  {
    var failing := FailingFields(owner, key, upstream);
    if failing == [] then Ok(BackendIn(owner, template, templateVersion, key, upstream, authEnabled))
    else Err(ValidationError(failing))
  }

  /**
   * Building a BackendOut runs the owner validator it inherits and reads `id` as an int; it
   * succeeds only if both accept, and otherwise reports the rejected fields, owner first.
   */
  function NewBackendOut(id: string, owner: string, locationUrl: string, template: string,
                         templateVersion: string, authEnabled: bool, filePath: string): (r: Result<BackendOut>)
    ensures r.Ok? <==> IsValidOwner(owner) && ParseInt(id).Some?
    ensures r.Ok? ==> r.value == BackendOut(id, owner, locationUrl, template, templateVersion, authEnabled, filePath)
    ensures r.Err? ==>
      && r.error.ValidationError?
      && (Owner in r.error.fields <==> !IsValidOwner(owner))
      && (BackendId in r.error.fields <==> ParseInt(id).None?)
  {
    var failing := (if IsValidOwner(owner) then [] else [Owner]) + (if ParseInt(id).Some? then [] else [BackendId]);
    if failing == [] then Ok(BackendOut(id, owner, locationUrl, template, templateVersion, authEnabled, filePath))
    else Err(ValidationError(failing))
  }

  /** Rebuilding a record as a BackendOut, as get_backends does with the fields it decoded. */
  function Revalidate(b: BackendOut): Result<BackendOut>
  {
    NewBackendOut(b.id, b.owner, b.locationUrl, b.template, b.templateVersion, b.authEnabled, b.filePath)
  }

  /** `BackendTemp(**payload.model_dump())`: the request's fields copied, id and location still unset. */
  function TempOf(p: BackendIn): (t: BackendTemp)
  {
    BackendTemp(None, Some(p.owner), None, Some(p.template), Some(p.templateVersion),
                Some(p.userKeyUrl), Some(p.upstreamUrl), Some(p.authEnabled))
  }
}
