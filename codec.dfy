/**
 * The FastAPI generation keeps everything it knows about a backend in the name of its
 * configuration file: `{id}%{owner}%{location_url}%{template}%{template_version}%{0|1}.conf`.
 */
module Codec {
  import opened Base
  import opened Text
  import opened Patterns
  import opened Serializers

  /** A character of the owner group of the filename pattern: `[a-z0-9\-\@.]`. */
  predicate IsNameOwnerChar(c: char)
  {
    IsLower(c) || IsDigit(c) || c == '-' || c == '@' || c == '.'
  }

  /** `str(int(auth_enabled))`. */
  function AuthDigit(auth: bool): string
  {
    if auth then "1" else "0"
  }

  /** The file name of a backend with the given fields: the six fields joined by '%', then ".conf". */
  function FileNameOf(id: string, owner: string, locationUrl: string, template: string,
                      templateVersion: string, auth: bool): string
  {
    Join('%', [id, owner, locationUrl, template, templateVersion, AuthDigit(auth) + ".conf"])
  }

  /** generate_backend_filename. */
  function FileName(b: BackendOut): string
  {
    FileNameOf(b.id, b.owner, b.locationUrl, b.template, b.templateVersion, b.authEnabled)
  }

  /** The records whose file name decodes: a digit id, an owner of pattern characters, no '%' elsewhere. */
  predicate Encodable(b: BackendOut)
  {
    && AllDigits(b.id)
    && (forall i :: 0 <= i < |b.owner| ==> IsNameOwnerChar(b.owner[i]))
    && '%' !in b.locationUrl && '%' !in b.template && '%' !in b.templateVersion
  }

  /** `os.path.join(dir, name)`. */
  function JoinPath(dir: string, name: string): string
  {
    if StartsWith(name, "/") then name
    else if dir == [] || dir[|dir| - 1] == '/' then dir + name
    else dir + "/" + name
  }

  /**
   * The six groups of the filename pattern when the whole name matches it. No group of the
   * pattern can hold '%', so the groups are exactly the pieces between the five '%'.
   */
  function Fields(name: string): Option<seq<string>>
  {
    var parts := Split(name, '%');
    if |parts| == 6 && AllDigits(parts[0])
       && (forall i :: 0 <= i < |parts[1]| ==> IsNameOwnerChar(parts[1][i]))
       && (parts[5] == "0.conf" || parts[5] == "1.conf")
    then Some(parts)
    else None
  }

  /** `re.fullmatch(filename_regex, name)` succeeds. */
  predicate Matches(name: string)
  {
    Fields(name).Some?
  }

  /** The record get_backends builds from a matching name in directory `dir`. */
  function Decode(dir: string, name: string): Option<BackendOut>
  {
    match Fields(name)
    case None => None
    case Some(p) => Some(BackendOut(p[0], p[1], p[2], p[3], p[4], p[5] == "1.conf", JoinPath(dir, name)))
  }

  /** The pieces of a file name split on '%', when no field holds one. */
  lemma SplitFileName(b: BackendOut)
    requires '%' !in b.id && '%' !in b.owner && '%' !in b.locationUrl && '%' !in b.template && '%' !in b.templateVersion
    ensures Split(FileName(b), '%') == [b.id, b.owner, b.locationUrl, b.template, b.templateVersion, AuthDigit(b.authEnabled) + ".conf"]
  {
    var parts := [b.id, b.owner, b.locationUrl, b.template, b.templateVersion, AuthDigit(b.authEnabled) + ".conf"];
    assert '%' !in parts[5];
    SplitJoin(parts, '%');
  }

  /** Decoding the name of an encodable record gives the record back, with the path of its file. */
  lemma DecodeFileName(dir: string, b: BackendOut)
    requires Encodable(b)
    ensures Decode(dir, FileName(b)) == Some(b.(filePath := JoinPath(dir, FileName(b))))
  {
    SplitFileName(b);
    assert (AuthDigit(b.authEnabled) + ".conf" == "1.conf") == b.authEnabled by {
      if !b.authEnabled {
        assert ("0.conf")[0] != ("1.conf")[0];
      }
    }
  }

  /** A name that decodes is the file name of the record it decodes to, and that record is encodable. */
  lemma FileNameOfDecoded(dir: string, name: string)
    requires Decode(dir, name).Some?
    ensures var b := Decode(dir, name).value;
      Encodable(b) && FileName(b) == name && b.filePath == JoinPath(dir, name)
  {
    var p := Split(name, '%');
    var b := Decode(dir, name).value;
    JoinSplit(name, '%');
    assert p[5] == AuthDigit(b.authEnabled) + ".conf";
    assert p == [b.id, b.owner, b.locationUrl, b.template, b.templateVersion, AuthDigit(b.authEnabled) + ".conf"];
  }

  /** The name of a record decodes exactly when the record is encodable; every other record's file is skipped. */
  lemma DecodesIffEncodable(dir: string, b: BackendOut)
    ensures Decode(dir, FileName(b)).Some? <==> Encodable(b)
  {
    if Encodable(b) {
      DecodeFileName(dir, b);
    } else if Decode(dir, FileName(b)).Some? {
      var parts := [b.id, b.owner, b.locationUrl, b.template, b.templateVersion, AuthDigit(b.authEnabled) + ".conf"];
      if exists i :: 0 <= i < |parts| && '%' in parts[i] {
        SplitJoinLonger(parts, '%');
      } else {
        assert '%' !in parts[0] && '%' !in parts[1] && '%' !in parts[2] && '%' !in parts[3] && '%' !in parts[4];
        SplitFileName(b);
      }
    }
  }

  /** A name without '%', such as the `users` and `scripts` entries, never matches. */
  lemma NoPercentNoMatch(name: string)
    requires '%' !in name
    ensures !Matches(name)
  {
    SplitNoSeparator(name, '%');
  }

  /**
   * The owner validator admits capital letters, the filename pattern does not: a backend whose
   * owner holds one is written to a file that the registry scan skips.
   */
  lemma CapitalOwnerIsSkipped(dir: string, b: BackendOut, i: int)
    requires 0 <= i < |b.owner| && IsUpper(b.owner[i])
    ensures Decode(dir, FileName(b)).None?
  {
    DecodesIffEncodable(dir, b);
    assert !IsNameOwnerChar(b.owner[i]);
  }
}
