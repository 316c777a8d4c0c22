/**
 * The Flask generation's backend registry: five fields in the file name
 * `{id}%{owner}%{location_url}%{template}%{template_version}.conf`, a listing, a suffix
 * allocator, create with a duplicate check over the listing, and delete of the first file with
 * an id.
 */
module FlaskBackend {
  import opened Base
  import opened Text
  import opened Patterns
  import opened Seqs
  import opened Storage
  import opened FlaskValidate
  import opened Allocation

  /** One backend as getBackends reports it: the five groups of fileRegex. */
  datatype FlaskRecord = FlaskRecord(
    id: string,
    owner: string,
    locationUrl: string,
    template: string,
    templateVersion: string)

  /** A character of the owner group of fileRegex: `[a-z0-9]`. */
  predicate IsFlaskOwnerChar(c: char)
  {
    IsLower(c) || IsDigit(c)
  }

  /** The name createBackend gives the file of a record. */
  function FlaskFileName(r: FlaskRecord): string
  {
    Join('%', [r.id, r.owner, r.locationUrl, r.template, r.templateVersion + ".conf"])
  }

  /** `s` ends in ".conf". */
  predicate EndsWithConf(s: string)
  {
    |s| >= 5 && s[|s| - 5..] == ".conf"
  }

  /**
   * `re.fullmatch(fileRegex, name)` and its five groups. No group can hold '%', so a match is a
   * name with exactly four '%': digits, then owner characters, and a last piece ending in ".conf".
   */
  function FlaskDecode(name: string): Option<FlaskRecord>
  {
    var p := Split(name, '%');
    if |p| == 5 && AllDigits(p[0]) && (forall i :: 0 <= i < |p[1]| ==> IsFlaskOwnerChar(p[1][i]))
       && EndsWithConf(p[4])
    then Some(FlaskRecord(p[0], p[1], p[2], p[3], p[4][..|p[4]| - 5]))
    else None
  }

  /** The records whose file name fileRegex decodes: a digit id, a plain owner, no '%' elsewhere. */
  predicate FlaskEncodable(r: FlaskRecord)
  {
    && AllDigits(r.id)
    && (forall i :: 0 <= i < |r.owner| ==> IsFlaskOwnerChar(r.owner[i]))
    && '%' !in r.locationUrl && '%' !in r.template && '%' !in r.templateVersion
  }

  /** Decoding the file name of an encodable record gives the record back. */
  lemma FlaskDecodeFileName(r: FlaskRecord)
    requires FlaskEncodable(r)
    ensures FlaskDecode(FlaskFileName(r)) == Some(r)
  {
    var last := r.templateVersion + ".conf";
    var parts := [r.id, r.owner, r.locationUrl, r.template, last];
    assert forall i :: 0 <= i < |r.id| ==> r.id[i] != '%';
    assert forall i :: 0 <= i < |r.owner| ==> r.owner[i] != '%';
    assert '%' !in last by {
      assert forall i :: 0 <= i < |last| ==> last[i] != '%' by {
        forall i | 0 <= i < |last| ensures last[i] != '%' {
          if i < |r.templateVersion| {
            assert last[i] == r.templateVersion[i];
          } else {
            assert last[i] == ".conf"[i - |r.templateVersion|];
          }
        }
      }
    }
    SplitJoin(parts, '%');
    assert last[|last| - 5..] == ".conf";
    assert last[..|last| - 5] == r.templateVersion;
  }

  /** A name that decodes is the file name of its record, and that record is encodable. */
  lemma FlaskFileNameOfDecoded(name: string)
    requires FlaskDecode(name).Some?
    ensures FlaskEncodable(FlaskDecode(name).value) && FlaskFileName(FlaskDecode(name).value) == name
  {
    var p := Split(name, '%');
    var r := FlaskDecode(name).value;
    JoinSplit(name, '%');
    assert p[4] == p[4][..|p[4]| - 5] + ".conf";
    assert p == [r.id, r.owner, r.locationUrl, r.template, r.templateVersion + ".conf"];
    assert '%' !in r.templateVersion by {
      assert forall i :: 0 <= i < |r.templateVersion| ==> r.templateVersion[i] == p[4][i];
    }
  }

  /** A name without '%', such as the `users` folder, is not a backend file. */
  lemma FlaskNoPercentNoMatch(name: string)
    requires '%' !in name
    ensures FlaskDecode(name).None?
  {
    SplitNoSeparator(name, '%');
  }

  /** getBackends: None for a missing directory, [] for an empty one, otherwise the decoded names in listing order. */
  function FlaskBackends(v: DirView): Option<seq<FlaskRecord>>
  {
    if !v.present then None
    else if v.names == [] then Some([])
    else Some(FilterMap(FlaskDecode, v.names))
  }

  /** getBackends, building the list in a loop over the listing. */
  method GetBackends(d: Directory) returns (r: Option<seq<FlaskRecord>>)
    ensures r == FlaskBackends(d.View())
  {
    if !d.present {
      return None;
    }
    if |d.names| == 0 {
      return Some([]);
    }
    var listing := d.names;
    var valid: seq<FlaskRecord> := [];
    var i := 0;
    while i < |listing|
      invariant 0 <= i <= |listing|
      invariant valid == FilterMap(FlaskDecode, listing[..i])
    {
      var m := FlaskDecode(listing[i]);
      if m.Some? {
        valid := valid + [m.value];
      }
      i := i + 1;
      assert listing[..i][..i - 1] == listing[..i - 1];
    }
    assert listing[..|listing|] == listing;
    return Some(valid);
  }

  /**
   * getBackends reports None exactly for a missing directory; otherwise it holds a record exactly
   * when a listed name decodes to it, and then the record's own file name is listed.
   */
  lemma FlaskBackendsMeaning(v: DirView, r: FlaskRecord)
    ensures FlaskBackends(v).None? <==> !v.present
    ensures FlaskBackends(v).Some? ==>
      (r in FlaskBackends(v).value <==> exists i :: 0 <= i < |v.names| && FlaskDecode(v.names[i]) == Some(r))
    ensures FlaskBackends(v).Some? && r in FlaskBackends(v).value ==>
      FlaskEncodable(r) && FlaskFileName(r) in v.names
    ensures FlaskBackends(v).Some? ==> |FlaskBackends(v).value| <= |v.names|
  {
    if v.present && v.names != [] {
      FilterMapMembership(FlaskDecode, v.names, r);
      if r in FlaskBackends(v).value {
        var i :| 0 <= i < |v.names| && FlaskDecode(v.names[i]) == Some(r);
        FlaskFileNameOfDecoded(v.names[i]);
      }
    }
  }

  /** The location URLs of Flask records, in order: the Flask counterpart of `Allocation.Locations`, over the five-field record. */
  function FlaskLocations(rs: seq<FlaskRecord>): (locs: seq<string>)
    ensures |locs| == |rs| && forall i :: 0 <= i < |rs| ==> locs[i] == rs[i].locationUrl
  {
    seq(|rs|, i requires 0 <= i < |rs| => rs[i].locationUrl)
  }

  /** generateSuffixNumber: iterating over getBackends's None raises TypeError. */
  function FlaskSuffixSpec(v: DirView, key: string): Result<string>
  {
    match FlaskBackends(v)
    case None => Err(TypeError)
    case Some(rs) =>
      match SuffixesFor(FlaskLocations(rs), key)
      case Err(e) => Err(e)
      case Ok(ns) => NextSuffix(ns)
  }

  /** generateSuffixNumber, collecting the suffixes in use in a loop. */
  method GenerateSuffixNumber(d: Directory, key: string) returns (r: Result<string>)
    ensures r == FlaskSuffixSpec(d.View(), key)
  {
    var current := GetBackends(d);
    if current.None? {
      return Err(TypeError);
    }
    var rs := current.value;
    ghost var locs := FlaskLocations(rs);
    var ids: seq<int> := [];
    var i := 0;
    while i < |rs|
      invariant 0 <= i <= |rs|
      invariant SuffixesFor(locs[..i], key) == Ok(ids)
    {
      assert locs[..i + 1][..i] == locs[..i];
      var loc := rs[i].locationUrl;
      if KeyOf(loc) == key {
        var n := SuffixOf(loc);
        if n.Err? {
          SuffixesForSticky(locs, i + 1, key);
          return Err(n.error);
        }
        ids := ids + [n.value];
      }
      i := i + 1;
    }
    assert locs[..|rs|] == locs;
    if ids == [] {
      return Ok("100");
    }
    var highest := Max(ids);
    if highest == 999 {
      return Err(ServerError(SuffixSpaceFull));
    }
    return Ok(IntToString(highest + 1));
  }

  /** The Flask suffix fails with TypeError exactly for a missing directory. */
  lemma FlaskSuffixMissingDir(v: DirView, key: string)
    ensures FlaskSuffixSpec(v, key) == Err(TypeError) <==> !v.present
  {
    if v.present {
      var locs := FlaskLocations(FlaskBackends(v).value);
      SuffixesForMeaning(locs, key);
      SuffixesSpecMeaning(locs, key);
      if SuffixesFor(locs, key).Ok? {
        NextSuffixMeaning(SuffixesFor(locs, key).value);
      } else {
        SuffixesForErrors(locs, key);
      }
    }
  }

  /** The errors a suffix scan raises are IndexError and ValueError. */
  lemma {:induction false} SuffixesForErrors(locs: seq<string>, key: string)
    ensures SuffixesFor(locs, key).Err? ==> SuffixesFor(locs, key).error in {IndexError, ValueError}
  {
    if locs != [] {
      SuffixesForErrors(locs[..|locs| - 1], key);
    }
  }

  /** The Flask suffix is "100" when no listed backend's location URL has the key as its first field. */
  lemma FlaskSuffixUnusedKey(v: DirView, key: string)
    requires v.present
    requires forall i :: 0 <= i < |v.names| && FlaskDecode(v.names[i]).Some? ==>
      KeyOf(FlaskDecode(v.names[i]).value.locationUrl) != key
    ensures FlaskSuffixSpec(v, key) == Ok("100")
  {
    var rs := FlaskBackends(v).value;
    var locs := FlaskLocations(rs);
    forall i | 0 <= i < |locs| ensures KeyOf(locs[i]) != key {
      FlaskBackendsMeaning(v, rs[i]);
    }
    SuffixesSpecMeaning(locs, key);
  }

  /** A Flask suffix, when allocated, is a number above every suffix a listed backend uses for the key. */
  lemma FlaskSuffixAbove(v: DirView, key: string, r: FlaskRecord)
    requires FlaskSuffixSpec(v, key).Ok?
    ensures ParseInt(FlaskSuffixSpec(v, key).value).Some?
    ensures r in FlaskBackends(v).value && KeyOf(r.locationUrl) == key && SuffixOf(r.locationUrl).Ok? ==>
      SuffixOf(r.locationUrl).value < ParseInt(FlaskSuffixSpec(v, key).value).value
  {
    var rs := FlaskBackends(v).value;
    var locs := FlaskLocations(rs);
    SuffixesSpecMeaning(locs, key);
    if r in rs {
      var i :| 0 <= i < |rs| && rs[i] == r;
      assert locs[i] == r.locationUrl;
    }
  }

  /** The collaborator that renders a backend from the request and the suffix; None when it cannot. */
  type FlaskRenderer = (Payload, string) -> Option<string>

  /** The request createBackend returns, with id and location URL added. */
  datatype Created = Created(payload: Payload, id: string, locationUrl: string)

  /** The record createBackend writes for a created backend. */
  function RecordOf(c: Created): FlaskRecord
  {
    FlaskRecord(c.id, c.payload.owner, c.locationUrl, c.payload.template, c.payload.templateVersion)
  }

  /**
   * The duplicate check of createBackend as written: it stops with AttributeError at the first
   * listed name fileRegex rejects (its match is None), and with a server error at the first whose
   * id or location URL equals the new one.
   */
  function DuplicateError(names: seq<string>, id: string, loc: string): Option<Error>
  {
    if names == [] then None
    else match FlaskDecode(names[0])
      case None => Some(AttributeError)
      case Some(r) =>
        if r.id == id || r.locationUrl == loc then Some(ServerError(DuplicateBackend))
        else DuplicateError(names[1..], id, loc)
  }

  /** createBackend once validation, suffix and template have produced `suffix` and `text`, with duplicate check `check`. */
  function CreateTail(w: World, payload: Payload, id: string, suffix: string, text: string, check: Option<Error>): Outcome<Created>
  {
    var c := Created(payload, id, payload.userKeyUrl + "_" + suffix);
    match check
    case Some(e) => Outcome(Err(e), w)
    case None =>
      if CanWrite(w.dir) then Outcome(Ok(c), World(AfterWrite(w.dir, FlaskFileName(RecordOf(c)), text), w.reloads + 1))
      else Outcome(Err(OSError), w)
  }

  /** createBackend as written; `drawn` is the random id. */
  function FlaskCreateSpec(w: World, payload: Payload, drawn: nat, render: FlaskRenderer): Outcome<Created>
  {
    match ValidatePostBackendContent(payload)
    case Invalid(f) => Outcome(Err(BadRequest(f)), w)
    case Okay =>
      match FlaskSuffixSpec(w.dir, payload.userKeyUrl)
      case Err(e) => Outcome(Err(e), w)
      case Ok(suffix) =>
        var text := render(payload, suffix);
        if text.None? || text.value == "" then Outcome(Err(ServerError(TemplateFailed)), w)
        else
          var id := IntToString(drawn);
          CreateTail(w, payload, id, suffix, text.value,
                     DuplicateError(w.dir.names, id, payload.userKeyUrl + "_" + suffix))
  }

  /** createBackend. */
  method CreateBackend(d: Directory, p: Proxy, payload: Payload, render: FlaskRenderer)
    returns (r: Result<Created>, ghost drawn: nat)
    modifies d, p
    ensures Pow10(9) <= drawn <= Pow10(10) - 1
    ensures var o := FlaskCreateSpec(World(old(d.View()), old(p.reloads)), payload, drawn, render);
      r == o.result && d.View() == o.world.dir && p.reloads == o.world.reloads
    ensures old(d.Valid()) ==> d.Valid()
  {
    drawn := Pow10(9);
    var status := ValidatePostBackendContent(payload);
    if status.Invalid? {
      return Err(BadRequest(status.field)), drawn;
    }
    var suffix := GenerateSuffixNumber(d, payload.userKeyUrl);
    if suffix.Err? {
      return Err(suffix.error), drawn;
    }
    var text := render(payload, suffix.value);
    if text.None? || text.value == "" {
      return Err(ServerError(TemplateFailed)), drawn;
    }
    var x := RandomWithNDigits(10);
    drawn := x;
    var c := Created(payload, IntToString(x), payload.userKeyUrl + "_" + suffix.value);
    var listing := d.names;
    var i := 0;
    while i < |listing|
      invariant 0 <= i <= |listing|
      invariant DuplicateError(listing, c.id, c.locationUrl) == DuplicateError(listing[i..], c.id, c.locationUrl)
    {
      var m := FlaskDecode(listing[i]);
      if m.None? {
        return Err(AttributeError), drawn;
      }
      if m.value.id == c.id || m.value.locationUrl == c.locationUrl {
        return Err(ServerError(DuplicateBackend)), drawn;
      }
      assert listing[i..][1..] == listing[i + 1..];
      i := i + 1;
    }
    var written := d.WriteFile(FlaskFileName(RecordOf(c)), text.value);
    if !written {
      return Err(OSError), drawn;
    }
    p.Reload();
    return Ok(c), drawn;
  }

  /**
   * Once any listed name is not a backend file, createBackend as written never succeeds and
   * changes nothing: the duplicate check reaches that name unless it stopped earlier.
   */
  lemma {:induction false} DuplicateCheckStopsAtForeignName(names: seq<string>, id: string, loc: string, k: nat)
    requires k < |names| && FlaskDecode(names[k]).None?
    ensures DuplicateError(names, id, loc).Some?
    decreases k
  {
    if k > 0 {
      if FlaskDecode(names[0]).Some? {
        DuplicateCheckStopsAtForeignName(names[1..], id, loc, k - 1);
      }
    }
  }

  /**
   * The `users` folder kept inside the backend directory is listed with the backends. Once it is
   * there, createBackend as written fails for every request, whatever it holds, and writes nothing.
   */
  lemma UsersFolderBlocksCreate(w: World, payload: Payload, drawn: nat, render: FlaskRenderer)
    requires "users" in w.dir.names
    ensures FlaskCreateSpec(w, payload, drawn, render).result.Err?
    ensures FlaskCreateSpec(w, payload, drawn, render).world == w
  {
    FlaskNoPercentNoMatch("users");
    var k :| 0 <= k < |w.dir.names| && w.dir.names[k] == "users";
    if ValidatePostBackendContent(payload) == Okay && FlaskSuffixSpec(w.dir, payload.userKeyUrl).Ok? {
      var suffix := FlaskSuffixSpec(w.dir, payload.userKeyUrl).value;
      DuplicateCheckStopsAtForeignName(w.dir.names, IntToString(drawn), payload.userKeyUrl + "_" + suffix, k);
    }
  }

  /** The duplicate check as evidently intended: names fileRegex rejects are skipped, as getBackends skips them. */
  function DuplicateErrorSkipping(names: seq<string>, id: string, loc: string): Option<Error>
  {
    if names == [] then None
    else match FlaskDecode(names[0])
      case None => DuplicateErrorSkipping(names[1..], id, loc)
      case Some(r) =>
        if r.id == id || r.locationUrl == loc then Some(ServerError(DuplicateBackend))
        else DuplicateErrorSkipping(names[1..], id, loc)
  }

  /** createBackend with the duplicate check that skips foreign names. */
  function FlaskCreateCorrected(w: World, payload: Payload, drawn: nat, render: FlaskRenderer): Outcome<Created>
  {
    match ValidatePostBackendContent(payload)
    case Invalid(f) => Outcome(Err(BadRequest(f)), w)
    case Okay =>
      match FlaskSuffixSpec(w.dir, payload.userKeyUrl)
      case Err(e) => Outcome(Err(e), w)
      case Ok(suffix) =>
        var text := render(payload, suffix);
        if text.None? || text.value == "" then Outcome(Err(ServerError(TemplateFailed)), w)
        else
          var id := IntToString(drawn);
          CreateTail(w, payload, id, suffix, text.value,
                     DuplicateErrorSkipping(w.dir.names, id, payload.userKeyUrl + "_" + suffix))
  }

  /** The skipping check refuses exactly when a listed backend has the new id or the new location URL. */
  lemma {:induction false} DuplicateErrorSkippingMeaning(names: seq<string>, id: string, loc: string)
    ensures DuplicateErrorSkipping(names, id, loc).Some? <==>
      exists i :: 0 <= i < |names| && FlaskDecode(names[i]).Some?
        && (FlaskDecode(names[i]).value.id == id || FlaskDecode(names[i]).value.locationUrl == loc)
    ensures DuplicateErrorSkipping(names, id, loc).Some? ==> DuplicateErrorSkipping(names, id, loc) == Some(ServerError(DuplicateBackend))
  {
    if names != [] {
      DuplicateErrorSkippingMeaning(names[1..], id, loc);
      assert forall i :: 0 <= i < |names| - 1 ==> names[1..][i] == names[i + 1];
      if exists i :: 0 <= i < |names| && FlaskDecode(names[i]).Some?
           && (FlaskDecode(names[i]).value.id == id || FlaskDecode(names[i]).value.locationUrl == loc) {
        var i :| 0 <= i < |names| && FlaskDecode(names[i]).Some?
           && (FlaskDecode(names[i]).value.id == id || FlaskDecode(names[i]).value.locationUrl == loc);
        if i > 0 {
          assert names[1..][i - 1] == names[i];
        }
      }
    }
  }

  /** When every listed name is a backend file, both checks agree: the correction changes nothing else. */
  lemma {:induction false} ChecksAgreeOnBackendFiles(names: seq<string>, id: string, loc: string)
    requires forall i :: 0 <= i < |names| ==> FlaskDecode(names[i]).Some?
    ensures DuplicateError(names, id, loc) == DuplicateErrorSkipping(names, id, loc)
  {
    if names != [] {
      assert forall i :: 0 <= i < |names| - 1 ==> names[1..][i] == names[i + 1];
      ChecksAgreeOnBackendFiles(names[1..], id, loc);
    }
  }

  /** On a directory of backend files only, the corrected create is createBackend as written. */
  lemma CorrectedCreateAgrees(w: World, payload: Payload, drawn: nat, render: FlaskRenderer)
    requires forall i :: 0 <= i < |w.dir.names| ==> FlaskDecode(w.dir.names[i]).Some?
    ensures FlaskCreateCorrected(w, payload, drawn, render) == FlaskCreateSpec(w, payload, drawn, render)
  {
    if ValidatePostBackendContent(payload) == Okay && FlaskSuffixSpec(w.dir, payload.userKeyUrl).Ok? {
      var suffix := FlaskSuffixSpec(w.dir, payload.userKeyUrl).value;
      ChecksAgreeOnBackendFiles(w.dir.names, IntToString(drawn), payload.userKeyUrl + "_" + suffix);
    }
  }

  /**
   * The corrected create succeeds, beside any foreign entry such as the `users` folder, whenever
   * the request is valid, a suffix is free, the template renders, the directory is writable and
   * no listed backend has the new id or location URL; the new backend is then listed unless its template name or version holds '%'.
   */
  lemma CorrectedCreateSucceeds(w: World, payload: Payload, drawn: nat, render: FlaskRenderer, suffix: string)
    requires ValidatePostBackendContent(payload) == Okay
    requires FlaskSuffixSpec(w.dir, payload.userKeyUrl) == Ok(suffix)
    requires render(payload, suffix).Some? && render(payload, suffix).value != ""
    requires CanWrite(w.dir)
    requires forall i :: 0 <= i < |w.dir.names| && FlaskDecode(w.dir.names[i]).Some? ==>
      FlaskDecode(w.dir.names[i]).value.id != IntToString(drawn)
      && FlaskDecode(w.dir.names[i]).value.locationUrl != payload.userKeyUrl + "_" + suffix
    ensures var o := FlaskCreateCorrected(w, payload, drawn, render);
      && o.result == Ok(Created(payload, IntToString(drawn), payload.userKeyUrl + "_" + suffix))
      && o.world.reloads == w.reloads + 1
      && ('%' !in payload.template && '%' !in payload.templateVersion ==>
            RecordOf(o.result.value) in FlaskBackends(o.world.dir).value)
  {
    var c := Created(payload, IntToString(drawn), payload.userKeyUrl + "_" + suffix);
    DuplicateErrorSkippingMeaning(w.dir.names, c.id, c.locationUrl);
    assert DuplicateErrorSkipping(w.dir.names, c.id, c.locationUrl).None?;
    var text := render(payload, suffix).value;
    assert FlaskCreateCorrected(w, payload, drawn, render)
      == Outcome(Ok(c), World(AfterWrite(w.dir, FlaskFileName(RecordOf(c)), text), w.reloads + 1));
    if '%' !in payload.template && '%' !in payload.templateVersion {
      NatToStringDigits(drawn);
      CreatedIsListed(w, c, World(AfterWrite(w.dir, FlaskFileName(RecordOf(c)), text), w.reloads + 1), text, suffix);
    }
  }

  /** A file written for a created backend of a valid request is listed afterwards as the backend's record. */
  lemma CreatedIsListed(w: World, c: Created, w2: World, text: string, suffix: string)
    requires ValidatePostBackendContent(c.payload) == Okay && FlaskSuffixSpec(w.dir, c.payload.userKeyUrl) == Ok(suffix)
    requires c.locationUrl == c.payload.userKeyUrl + "_" + suffix && AllDigits(c.id)
    requires '%' !in c.payload.template && '%' !in c.payload.templateVersion
    requires CanWrite(w.dir) && w2 == World(AfterWrite(w.dir, FlaskFileName(RecordOf(c)), text), w.reloads + 1)
    ensures RecordOf(c) in FlaskBackends(w2.dir).value
  {
    FlaskOwnerIsPlain(c.payload.owner);
    assert forall i :: 0 <= i < |c.payload.userKeyUrl| ==> c.payload.userKeyUrl[i] != '%';
    FlaskSuffixAbove(w.dir, c.payload.userKeyUrl, RecordOf(c));
    ParsedHasOnlyDigitsAndSigns(suffix, '%');
    assert '%' !in c.locationUrl;
    FlaskDecodeFileName(RecordOf(c));
    var name := FlaskFileName(RecordOf(c));
    assert name in w2.dir.names;
    FlaskBackendsMeaning(w2.dir, RecordOf(c));
  }

  /** What deleteBackend returns without raising: None, or the empty list for an empty directory. */
  datatype Reply = NoneReply | EmptyListReply

  /**
   * The loop of deleteBackend: the first listed backend file whose id, read with int(), equals the
   * requested id read with int(). Names fileRegex rejects are skipped; an id int() refuses,
   * including the empty id `\d*` allows, raises ValueError.
   */
  function FirstWithId(names: seq<string>, backendId: string): Result<Option<string>>
  {
    if names == [] then Ok(None)
    else match FlaskDecode(names[0])
      case None => FirstWithId(names[1..], backendId)
      case Some(r) =>
        if ParseInt(r.id).None? || ParseInt(backendId).None? then Err(ValueError)
        else if ParseInt(r.id) == ParseInt(backendId) then Ok(Some(names[0]))
        else FirstWithId(names[1..], backendId)
  }

  /** deleteBackend. */
  function FlaskDeleteSpec(w: World, backendId: string): Outcome<Reply>
  {
    if !w.dir.present then Outcome(Ok(NoneReply), w)
    else if w.dir.names == [] then Outcome(Ok(EmptyListReply), w)
    else match FirstWithId(w.dir.names, backendId)
      case Err(e) => Outcome(Err(e), w)
      case Ok(None) => Outcome(Err(NotFound), w)
      case Ok(Some(n)) =>
        if CanRemove(w.dir, n) then Outcome(Ok(NoneReply), World(AfterRemove(w.dir, n), w.reloads + 1))
        else Outcome(Err(ServerError(RemoveFailed)), w)
  }

  /** deleteBackend, searching the listing in a loop. */
  method DeleteBackend(d: Directory, p: Proxy, backendId: string) returns (r: Result<Reply>)
    modifies d, p
    ensures var o := FlaskDeleteSpec(World(old(d.View()), old(p.reloads)), backendId);
      r == o.result && d.View() == o.world.dir && p.reloads == o.world.reloads
    ensures old(d.Valid()) ==> d.Valid()
  {
    if !d.present {
      return Ok(NoneReply);
    }
    if |d.names| == 0 {
      return Ok(EmptyListReply);
    }
    var listing := d.names;
    var i := 0;
    while i < |listing|
      invariant 0 <= i <= |listing|
      invariant FirstWithId(listing, backendId) == FirstWithId(listing[i..], backendId)
    {
      assert listing[i..][1..] == listing[i + 1..];
      var m := FlaskDecode(listing[i]);
      if m.Some? {
        var fileId := ParseInt(m.value.id);
        var wanted := ParseInt(backendId);
        if fileId.None? || wanted.None? {
          return Err(ValueError);
        }
        if fileId == wanted {
          var removed := d.RemoveFile(listing[i]);
          if !removed {
            return Err(ServerError(RemoveFailed));
          }
          p.Reload();
          return Ok(NoneReply);
        }
      }
      i := i + 1;
    }
    return Err(NotFound);
  }

  /**
   * The search finds the first listed backend file of the id: the name found decodes to a record
   * whose id reads as the requested one, and no earlier backend file has that id. It reports
   * nothing found exactly when no listed backend file has the id.
   */
  lemma {:induction false} FirstWithIdMeaning(names: seq<string>, backendId: string)
    ensures FirstWithId(names, backendId).Err? ==> FirstWithId(names, backendId) == Err(ValueError)
    ensures FirstWithId(names, backendId).Ok? && FirstWithId(names, backendId).value.Some? ==>
      exists k :: 0 <= k < |names| && names[k] == FirstWithId(names, backendId).value.value
        && FlaskDecode(names[k]).Some? && ParseInt(backendId).Some?
        && ParseInt(FlaskDecode(names[k]).value.id) == ParseInt(backendId)
        && forall j :: 0 <= j < k && FlaskDecode(names[j]).Some? ==>
             ParseInt(FlaskDecode(names[j]).value.id) != ParseInt(backendId)
    ensures FirstWithId(names, backendId) == Ok(None) <==>
      forall j :: 0 <= j < |names| && FlaskDecode(names[j]).Some? ==>
        ParseInt(FlaskDecode(names[j]).value.id).Some? && ParseInt(backendId).Some?
        && ParseInt(FlaskDecode(names[j]).value.id) != ParseInt(backendId)
  {
    if names != [] {
      var rest := names[1..];
      FirstWithIdMeaning(rest, backendId);
      assert forall j :: 0 <= j < |rest| ==> rest[j] == names[j + 1];
      var r := FirstWithId(names, backendId);
      if r.Ok? && r.value.Some? && r != FirstWithId(rest, backendId) {
        assert names[0] == r.value.value;
      } else if r.Ok? && r.value.Some? {
        var k :| 0 <= k < |rest| && rest[k] == r.value.value
          && FlaskDecode(rest[k]).Some? && ParseInt(backendId).Some?
          && ParseInt(FlaskDecode(rest[k]).value.id) == ParseInt(backendId)
          && forall j :: 0 <= j < k && FlaskDecode(rest[j]).Some? ==>
               ParseInt(FlaskDecode(rest[j]).value.id) != ParseInt(backendId);
        assert names[k + 1] == rest[k];
      }
    }
  }

  /**
   * A successful delete removes exactly one file, the first listed backend file of the id, and
   * reloads once; every other name and content stays.
   */
  lemma FlaskDeleteRemovesFirstMatch(w: World, backendId: string)
    requires w.dir.present && w.dir.names != []
    requires FlaskDeleteSpec(w, backendId).result == Ok(NoneReply)
    ensures FirstWithId(w.dir.names, backendId).Ok? && FirstWithId(w.dir.names, backendId).value.Some?
    ensures var n := FirstWithId(w.dir.names, backendId).value.value;
      && CanRemove(w.dir, n)
      && FlaskDeleteSpec(w, backendId).world == World(AfterRemove(w.dir, n), w.reloads + 1)
      && FlaskDecode(n).Some? && ParseInt(FlaskDecode(n).value.id) == ParseInt(backendId)
      && n !in FlaskDeleteSpec(w, backendId).world.dir.names
      && forall m :: m in w.dir.names && m != n ==> m in FlaskDeleteSpec(w, backendId).world.dir.names
  {
    FirstWithIdMeaning(w.dir.names, backendId);
  }

  /** A delete answers NotFound, changing nothing, exactly when the listing is non-empty and holds no backend file of the id. */
  lemma FlaskDeleteNotFound(w: World, backendId: string)
    ensures FlaskDeleteSpec(w, backendId).result == Err(NotFound) <==>
      && w.dir.present && w.dir.names != []
      && forall j :: 0 <= j < |w.dir.names| && FlaskDecode(w.dir.names[j]).Some? ==>
           ParseInt(FlaskDecode(w.dir.names[j]).value.id).Some? && ParseInt(backendId).Some?
           && ParseInt(FlaskDecode(w.dir.names[j]).value.id) != ParseInt(backendId)
    ensures FlaskDeleteSpec(w, backendId).result == Err(NotFound) ==> FlaskDeleteSpec(w, backendId).world == w
  {
    FirstWithIdMeaning(w.dir.names, backendId);
  }

  /**
   * Only the first file of an id goes: with two backend files of one id, deleting the id leaves
   * the second listed, and a repeated delete does not answer NotFound.
   */
  lemma FlaskDeleteKeepsLaterDuplicate(w: World, backendId: string, k: nat)
    requires WellFormed(w.dir) && w.dir.present
    requires k < |w.dir.names| && FlaskDecode(w.dir.names[k]).Some?
    requires ParseInt(FlaskDecode(w.dir.names[k]).value.id) == ParseInt(backendId)
    requires FlaskDeleteSpec(w, backendId).result == Ok(NoneReply)
    requires FirstWithId(w.dir.names, backendId).value.value != w.dir.names[k]
    ensures w.dir.names[k] in FlaskDeleteSpec(w, backendId).world.dir.names
    ensures FlaskDeleteSpec(FlaskDeleteSpec(w, backendId).world, backendId).result != Err(NotFound)
  {
    FlaskDeleteRemovesFirstMatch(w, backendId);
    var n := FirstWithId(w.dir.names, backendId).value.value;
    var after := FlaskDeleteSpec(w, backendId).world.dir.names;
    assert w.dir.names[k] in after;
    var k2 :| 0 <= k2 < |after| && after[k2] == w.dir.names[k];
    FlaskDeleteNotFound(FlaskDeleteSpec(w, backendId).world, backendId);
  }
}
