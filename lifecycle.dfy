/**
 * Creating, deleting and re-creating backends in the FastAPI generation. Each operation is a
 * function from the state before to the result and the state after, and a method that changes
 * the directory and the proxy in place and is proved to do what the function says.
 */
module Lifecycle {
  import opened Base
  import opened Text
  import opened Serializers
  import opened Storage
  import opened Codec
  import opened Registry
  import opened Upstream
  import opened Allocation
  import opened Patterns

  /** delete_backend: `id` is `int(backend_id)`, None when that conversion raises. */
  function DeleteSpec(w: World, id: Option<int>): Outcome<bool>
  {
    match ValidNames(w.dir)
    case None => Outcome(Ok(false), w)
    case Some(valid) =>
      if valid == [] then Outcome(Ok(false), w)
      else match FilterById(valid, id)
        case Err(e) => Outcome(Err(e), w)
        case Ok(matching) =>
          if |matching| == 0 then Outcome(Err(NotFound), w)
          else if |matching| > 1 then Outcome(Err(ServerError(MultipleFiles)), w)
          else if CanRemove(w.dir, matching[0]) then
            Outcome(Ok(true), World(AfterRemove(w.dir, matching[0]), w.reloads + 1))
          else Outcome(Err(ServerError(RemoveFailed)), w)
  }

  /** delete_backend. */
  method DeleteBackend(d: Directory, p: Proxy, id: Option<int>) returns (r: Result<bool>)
    modifies d, p
    ensures var o := DeleteSpec(World(old(d.View()), old(p.reloads)), id);
      r == o.result && d.View() == o.world.dir && p.reloads == o.world.reloads
    ensures old(d.Valid()) ==> d.Valid()
  {
    var valid := GetValidBackendFilenames(d);
    if valid.None? || valid.value == [] {
      return Ok(false);
    }
    var matching := FilterById(valid.value, id);
    if matching.Err? {
      return Err(matching.error);
    }
    if |matching.value| == 0 {
      return Err(NotFound);
    }
    if |matching.value| > 1 {
      return Err(ServerError(MultipleFiles));
    }
    var removed := d.RemoveFile(matching.value[0]);
    if !removed {
      return Err(ServerError(RemoveFailed));
    }
    p.Reload();
    return Ok(true);
  }

  /** A listed name that matches the filename pattern and whose id field is `id`. */
  predicate IsFileOf(v: DirView, n: string, id: Option<int>)
  {
    n in v.names && Matches(n) && IdField(n) == id
  }

  /** delete_backend returns false exactly when the directory is missing or no listed name matches the pattern. */
  lemma DeleteFalseIffNoValidName(w: World, id: Option<int>)
    requires WellFormed(w.dir)
    ensures DeleteSpec(w, id).result == Ok(false) <==>
      !w.dir.present || forall i :: 0 <= i < |w.dir.names| ==> !Matches(w.dir.names[i])
  {
    var v := w.dir;
    if v.present && |v.names| > 0 {
      var valid := MatchingNames(v.names);
      assert forall i :: 0 <= i < |v.names| ==> (v.names[i] in valid <==> Matches(v.names[i]));
      assert valid == [] || valid[0] in valid;
    }
  }

  /** The files of the id are, by name, what filter_backend_filenames_by_id keeps of the valid names. */
  lemma FilesOfId(w: World, id: Option<int>)
    requires w.dir.present && |w.dir.names| > 0
    requires FilterById(MatchingNames(w.dir.names), id).Ok?
    ensures forall n :: IsFileOf(w.dir, n, id) <==> n in FilterById(MatchingNames(w.dir.names), id).value
  {
    FilterByIdMeaning(MatchingNames(w.dir.names), id);
  }

  /** NotFound means no listed file has the id. */
  lemma DeleteNotFoundMeaning(w: World, id: Option<int>)
    requires WellFormed(w.dir)
    ensures DeleteSpec(w, id).result == Err(NotFound) ==> forall n :: !IsFileOf(w.dir, n, id)
  {
    if DeleteSpec(w, id).result == Err(NotFound) {
      var valid := MatchingNames(w.dir.names);
      assert ValidNames(w.dir) == Some(valid);
      assert FilterById(valid, id).Ok?;
      FilesOfId(w, id);
    }
  }

  /** The refusal for many files means two different listed files have the id. */
  lemma DeleteMultipleMeaning(w: World, id: Option<int>)
    requires WellFormed(w.dir)
    ensures DeleteSpec(w, id).result == Err(ServerError(MultipleFiles)) ==>
      exists n1, n2 :: n1 != n2 && IsFileOf(w.dir, n1, id) && IsFileOf(w.dir, n2, id)
  {
    if DeleteSpec(w, id).result == Err(ServerError(MultipleFiles)) {
      var valid := MatchingNames(w.dir.names);
      assert ValidNames(w.dir) == Some(valid);
      assert FilterById(valid, id).Ok?;
      var matching := FilterById(valid, id).value;
      FilesOfId(w, id);
      MatchingNamesDistinct(w.dir.names);
      FilterByIdDistinct(valid, id);
      assert matching[0] in matching && matching[1] in matching && matching[0] != matching[1];
    }
  }

  /** The one name a successful delete removes: the single validly named file of the id. */
  function RemovedName(w: World, id: Option<int>): string
    requires DeleteSpec(w, id).result == Ok(true)
  {
    FilterById(MatchingNames(w.dir.names), id).value[0]
  }

  /** How a successful delete arises: exactly one validly named file has the id, and it was removed. */
  lemma DeleteSuccessShape(w: World, id: Option<int>)
    requires DeleteSpec(w, id).result == Ok(true)
    ensures FilterById(MatchingNames(w.dir.names), id) == Ok([RemovedName(w, id)])
    ensures DeleteSpec(w, id).world == World(AfterRemove(w.dir, RemovedName(w, id)), w.reloads + 1)
  {
    var valid := MatchingNames(w.dir.names);
    assert ValidNames(w.dir) == Some(valid);
    assert FilterById(valid, id).Ok?;
    var matching := FilterById(valid, id).value;
    assert |matching| == 1;
    assert matching == [matching[0]];
  }

  /** Success means the one listed file with the id was removed, nothing else changed, and the proxy was reloaded once. */
  lemma DeleteRemovesOnlyMatch(w: World, id: Option<int>)
    requires WellFormed(w.dir)
    ensures DeleteSpec(w, id).result == Ok(true) ==>
      exists n :: IsFileOf(w.dir, n, id) && (forall m :: IsFileOf(w.dir, m, id) ==> m == n)
        && DeleteSpec(w, id).world == World(AfterRemove(w.dir, n), w.reloads + 1)
        && |DeleteSpec(w, id).world.dir.names| == |w.dir.names| - 1
  {
    if DeleteSpec(w, id).result == Ok(true) {
      DeleteSuccessShape(w, id);
      var n := RemovedName(w, id);
      FilterByIdMeaning(MatchingNames(w.dir.names), id);
      assert forall m :: IsFileOf(w.dir, m, id) ==> m in [n];
      assert IsFileOf(w.dir, n, id);
      WithoutListed(w.dir.names, n);
    }
  }

  /** A delete that does not succeed changes nothing, and every delete keeps the directory well formed. */
  lemma DeleteFrame(w: World, id: Option<int>)
    requires WellFormed(w.dir)
    ensures DeleteSpec(w, id).result != Ok(true) ==> DeleteSpec(w, id).world == w
    ensures WellFormed(DeleteSpec(w, id).world.dir)
  {
    var o := DeleteSpec(w, id);
    if o.result == Ok(true) {
      var valid := MatchingNames(w.dir.names);
      assert ValidNames(w.dir) == Some(valid);
      assert FilterById(valid, id).Ok?;
      var matching := FilterById(valid, id).value;
      ChangesKeepWellFormed(w.dir, matching[0], "");
    }
  }

  /**
   * The "0 / 1 / many" guard of delete_backend. It returns false exactly when no listed name
   * matches the pattern. It raises NotFound when names match but none has the id, and refuses
   * when two or more do. It succeeds only by removing the one file with the id, nothing else,
   * and reloading once. A call that does not succeed changes nothing.
   */
  lemma DeleteGuard(w: World, id: Option<int>)
    requires WellFormed(w.dir)
    ensures var o := DeleteSpec(w, id);
      && (o.result == Ok(false) <==> !w.dir.present || forall i :: 0 <= i < |w.dir.names| ==> !Matches(w.dir.names[i]))
      && (o.result == Err(NotFound) ==> forall n :: !IsFileOf(w.dir, n, id))
      && (o.result == Err(ServerError(MultipleFiles)) ==>
            exists n1, n2 :: n1 != n2 && IsFileOf(w.dir, n1, id) && IsFileOf(w.dir, n2, id))
      && (o.result == Ok(true) ==>
            exists n :: IsFileOf(w.dir, n, id) && (forall m :: IsFileOf(w.dir, m, id) ==> m == n)
              && o.world == World(AfterRemove(w.dir, n), w.reloads + 1)
              && |o.world.dir.names| == |w.dir.names| - 1)
      && (o.result != Ok(true) ==> o.world == w)
      && WellFormed(o.world.dir)
  {
    DeleteFalseIffNoValidName(w, id);
    DeleteNotFoundMeaning(w, id);
    DeleteMultipleMeaning(w, id);
    DeleteRemovesOnlyMatch(w, id);
    DeleteFrame(w, id);
  }

  /** The matching names of a listing without repeats have no repeats. */
  lemma {:induction false} MatchingNamesDistinct(names: seq<string>)
    requires Distinct(names)
    ensures Distinct(MatchingNames(names))
  {
    if names != [] {
      var init := names[..|names| - 1];
      assert Distinct(init);
      MatchingNamesDistinct(init);
      assert names[|names| - 1] !in init;
    }
  }

  /** Filtering by id keeps a list without repeats free of them. */
  lemma {:induction false} FilterByIdDistinct(names: seq<string>, id: Option<int>)
    requires Distinct(names) && FilterById(names, id).Ok?
    ensures Distinct(FilterById(names, id).value)
  {
    if names != [] {
      assert Distinct(names[1..]);
      FilterByIdDistinct(names[1..], id);
      FilterByIdMeaning(names[1..], id);
      assert names[0] !in names[1..];
    }
  }

  /**
   * When the requested id and the id field of every validly named file parse, and no file has the
   * id, delete_backend raises NotFound, or returns false when no name is valid at all.
   */
  lemma DeleteWithoutFileOfId(w: World, id: Option<int>)
    requires WellFormed(w.dir) && id.Some?
    requires forall n :: n in w.dir.names && Matches(n) ==> IdField(n).Some?
    requires forall n :: !IsFileOf(w.dir, n, id)
    ensures DeleteSpec(w, id).result in {Err(NotFound), Ok(false)}
  {
    if w.dir.present && |w.dir.names| > 0 {
      var valid := MatchingNames(w.dir.names);
      assert ValidNames(w.dir) == Some(valid);
      FilterByIdMeaning(valid, id);
      assert FilterById(valid, id).Ok?;
      var rest := FilterById(valid, id).value;
      assert forall m :: m in rest ==> IsFileOf(w.dir, m, id);
      assert forall m :: m !in rest;
      Seqs.EmptyWhenNoMember(rest);
    }
  }

  /**
   * Deleting twice: after a successful delete the id names no file any more, so a second delete
   * raises NotFound, or returns false when no validly named file is left at all.
   */
  lemma DeleteTwice(w: World, id: Option<int>)
    requires WellFormed(w.dir) && DeleteSpec(w, id).result == Ok(true)
    ensures var w2 := DeleteSpec(w, id).world;
      && DeleteSpec(w2, id).result in {Err(NotFound), Ok(false)}
      && (DeleteSpec(w2, id).result == Ok(false) <==> forall i :: 0 <= i < |w2.dir.names| ==> !Matches(w2.dir.names[i]))
  {
    DeleteRemovesOnlyMatch(w, id);
    DeleteFrame(w, id);
    DeleteParsedIds(w, id);
    var w2 := DeleteSpec(w, id).world;
    var n :| IsFileOf(w.dir, n, id) && (forall m :: IsFileOf(w.dir, m, id) ==> m == n)
      && w2 == World(AfterRemove(w.dir, n), w.reloads + 1);
    NoFileOfIdAfterRemove(w.dir, n, id);
    DeleteWithoutFileOfId(w2, id);
    DeleteFalseIffNoValidName(w2, id);
  }

  /** A successful delete has seen the requested id and every valid name's id parse. */
  lemma DeleteParsedIds(w: World, id: Option<int>)
    requires WellFormed(w.dir) && DeleteSpec(w, id).result == Ok(true)
    ensures id.Some?
    ensures forall n :: n in w.dir.names && Matches(n) ==> IdField(n).Some?
  {
    var valid := MatchingNames(w.dir.names);
    assert ValidNames(w.dir) == Some(valid);
    FilterByIdMeaning(valid, id);
  }

  /** Once the only file of an id is removed, no listed file has that id. */
  lemma NoFileOfIdAfterRemove(v: DirView, n: string, id: Option<int>)
    requires forall m :: IsFileOf(v, m, id) ==> m == n
    ensures forall m :: !IsFileOf(AfterRemove(v, n), m, id)
    ensures forall m :: m in AfterRemove(v, n).names ==> m in v.names
  {
    forall m ensures !IsFileOf(AfterRemove(v, n), m, id) {
      if m in AfterRemove(v, n).names {
        assert m in v.names && m != n;
        assert !IsFileOf(v, m, id);
      }
    }
  }

  /**
   * delete_backend called once per member of a group, in order; a call that returns false makes
   * the result false but the loop goes on, and a call that raises ends it.
   */
  function DeleteEach(w: World, members: seq<BackendOut>, success: bool): Outcome<bool>
    decreases |members|
  {
    if members == [] then Outcome(Ok(success), w)
    else
      var o := DeleteSpec(w, ParseInt(members[0].id));
      match o.result
      case Err(e) => Outcome(Err(e), o.world)
      case Ok(deleted) => DeleteEach(o.world, members[1..], success && deleted)
  }

  /** The backends whose file names `upstream` as raw proxy_pass, or the error of get_backends_upstream_urls. */
  function DuplicatesOf(v: DirView, upstream: string): Result<seq<BackendOut>>
  {
    match UpstreamGroups(v)
    case Err(e) => Err(e)
    case Ok(groups) => Ok(if upstream in groups then groups[upstream] else [])
  }

  /** delete_duplicate_backends. */
  function DeleteDuplicatesSpec(w: World, upstream: string): Outcome<bool>
  {
    match DuplicatesOf(w.dir, upstream)
    case Err(e) => Outcome(Err(e), w)
    case Ok(members) => DeleteEach(w, members, true)
  }

  /**
   * Deleting a group removes one file and reloads once per call that returned true. The result
   * is true exactly when the flag was still set and every member's call removed a file.
   */
  lemma {:induction false} DeleteEachCounts(w: World, members: seq<BackendOut>, success: bool)
    requires WellFormed(w.dir)
    ensures var o := DeleteEach(w, members, success);
      && WellFormed(o.world.dir)
      && o.world.reloads >= w.reloads
      && |w.dir.names| - |o.world.dir.names| == o.world.reloads - w.reloads
      && (o.result.Ok? ==> o.world.reloads - w.reloads <= |members|)
      && (o.result.Ok? ==> (o.result.value <==> success && o.world.reloads == w.reloads + |members|))
    decreases |members|
  {
    if members != [] {
      var o1 := DeleteSpec(w, ParseInt(members[0].id));
      DeleteGuard(w, ParseInt(members[0].id));
      if o1.result.Ok? {
        DeleteEachCounts(o1.world, members[1..], success && o1.result.value);
      }
    }
  }

  /** Removing a group's duplicates leaves a well-formed directory well formed, whatever it answers. */
  lemma DeleteDuplicatesKeepWellFormed(w: World, upstream: string)
    requires WellFormed(w.dir)
    ensures WellFormed(DeleteDuplicatesSpec(w, upstream).world.dir)
  {
    if DuplicatesOf(w.dir, upstream).Ok? {
      DeleteEachCounts(w, DuplicatesOf(w.dir, upstream).value, true);
    }
  }

  /** delete_duplicate_backends, calling delete_backend for each member of the group. */
  method DeleteDuplicateBackends(d: Directory, p: Proxy, upstream: string) returns (r: Result<bool>)
    modifies d, p
    ensures var o := DeleteDuplicatesSpec(World(old(d.View()), old(p.reloads)), upstream);
      r == o.result && d.View() == o.world.dir && p.reloads == o.world.reloads
    ensures old(d.Valid()) ==> d.Valid()
  {
    var groups := GetBackendsUpstreamUrls(d);
    if groups.Err? {
      return Err(groups.error);
    }
    var members := if upstream in groups.value then groups.value[upstream] else [];
    ghost var w0 := World(d.View(), p.reloads);
    var success := true;
    var i := 0;
    while i < |members|
      invariant 0 <= i <= |members|
      invariant DeleteEach(w0, members, true) == DeleteEach(World(d.View(), p.reloads), members[i..], success)
    {
      ghost var wi := World(d.View(), p.reloads);
      var deleted := DeleteBackend(d, p, ParseInt(members[i].id));
      assert members[i..][1..] == members[i + 1..];
      if deleted.Err? {
        if old(d.Valid()) {
          DeleteDuplicatesKeepWellFormed(World(old(d.View()), old(p.reloads)), upstream);
        }
        return Err(deleted.error);
      }
      success := success && deleted.value;
      i := i + 1;
    }
    if old(d.Valid()) {
      DeleteDuplicatesKeepWellFormed(World(old(d.View()), old(p.reloads)), upstream);
    }
    return Ok(success);
  }

  /** The collaborator that renders a backend's configuration from its template and a suffix; None when it cannot. */
  type Renderer = (BackendTemp, string) -> Option<string>

  /** The id and location URL an update passes to keep them. */
  datatype Pin = Pin(id: string, locationUrl: string)

  /** A payload with its id set, and the suffix chosen for it. */
  datatype Assigned = Assigned(temp: BackendTemp, suffix: string)

  /**
   * set_backend_id_and_suffix_for: a pinned id and the second '_'-field of the pinned location
   * URL, or a freshly drawn id and the next free suffix.
   */
  function IdAndSuffix(v: DirView, t: BackendTemp, pin: Option<Pin>, drawn: nat): Result<Assigned>
  {
    match pin
    case Some(p) =>
      var parts := Split(p.locationUrl, '_');
      if |parts| < 2 then Err(IndexError) else Ok(Assigned(t.(id := Some(p.id)), parts[1]))
    case None =>
      match SuffixSpec(v, t.userKeyUrl)
      case Err(e) => Err(e)
      case Ok(s) => Ok(Assigned(t.(id := Some(IntToString(drawn))), s))
  }

  /** The name of the file create_backend writes for a payload with id and location set. */
  function NewFileName(payload: BackendIn, id: string, locationUrl: string): string
  {
    FileNameOf(id, payload.owner, locationUrl, payload.template, payload.templateVersion, payload.authEnabled)
  }

  /** create_backend; `drawn` is the random id, used when nothing is pinned. */
  function CreateSpec(w: World, payload: BackendIn, pin: Option<Pin>, drawn: nat, render: Renderer): Outcome<BackendTemp>
  {
    match IdAndSuffix(w.dir, TempOf(payload), pin, drawn)
    case Err(e) => Outcome(Err(e), w)
    case Ok(a) =>
      var text := render(a.temp, a.suffix);
      if text.None? || text.value == "" then Outcome(Err(ServerError(TemplateFailed)), w)
      else
        var location := payload.userKeyUrl + "_" + a.suffix;
        var t := a.temp.(locationUrl := Some(location));
        var o := DeleteDuplicatesSpec(w, payload.upstreamUrl);
        match o.result
        case Err(e) => Outcome(Err(e), o.world)
        case Ok(deleted) =>
          if !deleted then Outcome(Err(ServerError(DuplicatesNotDeleted)), o.world)
          else
            var name := NewFileName(payload, t.id.value, location);
            if CanWrite(o.world.dir) then
              Outcome(Ok(t), World(AfterWrite(o.world.dir, name, text.value), o.world.reloads + 1))
            else Outcome(Err(OSError), o.world)
  }

  /** create_backend. */
  method CreateBackend(d: Directory, p: Proxy, payload: BackendIn, pin: Option<Pin>, render: Renderer)
    returns (r: Result<BackendTemp>, ghost drawn: nat)
    modifies d, p
    ensures pin.None? ==> Pow10(9) <= drawn <= Pow10(10) - 1
    ensures var o := CreateSpec(World(old(d.View()), old(p.reloads)), payload, pin, drawn, render);
      r == o.result && d.View() == o.world.dir && p.reloads == o.world.reloads
    ensures old(d.Valid()) ==> d.Valid()
  {
    var t := TempOf(payload);
    var suffix: string;
    drawn := Pow10(9);
    if pin.Some? {
      t := t.(id := Some(pin.value.id));
      var parts := Split(pin.value.locationUrl, '_');
      if |parts| < 2 {
        return Err(IndexError), drawn;
      }
      suffix := parts[1];
    } else {
      var x := RandomWithNDigits(10);
      drawn := x;
      t := t.(id := Some(IntToString(x)));
      var s := GenerateSuffixNumber(d, t.userKeyUrl);
      if s.Err? {
        return Err(s.error), drawn;
      }
      suffix := s.value;
    }
    var text := render(t, suffix);
    if text.None? || text.value == "" {
      return Err(ServerError(TemplateFailed)), drawn;
    }
    t := t.(locationUrl := Some(payload.userKeyUrl + "_" + suffix));
    var deleted := DeleteDuplicateBackends(d, p, payload.upstreamUrl);
    if deleted.Err? {
      return Err(deleted.error), drawn;
    }
    if !deleted.value {
      return Err(ServerError(DuplicatesNotDeleted)), drawn;
    }
    var name := NewFileName(payload, t.id.value, t.locationUrl.value);
    var written := d.WriteFile(name, text.value);
    if !written {
      return Err(OSError), drawn;
    }
    p.Reload();
    return Ok(t), drawn;
  }

  /**
   * build_payload_for_auth_update: the stripped upstream of the record's file and the base key of
   * its location URL, validated as a new request; None when either is missing or invalid.
   */
  function BuildPayload(v: DirView, b: BackendOut, auth: bool): Option<BackendIn>
  {
    var upstream := match ProxyPassOf(v, b) case None => None case Some(pp) => Some(StripPath(pp));
    var key := BaseKey(b.locationUrl);
    if upstream.None? || upstream.value == "" || key == "" then None
    else match NewBackendIn(b.owner, b.template, b.templateVersion, key, upstream.value, auth)
      case Err(_) => None
      case Ok(payload) => Some(payload)
  }

  /**
   * convert_backend_temp_to_out: the BackendOut built from the temp's fields and the path
   * get_file_path_by_id finds; None when anything raises, the validation included.
   */
  function ConvertSpec(v: DirView, t: BackendTemp): Option<BackendOut>
  {
    if t.id.None? || t.owner.None? || t.locationUrl.None? || t.template.None?
       || t.templateVersion.None? || t.authEnabled.None? then None
    else match ParseInt(t.id.value)
      case None => None
      case Some(k) =>
        match BackendById(v, k)
        case Err(_) => None
        case Ok(found) =>
          match NewBackendOut(t.id.value, t.owner.value, t.locationUrl.value, t.template.value,
                              t.templateVersion.value, t.authEnabled.value, found.filePath)
          case Err(_) => None
          case Ok(out) => Some(out)
  }

  /** convert_backend_temp_to_out. */
  method ConvertBackendTempToOut(d: Directory, t: BackendTemp) returns (r: Option<BackendOut>)
    ensures r == ConvertSpec(d.View(), t)
  {
    if t.id.None? || t.owner.None? || t.locationUrl.None? || t.template.None?
       || t.templateVersion.None? || t.authEnabled.None? {
      return None;
    }
    var k := ParseInt(t.id.value);
    if k.None? {
      return None;
    }
    var path := GetFilePathById(d, k.value);
    if path.Err? {
      return None;
    }
    var out := NewBackendOut(t.id.value, t.owner.value, t.locationUrl.value, t.template.value,
                             t.templateVersion.value, t.authEnabled.value, path.value);
    if out.Err? {
      return None;
    }
    return Some(out.value);
  }

  /** With an id and suffix pinned, create_backend draws no random id: the draw does not matter. */
  lemma PinnedCreateIgnoresDraw(w: World, payload: BackendIn, pin: Pin, drawn: nat, render: Renderer)
    ensures CreateSpec(w, payload, Some(pin), drawn, render) == CreateSpec(w, payload, Some(pin), 0, render)
  {
  }

  /** What update_backend_authorization returns once create_backend has run. */
  function Converted(o: Outcome<BackendTemp>): Outcome<Option<BackendOut>>
  {
    match o.result
    case Err(e) => Outcome(Err(e), o.world)
    case Ok(t) => Outcome(Ok(ConvertSpec(o.world.dir, t)), o.world)
  }

  /** update_backend_authorization: re-create the backend with its id and suffix pinned and the new flag. */
  function UpdateAuthSpec(w: World, backendId: int, auth: bool, render: Renderer): Outcome<Option<BackendOut>>
  {
    match BackendById(w.dir, backendId)
    case Err(e) => Outcome(Err(e), w)
    case Ok(b) =>
      match BuildPayload(w.dir, b, auth)
      case None => Outcome(Ok(None), w)
      case Some(payload) =>
        Converted(CreateSpec(w, payload, Some(Pin(IntToString(backendId), b.locationUrl)), 0, render))
  }

  /** update_backend_authorization. */
  method UpdateBackendAuthorization(d: Directory, p: Proxy, backendId: int, auth: bool, render: Renderer)
    returns (r: Result<Option<BackendOut>>)
    modifies d, p
    ensures var o := UpdateAuthSpec(World(old(d.View()), old(p.reloads)), backendId, auth, render);
      r == o.result && d.View() == o.world.dir && p.reloads == o.world.reloads
    ensures old(d.Valid()) ==> d.Valid()
  {
    var found := GetBackendById(d, backendId);
    if found.Err? {
      return Err(found.error);
    }
    var b := found.value;
    var payload := BuildPayload(d.View(), b, auth);
    if payload.None? {
      return Ok(None);
    }
    ghost var w0 := World(d.View(), p.reloads);
    var pin := Pin(IntToString(backendId), b.locationUrl);
    var created, drawn := CreateBackend(d, p, payload.value, Some(pin), render);
    PinnedCreateIgnoresDraw(w0, payload.value, pin, drawn, render);
    if created.Err? {
      return Err(created.error);
    }
    var out := ConvertBackendTempToOut(d, created.value);
    return Ok(out);
  }

  /** The request an update builds: the record's owner, template and version, its base key, the stripped upstream and the new flag. */
  lemma BuildPayloadMeaning(v: DirView, b: BackendOut, auth: bool)
    requires BuildPayload(v, b, auth).Some?
    ensures var p := BuildPayload(v, b, auth).value;
      && ProxyPassOf(v, b).Some?
      && p == BackendIn(b.owner, b.template, b.templateVersion, BaseKey(b.locationUrl), StripPath(ProxyPassOf(v, b).value), auth)
      && IsValidOwner(b.owner) && IsValidUserKeyUrl(BaseKey(b.locationUrl)) && MatchesUpstreamUrl(p.upstreamUrl)
  {
  }

  /**
   * Once id and suffix are assigned, the template renders, no duplicate had to be deleted and the
   * directory may be written, create_backend writes the payload's file and reloads once.
   */
  lemma CreateWritesWhenClear(w: World, payload: BackendIn, pin: Option<Pin>, drawn: nat, render: Renderer, a: Assigned)
    requires IdAndSuffix(w.dir, TempOf(payload), pin, drawn) == Ok(a)
    requires render(a.temp, a.suffix).Some? && render(a.temp, a.suffix).value != ""
    requires DeleteDuplicatesSpec(w, payload.upstreamUrl) == Outcome(Ok(true), w)
    requires CanWrite(w.dir)
    ensures var location := payload.userKeyUrl + "_" + a.suffix;
      CreateSpec(w, payload, pin, drawn, render)
        == Outcome(Ok(a.temp.(locationUrl := Some(location))),
                   World(AfterWrite(w.dir, NewFileName(payload, a.temp.id.value, location), render(a.temp, a.suffix).value),
                         w.reloads + 1))
  {
  }

  /** A create that succeeds returns the payload with the assigned id and the location `key_suffix`. */
  lemma CreateResultShape(w: World, payload: BackendIn, pin: Option<Pin>, drawn: nat, render: Renderer)
    requires CreateSpec(w, payload, pin, drawn, render).result.Ok?
    ensures IdAndSuffix(w.dir, TempOf(payload), pin, drawn).Ok?
    ensures var a := IdAndSuffix(w.dir, TempOf(payload), pin, drawn).value;
      CreateSpec(w, payload, pin, drawn, render).result.value
        == a.temp.(locationUrl := Some(payload.userKeyUrl + "_" + a.suffix))
  {
  }

  /**
   * A successful update returns the old record with only its flag changed: the id is the requested
   * one, and owner, location URL, template and version are those of the record found.
   */
  lemma UpdateKeepsRecord(w: World, backendId: int, auth: bool, render: Renderer)
    requires UpdateAuthSpec(w, backendId, auth, render).result.Ok?
    requires UpdateAuthSpec(w, backendId, auth, render).result.value.Some?
    ensures BackendById(w.dir, backendId).Ok?
    ensures var b := BackendById(w.dir, backendId).value;
      var r := UpdateAuthSpec(w, backendId, auth, render).result.value.value;
      && ParseInt(r.id) == Some(backendId)
      && r.owner == b.owner && r.locationUrl == b.locationUrl
      && r.template == b.template && r.templateVersion == b.templateVersion
      && r.authEnabled == auth
  {
    var b := BackendById(w.dir, backendId).value;
    var payload := BuildPayload(w.dir, b, auth).value;
    BuildPayloadMeaning(w.dir, b, auth);
    UserKeyUrlHasNoSeparators(BaseKey(b.locationUrl));
    var pin := Some(Pin(IntToString(backendId), b.locationUrl));
    var o := CreateSpec(w, payload, pin, 0, render);
    assert UpdateAuthSpec(w, backendId, auth, render) == Converted(o);
    CreateResultShape(w, payload, pin, 0, render);
    assert |Split(b.locationUrl, '_')| >= 2;
    LocationOfBaseKey(b.locationUrl);
    assert o.result.value.locationUrl == Some(b.locationUrl);
    ParseIntToString(backendId);
  }

  /** A file written into a writable directory is listed, and get_backends then returns its record when its name decodes. */
  lemma WrittenFileIsListed(v: DirView, name: string, text: string, b: BackendOut)
    requires CanWrite(v) && Decode(v.path, name) == Some(b)
    ensures b in Backends(AfterWrite(v, name, text))
  {
    var v2 := AfterWrite(v, name, text);
    assert name in v2.names;
    var i :| 0 <= i < |v2.names| && v2.names[i] == name;
    ScanMembership(v2.path, v2.names, b);
  }

  /**
   * How a fresh create succeeds: the drawn id and the key with the allocated suffix are set, and
   * the text the template renders for them is written, under the name that encodes the record,
   * into the directory left after duplicate removal.
   */
  lemma FreshCreateShape(w: World, payload: BackendIn, drawn: nat, render: Renderer)
    requires CreateSpec(w, payload, None, drawn, render).result.Ok?
    ensures SuffixSpec(w.dir, Some(payload.userKeyUrl)).Ok?
    ensures var suffix := SuffixSpec(w.dir, Some(payload.userKeyUrl)).value;
      var location := payload.userKeyUrl + "_" + suffix;
      var t := TempOf(payload).(id := Some(IntToString(drawn)));
      var o := CreateSpec(w, payload, None, drawn, render);
      var d := DeleteDuplicatesSpec(w, payload.upstreamUrl).world;
      && o.result.value == t.(locationUrl := Some(location))
      && CanWrite(d.dir)
      && render(t, suffix).Some? && render(t, suffix).value != ""
      && o.world == World(AfterWrite(d.dir, NewFileName(payload, IntToString(drawn), location), render(t, suffix).value), d.reloads + 1)
  {
    var a := IdAndSuffix(w.dir, TempOf(payload), None, drawn).value;
    var text := render(a.temp, a.suffix).value;
    var location := payload.userKeyUrl + "_" + a.suffix;
    var d := DeleteDuplicatesSpec(w, payload.upstreamUrl).world;
    assert CreateSpec(w, payload, None, drawn, render).world
      == World(AfterWrite(d.dir, NewFileName(payload, IntToString(drawn), location), text), d.reloads + 1);
  }

  /** The file a create writes for an encodable record is listed afterwards as that record. */
  lemma NewFileIsListed(v: DirView, payload: BackendIn, id: string, location: string, text: string)
    requires CanWrite(v) && AllDigits(id)
    requires forall i :: 0 <= i < |payload.owner| ==> IsNameOwnerChar(payload.owner[i])
    requires '%' !in location && '%' !in payload.template && '%' !in payload.templateVersion
    ensures exists b ::
              && b in Backends(AfterWrite(v, NewFileName(payload, id, location), text))
              && b.id == id && b.owner == payload.owner && b.locationUrl == location
              && b.template == payload.template && b.templateVersion == payload.templateVersion
              && b.authEnabled == payload.authEnabled
  {
    var b := BackendOut(id, payload.owner, location, payload.template, payload.templateVersion,
                        payload.authEnabled, "");
    var name := NewFileName(payload, id, location);
    assert name == FileName(b);
    DecodeFileName(v.path, b);
    WrittenFileIsListed(v, name, text, b.(filePath := JoinPath(v.path, name)));
  }

  /**
   * A fresh create that succeeds returns a record with a ten-digit id and the key with a numeric
   * suffix as location URL. When the owner is made of filename-pattern characters and template and
   * version hold no '%', the scan afterwards finds a record with exactly those fields, which
   * BackendOut accepts exactly when it accepts the request's owner.
   */
  lemma CreatedBackendIsListed(w: World, payload: BackendIn, drawn: nat, render: Renderer)
    requires CreateSpec(w, payload, None, drawn, render).result.Ok?
    requires Pow10(9) <= drawn <= Pow10(10) - 1
    requires IsValidUserKeyUrl(payload.userKeyUrl)
    requires forall i :: 0 <= i < |payload.owner| ==> IsNameOwnerChar(payload.owner[i])
    requires '%' !in payload.template && '%' !in payload.templateVersion
    ensures var o := CreateSpec(w, payload, None, drawn, render);
      var t := o.result.value;
      && t.id == Some(IntToString(drawn)) && |t.id.value| == 10 && ParseInt(t.id.value) == Some(drawn)
      && t.locationUrl.Some? && BaseKey(t.locationUrl.value) == payload.userKeyUrl
      && exists b ::
           && b in Backends(o.world.dir)
           && b.id == t.id.value && b.owner == payload.owner && b.locationUrl == t.locationUrl.value
           && b.template == payload.template && b.templateVersion == payload.templateVersion
           && b.authEnabled == payload.authEnabled
           && (Revalidate(b).Ok? <==> IsValidOwner(payload.owner))
  {
    FreshCreateShape(w, payload, drawn, render);
    FreshIdShape(drawn);
    SuffixSpecMeaning(w.dir, Some(payload.userKeyUrl));
    var suffix := SuffixSpec(w.dir, Some(payload.userKeyUrl)).value;
    ParsedHasOnlyDigitsAndSigns(suffix, '%');
    ParsedHasOnlyDigitsAndSigns(suffix, '_');
    UserKeyUrlHasNoSeparators(payload.userKeyUrl);
    var location := payload.userKeyUrl + "_" + suffix;
    BaseKeyOfLocation(payload.userKeyUrl, suffix);
    var d := DeleteDuplicatesSpec(w, payload.upstreamUrl).world;
    var text := render(TempOf(payload).(id := Some(IntToString(drawn))), suffix).value;
    NewFileIsListed(d.dir, payload, IntToString(drawn), location, text);
  }
}
