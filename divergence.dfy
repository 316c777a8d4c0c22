/**
 * The authorization update re-creates a backend with its upstream stripped of any path, while
 * duplicate removal looks for the raw proxy_pass of the existing files. When the old file's
 * proxy_pass carries a path, the update therefore keeps the old file, writes a second file
 * with the same id (its name differs in the auth digit), and every later delete of that id is
 * refused because two files carry it.
 */
module Divergence {
  import opened Base
  import opened Text
  import opened Patterns
  import opened Serializers
  import opened Storage
  import opened Codec
  import opened Registry
  import opened Upstream
  import opened Lifecycle

  /**
   * A directory listing one encodable record's file is scanned into just that record, and
   * get_backends returns it when BackendOut accepts its owner and id.
   */
  lemma ScanOfOne(v: DirView, b: BackendOut)
    requires v.present && v.names == [FileName(b)] && Encodable(b)
    ensures Backends(v) == [b.(filePath := JoinPath(v.path, FileName(b)))]
    ensures IsValidOwner(b.owner) && ParseInt(b.id).Some? ==> Listed(v) == Ok(Backends(v))
  {
    DecodeFileName(v.path, b);
    assert v.names == [] + [FileName(b)];
    ListedMeaning(v);
  }

  /** The id field of an encodable record's file name is its id, read as a number. */
  lemma IdFieldOfFileName(b: BackendOut)
    requires Encodable(b)
    ensures Matches(FileName(b)) && IdField(FileName(b)) == ParseInt(b.id)
  {
    DecodeFileName("", b);
    assert forall i :: 0 <= i < |b.owner| ==> b.owner[i] != '%';
    assert forall i :: 0 <= i < |b.id| ==> b.id[i] != '%';
    SplitFileName(b);
  }

  /** The record an update writes when it pins the id and the old location and flips the flag. */
  function Rewritten(b: BackendOut, id: int, auth: bool): BackendOut
  {
    BackendOut(IntToString(id), b.owner, b.locationUrl, b.template, b.templateVersion, auth, "")
  }

  /** The rewritten record is encodable, and its file name differs from the old one when the flag changes. */
  lemma RewrittenIsNewFile(b: BackendOut, id: int, auth: bool)
    requires Encodable(b) && ParseInt(b.id) == Some(id) && auth != b.authEnabled
    ensures Encodable(Rewritten(b, id, auth))
    ensures FileName(Rewritten(b, id, auth)) != FileName(b)
    ensures IdField(FileName(Rewritten(b, id, auth))) == Some(id)
  {
    var b2 := Rewritten(b, id, auth);
    assert id >= 0;
    NatToStringDigits(id);
    assert Encodable(b2);
    DecodeFileName("", b);
    DecodeFileName("", b2);
    IdFieldOfFileName(b2);
    ParseIntToString(id);
  }

  /** Two validly named files of one id make delete_backend refuse. */
  lemma TwoFilesRefused(w: World, n1: string, n2: string, id: int)
    requires w.dir.present && w.dir.names == [n1, n2]
    requires Matches(n1) && Matches(n2) && IdField(n1) == Some(id) && IdField(n2) == Some(id)
    ensures DeleteSpec(w, Some(id)).result == Err(ServerError(MultipleFiles))
  {
    var names := [n1, n2];
    MatchingNamesKeepsAll(names);
    FilterByIdKeepsAll(names, id);
    assert ValidNames(w.dir) == Some(names);
  }

  /** The record the scan finds for the one file, with the path of that file. */
  function Found(v: DirView, b: BackendOut): BackendOut
  {
    b.(filePath := JoinPath(v.path, FileName(b)))
  }

  /** The request the update builds from the one record: same fields, base key, stripped upstream, new flag. */
  function Rebuilt(b: BackendOut, pp: string, auth: bool): BackendIn
  {
    BackendIn(b.owner, b.template, b.templateVersion, BaseKey(b.locationUrl), StripPath(pp), auth)
  }

  /** The update finds the one record and builds its request from it. */
  lemma UpdateBuildsRequest(v: DirView, b: BackendOut, id: int, pp: string, auth: bool)
    requires WellFormed(v) && v.present
    requires v.names == [FileName(b)] && Encodable(b) && ParseInt(b.id) == Some(id)
    requires ExtractProxyPass(v.files[FileName(b)]) == Some(pp)
    requires IsValidOwner(b.owner) && IsValidUserKeyUrl(BaseKey(b.locationUrl)) && MatchesUpstreamUrl(StripPath(pp))
    ensures BackendById(v, id) == Ok(Found(v, b))
    ensures BuildPayload(v, Found(v, b), auth) == Some(Rebuilt(b, pp, auth))
  {
    ScanOfOne(v, b);
    assert FileName(Found(v, b)) == FileName(b);
    UpstreamUrlShape(StripPath(pp));
  }

  /** With one file whose proxy_pass is not the stripped URL, duplicate removal for the stripped URL deletes nothing. */
  lemma StrippedUrlHasNoDuplicates(w: World, b: BackendOut, pp: string)
    requires WellFormed(w.dir) && w.dir.present
    requires w.dir.names == [FileName(b)] && Encodable(b) && IsValidOwner(b.owner) && ParseInt(b.id).Some?
    requires ExtractProxyPass(w.dir.files[FileName(b)]) == Some(pp) && StripPath(pp) != pp
    ensures DeleteDuplicatesSpec(w, StripPath(pp)) == Outcome(Ok(true), w)
  {
    ScanOfOne(w.dir, b);
    assert FileName(Found(w.dir, b)) == FileName(b);
    GroupsAreFilters(w.dir, Backends(w.dir), StripPath(pp));
    assert DuplicatesOf(w.dir, StripPath(pp)) == Ok([]);
  }

  /** The pinned create: with no duplicate to delete, it writes the rewritten record's file next to the old one. */
  lemma PinnedCreateWrites(w: World, b: BackendOut, id: int, pp: string, auth: bool, render: Renderer)
    requires WellFormed(w.dir) && w.dir.present && w.dir.writable
    requires w.dir.names == [FileName(b)] && Encodable(b) && ParseInt(b.id) == Some(id)
    requires DeleteDuplicatesSpec(w, StripPath(pp)) == Outcome(Ok(true), w)
    requires IsValidUserKeyUrl(BaseKey(b.locationUrl)) && |Split(b.locationUrl, '_')| >= 2
    requires forall t, s :: render(t, s).Some? && render(t, s).value != ""
    requires auth != b.authEnabled
    ensures var o := CreateSpec(w, Rebuilt(b, pp, auth), Some(Pin(IntToString(id), b.locationUrl)), 0, render);
      && o.result.Ok?
      && o.world.dir.present
      && o.world.dir.names == [FileName(b), FileName(Rewritten(b, id, auth))]
  {
    var payload := Rebuilt(b, pp, auth);
    UserKeyUrlHasNoSeparators(BaseKey(b.locationUrl));
    LocationOfBaseKey(b.locationUrl);
    RewrittenIsNewFile(b, id, auth);
    var suffix := Split(b.locationUrl, '_')[1];
    var t := TempOf(payload).(id := Some(IntToString(id)));
    var pin := Some(Pin(IntToString(id), b.locationUrl));
    assert IdAndSuffix(w.dir, TempOf(payload), pin, 0) == Ok(Assigned(t, suffix));
    var name := NewFileName(payload, IntToString(id), b.locationUrl);
    assert name == FileName(Rewritten(b, id, auth));
    assert payload.userKeyUrl + "_" + suffix == b.locationUrl;
    CreateWritesWhenClear(w, payload, pin, 0, render, Assigned(t, suffix));
  }

  /** After the pinned create, both files carry the id and a delete of the id is refused. */
  lemma BothFilesOfId(w2: World, b: BackendOut, id: int, auth: bool)
    requires w2.dir.present && w2.dir.names == [FileName(b), FileName(Rewritten(b, id, auth))]
    requires Encodable(b) && ParseInt(b.id) == Some(id) && auth != b.authEnabled
    ensures IsFileOf(w2.dir, FileName(b), Some(id))
    ensures IsFileOf(w2.dir, FileName(Rewritten(b, id, auth)), Some(id))
    ensures DeleteSpec(w2, Some(id)).result == Err(ServerError(MultipleFiles))
  {
    IdFieldOfFileName(b);
    RewrittenIsNewFile(b, id, auth);
    IdFieldOfFileName(Rewritten(b, id, auth));
    TwoFilesRefused(w2, FileName(b), FileName(Rewritten(b, id, auth)), id);
  }

  /**
   * The divergence. A directory holds one backend, whose proxy_pass has a path, and the update
   * flips the flag. The update succeeds, after which two listed files carry the backend's id,
   * and deleting the id is refused.
   */
  lemma UpdateLeavesTwoFiles(w: World, b: BackendOut, id: int, pp: string, auth: bool, render: Renderer)
    requires WellFormed(w.dir) && w.dir.present && w.dir.writable
    requires w.dir.names == [FileName(b)] && Encodable(b) && ParseInt(b.id) == Some(id)
    requires ExtractProxyPass(w.dir.files[FileName(b)]) == Some(pp) && StripPath(pp) != pp
    requires IsValidOwner(b.owner) && IsValidUserKeyUrl(BaseKey(b.locationUrl)) && MatchesUpstreamUrl(StripPath(pp))
    requires |Split(b.locationUrl, '_')| >= 2
    requires forall t, s :: render(t, s).Some? && render(t, s).value != ""
    requires auth != b.authEnabled
    ensures var o := UpdateAuthSpec(w, id, auth, render);
      && o.result.Ok?
      && o.world.dir.names == [FileName(b), FileName(Rewritten(b, id, auth))]
      && IsFileOf(o.world.dir, FileName(b), Some(id))
      && IsFileOf(o.world.dir, FileName(Rewritten(b, id, auth)), Some(id))
      && DeleteSpec(o.world, Some(id)).result == Err(ServerError(MultipleFiles))
  {
    UpdateBuildsRequest(w.dir, b, id, pp, auth);
    StrippedUrlHasNoDuplicates(w, b, pp);
    PinnedCreateWrites(w, b, id, pp, auth, render);
    var c := CreateSpec(w, Rebuilt(b, pp, auth), Some(Pin(IntToString(id), b.locationUrl)), 0, render);
    UpdateIsPinnedCreate(w, id, auth, render, Found(w.dir, b), Rebuilt(b, pp, auth));
    ConvertedKeepsWorld(c);
    BothFilesOfId(c.world, b, id, auth);
  }

  /** Converting the created record changes neither success nor the state reached. */
  lemma ConvertedKeepsWorld(o: Outcome<BackendTemp>)
    ensures Converted(o).world == o.world && Converted(o).result.Ok? == o.result.Ok?
  {
  }

  /** Once the record is found and its request built, an update is the pinned create. */
  lemma UpdateIsPinnedCreate(w: World, id: int, auth: bool, render: Renderer, b: BackendOut, payload: BackendIn)
    requires BackendById(w.dir, id) == Ok(b) && BuildPayload(w.dir, b, auth) == Some(payload)
    ensures UpdateAuthSpec(w, id, auth, render)
      == Converted(CreateSpec(w, payload, Some(Pin(IntToString(id), b.locationUrl)), 0, render))
  {
  }
}
