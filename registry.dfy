/** The FastAPI backend registry read back from the directory listing, and the lookups by id. */
module Registry {
  import opened Base
  import opened Text
  import opened Serializers
  import opened Storage
  import opened Codec
  import opened Seqs

  /** The records of the matching names of a listing, in listing order. */
  function Scan(path: string, names: seq<string>): (bs: seq<BackendOut>)
    ensures |bs| <= |names|
  {
    FilterMap((n: string) => Decode(path, n), names)
  }

  /**
   * The records the backend files of a directory name, before BackendOut validates them:
   * nothing for a missing or empty directory, the scan of the listing otherwise.
   */
  function Backends(v: DirView): seq<BackendOut>
  {
    if !v.present || |v.names| == 0 then [] else Scan(v.path, v.names)
  }

  /**
   * The `BackendOut(...)` calls of get_backends, one per scanned record in order: the records
   * when every one is accepted, otherwise the ValidationError of the first one rejected.
   */
  function Checked(bs: seq<BackendOut>): (r: Result<seq<BackendOut>>)
    ensures r.Ok? ==> r.value == bs
    ensures r.Err? ==> r.error.ValidationError?
  {
    if bs == [] then Ok([])
    else match Revalidate(bs[0])
      case Err(e) => Err(e)
      case Ok(_) =>
        match Checked(bs[1..])
        case Err(e) => Err(e)
        case Ok(rest) => Ok([bs[0]] + rest)
  }

  /**
   * The validation fails exactly when some record is rejected, and then with the error of the
   * first rejected record.
   */
  lemma {:induction false} CheckedMeaning(bs: seq<BackendOut>)
    ensures Checked(bs).Ok? <==> forall i :: 0 <= i < |bs| ==> Revalidate(bs[i]).Ok?
    ensures Checked(bs).Err? ==>
      exists i :: 0 <= i < |bs| && Revalidate(bs[i]).Err? && Checked(bs) == Err(Revalidate(bs[i]).error)
        && forall j :: 0 <= j < i ==> Revalidate(bs[j]).Ok?
  {
    if bs != [] {
      CheckedMeaning(bs[1..]);
      assert forall i :: 0 < i < |bs| ==> bs[i] == bs[1..][i - 1];
      if Revalidate(bs[0]).Ok? && Checked(bs[1..]).Err? {
        var i :| 0 <= i < |bs[1..]| && Revalidate(bs[1..][i]).Err? && Checked(bs[1..]) == Err(Revalidate(bs[1..][i]).error)
          && forall j :: 0 <= j < i ==> Revalidate(bs[1..][j]).Ok?;
        assert Revalidate(bs[i + 1]).Err? && Checked(bs) == Err(Revalidate(bs[i + 1]).error);
        assert forall j :: 0 <= j < i + 1 ==> Revalidate(bs[j]).Ok?;
      }
    }
  }

  /** Records that pass validation in front of others do not change the outcome of validating those. */
  lemma {:induction false} CheckedAfterValid(a: seq<BackendOut>, c: seq<BackendOut>)
    requires forall i :: 0 <= i < |a| ==> Revalidate(a[i]).Ok?
    ensures Checked(a + c) == if Checked(c).Ok? then Ok(a + c) else Checked(c)
  {
    if a != [] {
      assert forall i :: 0 <= i < |a[1..]| ==> a[1..][i] == a[i + 1];
      CheckedAfterValid(a[1..], c);
      assert (a + c)[1..] == a[1..] + c;
      assert (a + c)[0] == a[0];
    } else {
      assert a + c == c;
    }
  }

  /** get_backends: [] for a missing or empty directory, else every matching name rebuilt as a BackendOut. */
  function Listed(v: DirView): Result<seq<BackendOut>>
  {
    if !v.present || |v.names| == 0 then Ok([]) else Checked(Scan(v.path, v.names))
  }

  /**
   * get_backends answers the records the backend files name exactly when BackendOut accepts each
   * of them, and otherwise raises the ValidationError of the first one in listing order.
   */
  lemma ListedMeaning(v: DirView)
    ensures Listed(v).Ok? <==> forall i :: 0 <= i < |Backends(v)| ==> Revalidate(Backends(v)[i]).Ok?
    ensures Listed(v).Ok? ==> Listed(v).value == Backends(v)
    ensures Listed(v).Err? ==>
      exists i :: 0 <= i < |Backends(v)| && Revalidate(Backends(v)[i]).Err? && Listed(v) == Err(Revalidate(Backends(v)[i]).error)
        && forall j :: 0 <= j < i ==> Revalidate(Backends(v)[j]).Ok?
  {
    CheckedMeaning(Backends(v));
  }

  /** A listed backend file whose owner has fewer than 30 characters makes get_backends raise. */
  lemma ShortOwnerStopsScan(v: DirView, b: BackendOut)
    requires v.present && FileName(b) in v.names && Encodable(b) && |b.owner| < 30
    ensures Listed(v).Err? && Listed(v).error.ValidationError?
  {
    DecodeFileName(v.path, b);
    var i :| 0 <= i < |v.names| && v.names[i] == FileName(b);
    var found := b.(filePath := JoinPath(v.path, FileName(b)));
    ScanMembership(v.path, v.names, found);
    var k :| 0 <= k < |Backends(v)| && Backends(v)[k] == found;
    ListedMeaning(v);
  }

  /** The backend file the service tests use, whose owner "testuser" is shorter than 30 characters. */
  const TestRecord := BackendOut("1234567890", "testuser", "animal_100", "testtemplate", "v01", false, "")

  /** A directory listing the tests' backend file makes get_backends raise. */
  lemma TestFileStopsScan(v: DirView)
    requires v.present && FileName(TestRecord) in v.names
    ensures Listed(v).Err? && Listed(v).error.ValidationError?
  {
    assert Encodable(TestRecord);
    ShortOwnerStopsScan(v, TestRecord);
  }

  /** get_backends, walking the listing and rebuilding each decoded record as a BackendOut. */
  method GetBackends(d: Directory) returns (r: Result<seq<BackendOut>>)
    ensures r == Listed(d.View())
  {
    if !d.present {
      return Ok([]);
    }
    if |d.names| == 0 {
      return Ok([]);
    }
    var listing := d.names;
    var bs := [];
    var i := 0;
    while i < |listing|
      invariant 0 <= i <= |listing|
      invariant bs == Scan(d.path, listing[..i])
      invariant forall k :: 0 <= k < |bs| ==> Revalidate(bs[k]).Ok?
    {
      var b := Decode(d.path, listing[i]);
      if b.Some? {
        var out := Revalidate(b.value);
        if out.Err? {
          ScanStopsAt(d.path, listing, i, b.value);
          return Err(out.error);
        }
        bs := bs + [b.value];
      }
      i := i + 1;
      assert listing[..i][..i - 1] == listing[..i - 1];
    }
    assert listing[..|listing|] == listing;
    CheckedAfterValid(bs, []);
    assert bs + [] == bs;
    return Ok(bs);
  }

  /** The first record BackendOut rejects in listing order decides the error of get_backends. */
  lemma ScanStopsAt(path: string, listing: seq<string>, i: nat, b: BackendOut)
    requires i < |listing| && Decode(path, listing[i]) == Some(b) && Revalidate(b).Err?
    requires forall k :: 0 <= k < |Scan(path, listing[..i])| ==> Revalidate(Scan(path, listing[..i])[k]).Ok?
    ensures Checked(Scan(path, listing)) == Err(Revalidate(b).error)
  {
    var rest := listing[i + 1..];
    assert listing == listing[..i] + ([listing[i]] + rest);
    ScanAppend(path, listing[..i], [listing[i]] + rest);
    ScanAppend(path, [listing[i]], rest);
    assert [listing[i]][..0] == [];
    assert Scan(path, [listing[i]]) == [b];
    CheckedAfterValid(Scan(path, listing[..i]), [b] + Scan(path, rest));
    assert ([b] + Scan(path, rest))[0] == b;
  }

  /** Scanning two listings one after the other is scanning their concatenation: the scan keeps listing order. */
  lemma ScanAppend(path: string, a: seq<string>, c: seq<string>)
    ensures Scan(path, a + c) == Scan(path, a) + Scan(path, c)
  {
    FilterMapAppend((n: string) => Decode(path, n), a, c);
  }

  /** A record is in the scan exactly when some listed name decodes to it. */
  lemma ScanMembership(path: string, names: seq<string>, b: BackendOut)
    ensures b in Scan(path, names) <==> exists i :: 0 <= i < |names| && Decode(path, names[i]) == Some(b)
  {
    FilterMapMembership((n: string) => Decode(path, n), names, b);
  }

  /**
   * get_backends lists a record exactly when the directory exists and one of its names decodes
   * to it; the record's file is then listed under the record's own file name.
   */
  lemma BackendsAreListedFiles(v: DirView, b: BackendOut)
    requires WellFormed(v)
    ensures b in Backends(v) <==> v.present && exists i :: 0 <= i < |v.names| && Decode(v.path, v.names[i]) == Some(b)
    ensures b in Backends(v) ==>
      && Encodable(b) && FileName(b) in v.names && FileName(b) in v.files
      && Decode(v.path, FileName(b)) == Some(b) && b.filePath == JoinPath(v.path, FileName(b))
  {
    ScanMembership(v.path, v.names, b);
    if b in Backends(v) {
      var i :| 0 <= i < |v.names| && Decode(v.path, v.names[i]) == Some(b);
      FileNameOfDecoded(v.path, v.names[i]);
    }
  }

  /** get_backend_by_id: the first record whose id is numerically equal; int() of an empty id raises. */
  function FindById(bs: seq<BackendOut>, id: int): Result<BackendOut>
  {
    if bs == [] then Err(NotFound)
    else match ParseInt(bs[0].id)
      case None => Err(ValueError)
      case Some(k) => if k == id then Ok(bs[0]) else FindById(bs[1..], id)
  }

  /**
   * The lookup finds the first record with a numerically equal id, and reports NotFound exactly
   * when every id parses and none is equal.
   */
  lemma {:induction false} FindByIdFirst(bs: seq<BackendOut>, id: int)
    ensures FindById(bs, id).Ok? ==>
      exists k :: 0 <= k < |bs| && bs[k] == FindById(bs, id).value && ParseInt(bs[k].id) == Some(id)
        && forall j :: 0 <= j < k ==> ParseInt(bs[j].id).Some? && ParseInt(bs[j].id) != Some(id)
    ensures FindById(bs, id) == Err(NotFound) <==>
      forall j :: 0 <= j < |bs| ==> ParseInt(bs[j].id).Some? && ParseInt(bs[j].id) != Some(id)
    ensures FindById(bs, id).Err? ==> FindById(bs, id).error in {NotFound, ValueError}
  {
    if bs != [] && ParseInt(bs[0].id).Some? && ParseInt(bs[0].id) != Some(id) {
      FindByIdFirst(bs[1..], id);
      var r := FindById(bs, id);
      if r.Ok? {
        var k :| 0 <= k < |bs[1..]| && bs[1..][k] == r.value && ParseInt(bs[1..][k].id) == Some(id)
          && forall j :: 0 <= j < k ==> ParseInt(bs[1..][j].id).Some? && ParseInt(bs[1..][j].id) != Some(id);
        assert bs[k + 1] == r.value;
        forall j | 0 <= j < k + 1
          ensures ParseInt(bs[j].id).Some? && ParseInt(bs[j].id) != Some(id)
        {
          if j > 0 {
            assert bs[j] == bs[1..][j - 1];
          }
        }
      }
      if forall j :: 0 <= j < |bs[1..]| ==> ParseInt(bs[1..][j].id).Some? && ParseInt(bs[1..][j].id) != Some(id) {
        forall j | 0 <= j < |bs|
          ensures ParseInt(bs[j].id).Some? && ParseInt(bs[j].id) != Some(id)
        {
          if j > 0 {
            assert bs[j] == bs[1..][j - 1];
          }
        }
      }
    }
  }

  /** get_backend_by_id over a directory: the validation error of get_backends, or the lookup over its records. */
  function BackendById(v: DirView, id: int): Result<BackendOut>
  {
    match Listed(v)
    case Err(e) => Err(e)
    case Ok(bs) => FindById(bs, id)
  }

  /** Over ids that all read as numbers, the lookup can only fail with NotFound. */
  lemma {:induction false} FindByIdParsed(bs: seq<BackendOut>, id: int)
    requires forall j :: 0 <= j < |bs| ==> ParseInt(bs[j].id).Some?
    ensures FindById(bs, id).Err? ==> FindById(bs, id) == Err(NotFound)
  {
    if bs != [] {
      assert forall j :: 0 <= j < |bs[1..]| ==> bs[1..][j] == bs[j + 1];
      FindByIdParsed(bs[1..], id);
    }
  }

  /**
   * get_backend_by_id either raises get_backends' ValidationError, or finds a listed record whose
   * id reads as the requested number, or raises NotFound exactly when no listed record has it:
   * every id BackendOut accepted reads as a number, so the lookup itself never raises ValueError.
   */
  lemma BackendByIdMeaning(v: DirView, id: int)
    ensures BackendById(v, id).Err? ==> BackendById(v, id).error == NotFound || BackendById(v, id).error.ValidationError?
    ensures BackendById(v, id).Ok? ==> BackendById(v, id).value in Backends(v) && ParseInt(BackendById(v, id).value.id) == Some(id)
    ensures BackendById(v, id) == Err(NotFound) <==>
      Listed(v).Ok? && forall j :: 0 <= j < |Backends(v)| ==> ParseInt(Backends(v)[j].id) != Some(id)
  {
    ListedMeaning(v);
    if Listed(v).Ok? {
      var bs := Backends(v);
      assert forall j :: 0 <= j < |bs| ==> ParseInt(bs[j].id).Some? by {
        forall j | 0 <= j < |bs| ensures ParseInt(bs[j].id).Some? {
          assert Revalidate(bs[j]).Ok?;
        }
      }
      FindByIdParsed(bs, id);
      FindByIdFirst(bs, id);
    }
  }

  /** get_backend_by_id, walking the records get_backends returns. */
  method GetBackendById(d: Directory, id: int) returns (r: Result<BackendOut>)
    ensures r == BackendById(d.View(), id)
  {
    var listed := GetBackends(d);
    if listed.Err? {
      return Err(listed.error);
    }
    var bs := listed.value;
    var i := 0;
    while i < |bs|
      invariant 0 <= i <= |bs|
      invariant FindById(bs, id) == FindById(bs[i..], id)
    {
      var k := ParseInt(bs[i].id);
      if k.None? {
        return Err(ValueError);
      }
      if k.value == id {
        return Ok(bs[i]);
      }
      assert bs[i..][1..] == bs[i + 1..];
      i := i + 1;
    }
    return Err(NotFound);
  }

  /** get_file_path_by_id: the path of the record get_backend_by_id finds. */
  method GetFilePathById(d: Directory, id: int) returns (r: Result<string>)
    ensures BackendById(d.View(), id).Ok? ==> r == Ok(BackendById(d.View(), id).value.filePath)
    ensures BackendById(d.View(), id).Err? ==> r == Err(BackendById(d.View(), id).error)
  {
    var listed := GetBackends(d);
    if listed.Err? {
      return Err(listed.error);
    }
    var bs := listed.value;
    var i := 0;
    while i < |bs|
      invariant 0 <= i <= |bs|
      invariant FindById(bs, id) == FindById(bs[i..], id)
    {
      var k := ParseInt(bs[i].id);
      if k.None? {
        return Err(ValueError);
      }
      if k.value == id {
        return Ok(bs[i].filePath);
      }
      assert bs[i..][1..] == bs[i + 1..];
      i := i + 1;
    }
    return Err(NotFound);
  }

  /** The names of a listing that match the filename pattern, in listing order. */
  function MatchingNames(names: seq<string>): (r: seq<string>)
    ensures forall n :: n in r <==> n in names && Matches(n)
    ensures |r| <= |names|
  {
    if names == [] then []
    else MatchingNames(names[..|names| - 1]) + (if Matches(names[|names| - 1]) then [names[|names| - 1]] else [])
  }

  /** One more listed name is kept exactly when it matches. */
  lemma MatchingNamesSnoc(init: seq<string>, n: string)
    ensures MatchingNames(init + [n]) == MatchingNames(init) + (if Matches(n) then [n] else [])
  {
    assert (init + [n])[..|init|] == init;
  }

  /** A listing of validly named files is kept whole. */
  lemma {:induction false} MatchingNamesKeepsAll(names: seq<string>)
    requires forall i :: 0 <= i < |names| ==> Matches(names[i])
    ensures MatchingNames(names) == names
  {
    if names != [] {
      var init, n := names[..|names| - 1], names[|names| - 1];
      assert names == init + [n];
      MatchingNamesSnoc(init, n);
      assert forall i :: 0 <= i < |init| ==> init[i] == names[i];
      MatchingNamesKeepsAll(init);
    }
  }

  /** get_valid_backend_filenames: None for a missing or empty directory, otherwise the matching names. */
  function ValidNames(v: DirView): Option<seq<string>>
  {
    if !v.present || |v.names| == 0 then None else Some(MatchingNames(v.names))
  }

  /** get_valid_backend_filenames, walking the listing. */
  method GetValidBackendFilenames(d: Directory) returns (r: Option<seq<string>>)
    ensures r == ValidNames(d.View())
  {
    if !d.present || |d.names| == 0 {
      return None;
    }
    var listing := d.names;
    var valid: seq<string> := [];
    var i := 0;
    while i < |listing|
      invariant 0 <= i <= |listing|
      invariant valid == MatchingNames(listing[..i])
    {
      if Matches(listing[i]) {
        valid := valid + [listing[i]];
      }
      i := i + 1;
      assert listing[..i][..i - 1] == listing[..i - 1];
    }
    assert listing[..|listing|] == listing;
    return Some(valid);
  }

  /** `int(filename.split("%")[0])`; None is the ValueError. */
  function IdField(name: string): Option<int>
  {
    ParseInt(Split(name, '%')[0])
  }

  /**
   * filter_backend_filenames_by_id: the names whose id field equals `id` numerically. Every
   * element is converted, so one unparsable id field, or an unparsable `id`, raises.
   */
  function FilterById(names: seq<string>, id: Option<int>): (r: Result<seq<string>>)
    ensures r.Err? ==> r == Err(ValueError)
  {
    if names == [] then Ok([])
    else if IdField(names[0]).None? || id.None? then Err(ValueError)
    else match FilterById(names[1..], id)
      case Err(e) => Err(e)
      case Ok(rest) => Ok((if IdField(names[0]) == id then [names[0]] else []) + rest)
  }

  /**
   * The filter succeeds exactly when every id field and the requested id parse (or nothing is
   * filtered), and then keeps exactly the names whose id equals the requested one, in order.
   */
  lemma {:induction false} FilterByIdMeaning(names: seq<string>, id: Option<int>)
    ensures FilterById(names, id).Ok? <==>
      names == [] || (id.Some? && forall i :: 0 <= i < |names| ==> IdField(names[i]).Some?)
    ensures FilterById(names, id).Err? ==> FilterById(names, id).error == ValueError
    ensures FilterById(names, id).Ok? ==>
      (forall n :: n in FilterById(names, id).value <==> n in names && IdField(n) == id)
      && |FilterById(names, id).value| <= |names|
  {
    if names != [] {
      FilterByIdMeaning(names[1..], id);
      if id.Some? && forall i :: 0 <= i < |names| ==> IdField(names[i]).Some? {
        assert forall i :: 0 <= i < |names[1..]| ==> IdField(names[1..][i]).Some? by {
          forall i | 0 <= i < |names[1..]| ensures IdField(names[1..][i]).Some? {
            assert names[1..][i] == names[i + 1];
          }
        }
      }
      if FilterById(names, id).Ok? && names[1..] != [] {
        assert forall i :: 0 <= i < |names| ==> IdField(names[i]).Some? by {
          forall i | 0 <= i < |names| ensures IdField(names[i]).Some? {
            if i > 0 {
              assert names[i] == names[1..][i - 1];
            }
          }
        }
      }
      assert names == [names[0]] + names[1..];
    }
  }
  /** When every name carries the requested id, the filter keeps them all. */
  lemma {:induction false} FilterByIdKeepsAll(names: seq<string>, id: int)
    requires forall i :: 0 <= i < |names| ==> IdField(names[i]) == Some(id)
    ensures FilterById(names, Some(id)) == Ok(names)
  {
    if names != [] {
      assert forall i :: 0 <= i < |names[1..]| ==> names[1..][i] == names[i + 1];
      FilterByIdKeepsAll(names[1..], id);
      assert names == [names[0]] + names[1..];
    }
  }

}
