/** How the FastAPI generation picks a fresh backend id and the numeric suffix of its location URL. */
module Allocation {
  import opened Base
  import opened Text
  import opened Serializers
  import opened Storage
  import opened Registry

  /** random_with_n_digits: a draw from [10^(n-1), 10^n - 1]. */
  method RandomWithNDigits(n: nat) returns (x: nat)
    requires n >= 1
    ensures Pow10(n - 1) <= x <= Pow10(n) - 1
  {
    assert Pow10(n) == 10 * Pow10(n - 1);
    x :| Pow10(n - 1) <= x <= Pow10(n) - 1;
  }

  /** A fresh id, `str(random_with_n_digits(10))`, has exactly ten digits, no leading zero, and int() reads it back. */
  lemma FreshIdShape(x: nat)
    requires Pow10(9) <= x <= Pow10(10) - 1
    ensures |IntToString(x)| == 10 && AllDigits(IntToString(x)) && IntToString(x)[0] != '0'
    ensures ParseInt(IntToString(x)) == Some(x)
  {
    NatToStringLength(x, 10);
    NatToStringDigits(x);
    ParseIntToString(x);
  }

  /** The prefix of a location URL that generate_suffix_number compares: `location_url.split("_")[0]`. */
  function KeyOf(loc: string): string
  {
    Split(loc, '_')[0]
  }

  /** `int(location_url.split("_")[1])`: IndexError without a second field, ValueError when it is no number. */
  function SuffixOf(loc: string): Result<int>
  {
    var parts := Split(loc, '_');
    if |parts| < 2 then Err(IndexError)
    else match ParseInt(parts[1])
      case None => Err(ValueError)
      case Some(n) => Ok(n)
  }

  /** The location URLs of records, in order. */
  function Locations(bs: seq<BackendOut>): (locs: seq<string>)
    ensures |locs| == |bs| && forall i :: 0 <= i < |bs| ==> locs[i] == bs[i].locationUrl
  {
    seq(|bs|, i requires 0 <= i < |bs| => bs[i].locationUrl)
  }

  /** The suffixes in use for `key` among location URLs, in scan order; the first URL that fails to yield one raises. */
  function SuffixesFor(bs: seq<string>, key: string): Result<seq<int>>
  {
    if bs == [] then Ok([])
    else match SuffixesFor(bs[..|bs| - 1], key)
      case Err(e) => Err(e)
      case Ok(ns) =>
        var b := bs[|bs| - 1];
        if KeyOf(b) != key then Ok(ns)
        else match SuffixOf(b)
          case Err(e) => Err(e)
          case Ok(n) => Ok(ns + [n])
  }

  /** An error in a prefix of the records is the error of the whole scan. */
  lemma {:induction false} SuffixesForSticky(bs: seq<string>, k: nat, key: string)
    requires k <= |bs| && SuffixesFor(bs[..k], key).Err?
    ensures SuffixesFor(bs, key) == SuffixesFor(bs[..k], key)
    decreases |bs| - k
  {
    if k < |bs| {
      assert bs[..k + 1][..k] == bs[..k];
      SuffixesForSticky(bs, k + 1, key);
    } else {
      assert bs[..k] == bs;
    }
  }

  /**
   * When the scan succeeds, the suffixes are exactly those of the records whose location URL has
   * `key` as its first '_'-field.
   */
  lemma {:induction false} SuffixesForMeaning(bs: seq<string>, key: string)
    ensures SuffixesFor(bs, key).Ok? ==>
      forall n :: n in SuffixesFor(bs, key).value <==>
        exists i :: 0 <= i < |bs| && KeyOf(bs[i]) == key && SuffixOf(bs[i]) == Ok(n)
    ensures SuffixesFor(bs, key) == Ok([]) <==> forall i :: 0 <= i < |bs| ==> KeyOf(bs[i]) != key
  {
    if bs != [] {
      var init := bs[..|bs| - 1];
      var last := bs[|bs| - 1];
      SuffixesForMeaning(init, key);
      assert forall i :: 0 <= i < |init| ==> init[i] == bs[i];
      if SuffixesFor(bs, key).Ok? {
        forall n ensures n in SuffixesFor(bs, key).value <==>
          exists i :: 0 <= i < |bs| && KeyOf(bs[i]) == key && SuffixOf(bs[i]) == Ok(n)
        {
          var inInit := exists i :: 0 <= i < |init| && KeyOf(init[i]) == key && SuffixOf(init[i]) == Ok(n);
          var inAll := exists i :: 0 <= i < |bs| && KeyOf(bs[i]) == key && SuffixOf(bs[i]) == Ok(n);
          assert inAll <==> inInit || (KeyOf(last) == key && SuffixOf(last) == Ok(n));
        }
      }
      if forall i :: 0 <= i < |bs| ==> KeyOf(bs[i]) != key {
        assert forall i :: 0 <= i < |init| ==> KeyOf(init[i]) != key;
      }
    }
  }

  /** The largest of a non-empty list of numbers: the last element after `sort()`. */
  function Max(ns: seq<int>): (m: int)
    requires |ns| >= 1
    ensures m in ns && forall i :: 0 <= i < |ns| ==> ns[i] <= m
  {
    if |ns| == 1 then ns[0]
    else
      var m := Max(ns[..|ns| - 1]);
      assert forall i :: 0 <= i < |ns| - 1 ==> ns[..|ns| - 1][i] == ns[i];
      if ns[|ns| - 1] > m then ns[|ns| - 1] else m
  }

  /** The suffix after the ones in use: "100" for none, one more than the highest, and an error at 999. */
  function NextSuffix(ns: seq<int>): Result<string>
  {
    if ns == [] then Ok("100")
    else if Max(ns) == 999 then Err(ServerError(SuffixSpaceFull))
    else Ok(IntToString(Max(ns) + 1))
  }

  /** generate_suffix_number for the directory `v`. */
  function SuffixSpec(v: DirView, key: Option<string>): Result<string>
  {
    match key
    case None => Ok("100")
    case Some(k) =>
      match Listed(v)
      case Err(e) => Err(e)
      case Ok(bs) =>
        match SuffixesFor(Locations(bs), k)
        case Err(e) => Err(e)
        case Ok(ns) => NextSuffix(ns)
  }

  /**
   * The new suffix is "100" when the key is not in use, otherwise one more than every suffix in
   * use; allocation fails exactly when the highest suffix is 999, and stays within 100..999 when
   * every suffix in use does.
   */
  lemma NextSuffixMeaning(ns: seq<int>)
    ensures ns == [] ==> NextSuffix(ns) == Ok("100")
    ensures NextSuffix(ns).Err? <==> ns != [] && Max(ns) == 999
    ensures NextSuffix(ns).Ok? && ns != [] ==>
      exists m :: ParseInt(NextSuffix(ns).value) == Some(m) && (forall i :: 0 <= i < |ns| ==> ns[i] < m)
        && ((forall i :: 0 <= i < |ns| ==> 100 <= ns[i] <= 999) ==> 100 <= m <= 999)
  {
    if ns != [] && Max(ns) != 999 {
      ParseIntToString(Max(ns) + 1);
    }
  }

  /**
   * generate_suffix_number over a directory: "100" without a key; with a key, the validation
   * error of get_backends, or "100" when no record's location URL starts with the key, or a
   * number above every suffix in use for the key.
   */
  lemma SuffixSpecMeaning(v: DirView, key: Option<string>)
    ensures key.None? ==> SuffixSpec(v, key) == Ok("100")
    ensures key.Some? && Listed(v).Err? ==> SuffixSpec(v, key) == Err(Listed(v).error)
    ensures key.Some? && Listed(v).Ok? && (forall i :: 0 <= i < |Backends(v)| ==> KeyOf(Backends(v)[i].locationUrl) != key.value) ==>
      SuffixSpec(v, key) == Ok("100")
    ensures SuffixSpec(v, key).Ok? ==> ParseInt(SuffixSpec(v, key).value).Some?
    ensures SuffixSpec(v, key).Ok? && key.Some? ==>
      && Listed(v).Ok?
      && forall i :: 0 <= i < |Backends(v)| && KeyOf(Backends(v)[i].locationUrl) == key.value && SuffixOf(Backends(v)[i].locationUrl).Ok? ==>
           SuffixOf(Backends(v)[i].locationUrl).value < ParseInt(SuffixSpec(v, key).value).value
  {
    if key.Some? {
      ListedMeaning(v);
      SuffixesSpecMeaning(Locations(Backends(v)), key.value);
    } else {
      SuffixHundred();
    }
  }

  /** `str(100)` is "100". */
  lemma SuffixHundred()
    ensures IntToString(100) == "100" && ParseInt("100") == Some(100)
  {
    ParseIntToString(100);
    assert NatToString(100) == NatToString(10) + [DigitChar(0)];
    assert NatToString(10) == NatToString(1) + [DigitChar(0)];
  }

  /** The suffix allocated among some location URLs for a key: "100" when the key is unused, otherwise above every suffix in use. */
  lemma SuffixesSpecMeaning(locs: seq<string>, key: string)
    ensures (forall i :: 0 <= i < |locs| ==> KeyOf(locs[i]) != key) ==> SuffixesFor(locs, key) == Ok([])
    ensures SuffixesFor(locs, key).Ok? && NextSuffix(SuffixesFor(locs, key).value).Ok? ==>
      var r := NextSuffix(SuffixesFor(locs, key).value).value;
      && ParseInt(r).Some?
      && forall i :: 0 <= i < |locs| && KeyOf(locs[i]) == key && SuffixOf(locs[i]).Ok? ==>
           SuffixOf(locs[i]).value < ParseInt(r).value
  {
    SuffixHundred();
    SuffixesForMeaning(locs, key);
    var ns := SuffixesFor(locs, key);
    if ns.Ok? {
      NextSuffixMeaning(ns.value);
      if ns.value != [] && Max(ns.value) != 999 {
        ParseIntToString(Max(ns.value) + 1);
        forall i | 0 <= i < |locs| && KeyOf(locs[i]) == key && SuffixOf(locs[i]).Ok?
          ensures SuffixOf(locs[i]).value < Max(ns.value) + 1
        {
          assert SuffixOf(locs[i]).value in ns.value;
        }
      }
    }
  }

  /** generate_suffix_number, collecting the suffixes in use in a loop. */
  method GenerateSuffixNumber(d: Directory, key: Option<string>) returns (r: Result<string>)
    ensures r == SuffixSpec(d.View(), key)
  {
    if key.None? {
      return Ok("100");
    }
    var listed := GetBackends(d);
    if listed.Err? {
      return Err(listed.error);
    }
    var bs := listed.value;
    ghost var locs := Locations(bs);
    var ids: seq<int> := [];
    var i := 0;
    while i < |bs|
      invariant 0 <= i <= |bs|
      invariant SuffixesFor(locs[..i], key.value) == Ok(ids)
    {
      assert locs[..i + 1][..i] == locs[..i];
      var loc := bs[i].locationUrl;
      if KeyOf(loc) == key.value {
        var n := SuffixOf(loc);
        if n.Err? {
          SuffixesForSticky(locs, i + 1, key.value);
          return Err(n.error);
        }
        ids := ids + [n.value];
      }
      i := i + 1;
    }
    assert locs[..|bs|] == locs;
    if ids == [] {
      return Ok("100");
    }
    var highest := Max(ids);
    if highest == 999 {
      return Err(ServerError(SuffixSpaceFull));
    }
    return Ok(IntToString(highest + 1));
  }
}
