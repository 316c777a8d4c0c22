/**
 * The upstream a backend forwards to is not in its file name but in the file's text, on the
 * first `proxy_pass` directive. This module reads it, normalises it and groups backends by it.
 */
module Upstream {
  import opened Base
  import opened Text
  import opened Patterns
  import opened Serializers
  import opened Storage
  import opened Codec
  import opened Registry
  import opened Seqs

  /** A character of `[^\s;]`. */
  predicate IsTargetChar(c: char)
  {
    !IsSpace(c) && c != ';'
  }

  /** The end of the run of whitespace that starts at `j`. */
  function SpaceRunEnd(s: string, j: nat): (k: nat)
    requires j <= |s|
    ensures j <= k <= |s|
    ensures forall m :: j <= m < k ==> IsSpace(s[m])
    ensures k == |s| || !IsSpace(s[k])
    decreases |s| - j
  {
    if j == |s| || !IsSpace(s[j]) then j else SpaceRunEnd(s, j + 1)
  }

  /** The end of the run of `[^\s;]` characters that starts at `j`. */
  function TargetRunEnd(s: string, j: nat): (k: nat)
    requires j <= |s|
    ensures j <= k <= |s|
    ensures forall m :: j <= m < k ==> IsTargetChar(s[m])
    ensures k == |s| || !IsTargetChar(s[k])
    decreases |s| - j
  {
    if j == |s| || !IsTargetChar(s[j]) then j else TargetRunEnd(s, j + 1)
  }

  /** A run end is the first position that ends the run. */
  lemma {:induction false} SpaceRunEndUnique(s: string, j: nat, k: nat)
    requires j <= k <= |s|
    requires forall m :: j <= m < k ==> IsSpace(s[m])
    requires k == |s| || !IsSpace(s[k])
    ensures SpaceRunEnd(s, j) == k
    decreases k - j
  {
    if j < k {
      SpaceRunEndUnique(s, j + 1, k);
    }
  }

  lemma {:induction false} TargetRunEndUnique(s: string, j: nat, k: nat)
    requires j <= k <= |s|
    requires forall m :: j <= m < k ==> IsTargetChar(s[m])
    requires k == |s| || !IsTargetChar(s[k])
    ensures TargetRunEnd(s, j) == k
    decreases k - j
  {
    if j < k {
      TargetRunEndUnique(s, j + 1, k);
    }
  }

  const Keyword := "proxy_pass"

  /**
   * `proxy_pass\s+(http[^\s;]+);` tried at position `i`: the group when it matches there. The
   * whitespace run must be taken whole (the next character is 'h'), and the group must be the
   * whole run of `[^\s;]` because only a ';' may follow it.
   */
  function MatchAt(s: string, i: nat): Option<string>
    requires i <= |s|
  {
    if !StartsWith(s[i..], Keyword) then None
    else
      var k := SpaceRunEnd(s, i + 10);
      if k == i + 10 || !StartsWith(s[k..], "http") then None
      else
        var e := TargetRunEnd(s, k + 4);
        if e == k + 4 || e == |s| || s[e] != ';' then None
        else Some(s[k..e])
  }

  /** The directive with its URL starting at `k`. */
  predicate DirectiveWith(s: string, i: nat, k: nat, url: string)
  {
    && i + 10 <= |s| && s[i..i + 10] == Keyword
    && i + 10 < k && k + |url| < |s|
    && (forall m :: i + 10 <= m < k ==> IsSpace(s[m]))
    && s[k..k + |url|] == url && s[k + |url|] == ';'
    && |url| >= 5 && url[..4] == "http"
    && (forall m :: 0 <= m < |url| ==> IsTargetChar(url[m]))
  }

  /** The directive read off the pattern: keyword, whitespace, a URL starting "http" with no whitespace or ';', then ';'. */
  ghost predicate DirectiveAt(s: string, i: nat, url: string)
  {
    exists k :: DirectiveWith(s, i, k, url)
  }

  /** The matcher at one position agrees with the pattern in both directions. */
  lemma MatchAtIff(s: string, i: nat, url: string)
    requires i <= |s|
    ensures MatchAt(s, i) == Some(url) <==> DirectiveAt(s, i, url)
  {
    if MatchAt(s, i) == Some(url) {
      MatchAtSound(s, i, url);
    }
    if DirectiveAt(s, i, url) {
      var k: nat :| DirectiveWith(s, i, k, url);
      MatchAtComplete(s, i, k, url);
    }
  }

  /** "http" is made of `[^\s;]` characters. */
  lemma HttpIsTarget()
    ensures forall m :: 0 <= m < 4 ==> IsTargetChar("http"[m])
  {
    assert !IsSpace('h') by { assert 'h' as int == 0x68; }
    assert !IsSpace('t') by { assert 't' as int == 0x74; }
    assert !IsSpace('p') by { assert 'p' as int == 0x70; }
  }

  /** "http" followed by a run of `[^\s;]` is itself such a run that starts with "http". */
  lemma TargetRun(s: string, k: nat, e: nat)
    requires k + 4 <= e <= |s| && s[k..k + 4] == "http"
    requires forall m :: k + 4 <= m < e ==> IsTargetChar(s[m])
    ensures s[k..e][..4] == "http"
    ensures forall m :: 0 <= m < e - k ==> IsTargetChar(s[k..e][m])
  {
    HttpIsTarget();
    assert s[k..e][..4] == s[k..k + 4];
    forall m | 0 <= m < e - k ensures IsTargetChar(s[k..e][m]) {
      if m < 4 {
        assert s[k..e][m] == "http"[m];
      } else {
        assert s[k..e][m] == s[k + m];
      }
    }
  }

  /** What the matcher returns is a directive at that position. */
  lemma MatchAtSound(s: string, i: nat, url: string)
    requires i <= |s| && MatchAt(s, i) == Some(url)
    ensures DirectiveWith(s, i, SpaceRunEnd(s, i + 10), url)
  {
    var k := SpaceRunEnd(s, i + 10);
    var e := TargetRunEnd(s, k + 4);
    assert s[i..][..10] == s[i..i + 10];
    assert s[k..][..4] == s[k..k + 4];
    TargetRun(s, k, e);
    assert url == s[k..e];
  }

  /** A directive at a position is what the matcher returns there. */
  lemma MatchAtComplete(s: string, i: nat, k: nat, url: string)
    requires DirectiveWith(s, i, k, url)
    ensures MatchAt(s, i) == Some(url)
  {
    assert s[i..][..10] == s[i..i + 10];
    assert StartsWith(s[i..], Keyword);
    assert s[k] == url[0] == 'h';
    assert !IsSpace('h') by { assert 'h' as int == 0x68; }
    SpaceRunEndUnique(s, i + 10, k);
    assert s[k..][..4] == url[..4];
    assert StartsWith(s[k..], "http");
    assert forall m :: k + 4 <= m < k + |url| ==> s[m] == url[m - k];
    TargetRunEndUnique(s, k + 4, k + |url|);
  }

  /** The matcher at every position of the text, undefined past its end. */
  function MatchesIn(s: string): nat -> Option<string>
  {
    (p: nat) => if p <= |s| then MatchAt(s, p) else None
  }

  /** extract_proxy_pass on the text of a file: `re.search` tries the positions from left to right. */
  function ExtractProxyPass(text: string): Option<string>
  {
    FirstDefined(MatchesIn(text), 0, |text|)
  }

  /** Where the matcher finds nothing before `p`, no directive starts before `p`. */
  lemma NoDirectiveBefore(text: string, p: nat)
    requires p <= |text| + 1
    requires forall q :: 0 <= q < p ==> MatchesIn(text)(q).None?
    ensures forall q, u :: 0 <= q < p ==> !DirectiveAt(text, q, u)
  {
    forall q, u | 0 <= q < p ensures !DirectiveAt(text, q, u) {
      assert MatchesIn(text)(q).None?;
      MatchAtIff(text, q, u);
    }
  }

  /**
   * extract_proxy_pass returns the URL of the first `proxy_pass` directive in the text, and
   * None exactly when the text has no such directive.
   */
  lemma ExtractProxyPassFirst(text: string)
    ensures ExtractProxyPass(text).Some? ==>
      exists p :: 0 <= p <= |text| && DirectiveAt(text, p, ExtractProxyPass(text).value)
        && forall q, u :: 0 <= q < p ==> !DirectiveAt(text, q, u)
    ensures ExtractProxyPass(text).None? ==> forall q, u :: 0 <= q <= |text| ==> !DirectiveAt(text, q, u)
  {
    var f := MatchesIn(text);
    FirstDefinedLeftmost(f, 0, |text|);
    if ExtractProxyPass(text).Some? {
      var p :| 0 <= p <= |text| && f(p) == ExtractProxyPass(text) && forall q :: 0 <= q < p ==> f(q).None?;
      MatchAtIff(text, p, ExtractProxyPass(text).value);
      NoDirectiveBefore(text, p);
    } else {
      NoDirectiveBefore(text, |text| + 1);
    }
  }

  /** The first three pieces of a split: what `pp.split("/", 3)[:3]` keeps. */
  function Take3(parts: seq<string>): (r: seq<string>)
  {
    if |parts| <= 3 then parts else parts[..3]
  }

  /** The `"/".join(pp.split("/", 3)[:3])` of get_upstream_url: the URL up to its third '/'. */
  function StripPath(pp: string): string
  {
    Join('/', Take3(Split(pp, '/')))
  }

  /** get_upstream_url on the text of a file. */
  function GetUpstreamUrl(text: string): Option<string>
  {
    match ExtractProxyPass(text)
    case None => None
    case Some(pp) => Some(StripPath(pp))
  }

  /** Putting the same text in front keeps a prefix a prefix. */
  lemma PrefixUnderConcat(a: string, x: string, y: string)
    requires StartsWith(x, y)
    ensures StartsWith(a + x, a + y)
  {
    assert (a + x)[..|a + y|] == a + x[..|y|];
  }

  /** A join of the first pieces is a prefix of the join of all of them. */
  lemma {:induction false} JoinPrefix(parts: seq<string>, sep: char, k: nat)
    requires 1 <= k <= |parts|
    ensures StartsWith(Join(sep, parts), Join(sep, parts[..k]))
  {
    if k < |parts| {
      var rest := Join(sep, parts[1..]);
      assert Join(sep, parts) == parts[0] + ([sep] + rest);
      if k == 1 {
        assert Join(sep, parts[..1]) == parts[0];
        assert (parts[0] + ([sep] + rest))[..|parts[0]|] == parts[0];
      } else {
        JoinPrefix(parts[1..], sep, k - 1);
        assert parts[..k][1..] == parts[1..][..k - 1];
        var head := Join(sep, parts[1..][..k - 1]);
        assert Join(sep, parts[..k]) == parts[0] + ([sep] + head);
        PrefixUnderConcat([sep], rest, head);
        PrefixUnderConcat(parts[0], [sep] + rest, [sep] + head);
      }
    } else {
      assert parts[..k] == parts;
    }
  }

  /**
   * Stripping keeps a prefix of the URL that contains at most two '/', leaves a URL with at most
   * two '/' as it is, and is idempotent.
   */
  lemma StripPathMeaning(pp: string)
    ensures StartsWith(pp, StripPath(pp))
    ensures |Split(StripPath(pp), '/')| <= 3
    ensures |Split(pp, '/')| <= 3 ==> StripPath(pp) == pp
    ensures StripPath(StripPath(pp)) == StripPath(pp)
  {
    var parts := Split(pp, '/');
    JoinSplit(pp, '/');
    if |parts| > 3 {
      JoinPrefix(parts, '/', 3);
    }
    SplitJoin(Take3(parts), '/');
  }

  /**
   * A URL that forwards to a sub-path, such as `http://1.1.1.1:1000/guacamole/`, loses the path
   * and keeps scheme and host: `http://1.1.1.1:1000`.
   */
  lemma StripPathOfSubPath(scheme: string, host: string, path: string)
    requires '/' !in scheme && '/' !in host
    ensures StripPath(scheme + "//" + host + "/" + path) == scheme + "//" + host
  {
    var url := scheme + "//" + host + "/" + path;
    assert url == scheme + ['/'] + ("" + ['/'] + (host + ['/'] + path));
    SplitAfterPiece(host, '/', path);
    SplitAfterPiece("", '/', host + ['/'] + path);
    SplitAfterPiece(scheme, '/', "" + ['/'] + (host + ['/'] + path));
    var parts := Split(url, '/');
    assert parts == [scheme, "", host] + Split(path, '/');
    assert Take3(parts) == [scheme, "", host];
    var three := [scheme, "", host];
    assert three[1..] == ["", host] && ["", host][1..] == [host];
    assert Join('/', ["", host]) == "" + ['/'] + host;
    assert Join('/', three) == scheme + ['/'] + ("" + ['/'] + host);
  }

  /** get_basekey_from_backend: `rsplit("_", 1)[0]` never raises, so the key is always some text. */
  function BaseKey(locationUrl: string): string
  {
    RSplitHead(locationUrl, '_')
  }

  /** A location URL built as key + "_" + suffix gives the key back when the suffix has no '_'. */
  lemma BaseKeyOfLocation(key: string, suffix: string)
    requires '_' !in suffix
    ensures BaseKey(key + "_" + suffix) == key
  {
    RSplitHeadOfPair(key, '_', suffix);
  }

  /**
   * A location URL whose base key has no '_' is its base key, '_', and its second '_'-field: what
   * update_backend_authorization rebuilds from the pinned suffix gives back the old location URL.
   */
  lemma LocationOfBaseKey(loc: string)
    requires '_' !in BaseKey(loc) && |Split(loc, '_')| >= 2
    ensures BaseKey(loc) + "_" + Split(loc, '_')[1] == loc
  {
    SplitCountWithoutSeparator(loc, '_');
    var i := LastIndexOf(loc, '_').value;
    var head, tail := loc[..i], loc[i + 1..];
    assert loc == head + ['_'] + tail;
    SplitAfterPiece(head, '_', tail);
    SplitNoSeparator(tail, '_');
  }

  /** The proxy_pass of a record's file, read from the directory entry under the record's file name. */
  function ProxyPassOf(v: DirView, b: BackendOut): Option<string>
  {
    var n := FileName(b);
    if n in v.files then ExtractProxyPass(v.files[n]) else None
  }

  /** get_backends_upstream_urls on a list of records: each record with a proxy_pass appended to its group. */
  function GroupsOf(v: DirView, bs: seq<BackendOut>): map<string, seq<BackendOut>>
  {
    if bs == [] then map[]
    else
      var g := GroupsOf(v, bs[..|bs| - 1]);
      var b := bs[|bs| - 1];
      match ProxyPassOf(v, b)
      case None => g
      case Some(u) =>
        if u == "" then g else g[u := (if u in g then g[u] else []) + [b]]
  }

  /** get_backends_upstream_urls: the validation error of get_backends, or the grouping of its records. */
  function UpstreamGroups(v: DirView): Result<map<string, seq<BackendOut>>>
  {
    match Listed(v)
    case Err(e) => Err(e)
    case Ok(bs) => Ok(GroupsOf(v, bs))
  }

  /** The records whose file names `u` as proxy_pass, in order: the reference for one group. */
  function WithProxyPass(v: DirView, bs: seq<BackendOut>, u: string): seq<BackendOut>
  {
    FilterMap(PassesTo(v, u), bs)
  }

  /** Keeps a record when its file names `u` as proxy_pass. */
  function PassesTo(v: DirView, u: string): BackendOut -> Option<BackendOut>
  {
    (b: BackendOut) => if ProxyPassOf(v, b) == Some(u) then Some(b) else None
  }

  /** One step of the grouping: the last record joins the group of its proxy_pass, if it has a non-empty one. */
  lemma GroupsOfStep(v: DirView, bs: seq<BackendOut>, u: string)
    requires bs != []
    ensures var g := GroupsOf(v, bs[..|bs| - 1]);
      var hit := u != "" && ProxyPassOf(v, bs[|bs| - 1]) == Some(u);
      && (u in GroupsOf(v, bs) <==> u in g || hit)
      && (u in GroupsOf(v, bs) ==>
            GroupsOf(v, bs)[u] == (if u in g then g[u] else []) + (if hit then [bs[|bs| - 1]] else []))
  {
  }

  /** The grouping has a key for exactly the non-empty proxy_pass values some record's file names. */
  lemma {:induction false} GroupKeys(v: DirView, bs: seq<BackendOut>, u: string)
    ensures u in GroupsOf(v, bs) <==> u != "" && exists i :: 0 <= i < |bs| && ProxyPassOf(v, bs[i]) == Some(u)
  {
    if bs != [] {
      var init := bs[..|bs| - 1];
      var last := bs[|bs| - 1];
      GroupsOfStep(v, bs, u);
      GroupKeys(v, init, u);
      var inInit := exists i :: 0 <= i < |init| && ProxyPassOf(v, init[i]) == Some(u);
      var inAll := exists i :: 0 <= i < |bs| && ProxyPassOf(v, bs[i]) == Some(u);
      assert inAll <==> inInit || ProxyPassOf(v, last) == Some(u) by {
        assert forall i :: 0 <= i < |init| ==> init[i] == bs[i];
      }
    }
  }

  /** A group holds exactly the records whose file names its key, in scan order. */
  lemma {:induction false} GroupContents(v: DirView, bs: seq<BackendOut>, u: string)
    requires u in GroupsOf(v, bs)
    ensures GroupsOf(v, bs)[u] == WithProxyPass(v, bs, u)
  {
    var init := bs[..|bs| - 1];
    var b := bs[|bs| - 1];
    GroupsOfStep(v, bs, u);
    GroupKeys(v, bs, u);
    assert WithProxyPass(v, bs, u) == WithProxyPass(v, init, u) + (if ProxyPassOf(v, b) == Some(u) then [b] else []);
    if u in GroupsOf(v, init) {
      GroupContents(v, init, u);
    } else {
      GroupKeys(v, init, u);
      FilterMapNone(PassesTo(v, u), init);
    }
  }

  /**
   * Every group is keyed by a non-empty raw proxy_pass and holds exactly the records whose file
   * names it, in scan order; a record whose file has no proxy_pass is in no group.
   */
  lemma GroupsAreFilters(v: DirView, bs: seq<BackendOut>, u: string)
    ensures u in GroupsOf(v, bs) <==> u != "" && exists i :: 0 <= i < |bs| && ProxyPassOf(v, bs[i]) == Some(u)
    ensures u in GroupsOf(v, bs) ==> GroupsOf(v, bs)[u] == WithProxyPass(v, bs, u)
  {
    GroupKeys(v, bs, u);
    if u in GroupsOf(v, bs) {
      GroupContents(v, bs, u);
    }
  }

  /** Grouping one more record: it joins the group of its proxy_pass, when it has a non-empty one. */
  lemma GroupsOfPrefix(v: DirView, bs: seq<BackendOut>, i: nat)
    requires i < |bs|
    ensures var g := GroupsOf(v, bs[..i]);
      GroupsOf(v, bs[..i + 1]) ==
        match ProxyPassOf(v, bs[i])
        case None => g
        case Some(u) => if u == "" then g else g[u := (if u in g then g[u] else []) + [bs[i]]]
  {
    assert bs[..i + 1][..i] == bs[..i];
  }

  /** get_backends_upstream_urls, filling the dictionary record by record. */
  method GetBackendsUpstreamUrls(d: Directory) returns (r: Result<map<string, seq<BackendOut>>>)
    ensures r == UpstreamGroups(d.View())
  {
    var listed := GetBackends(d);
    if listed.Err? {
      return Err(listed.error);
    }
    var bs := listed.value;
    var v := d.View();
    var groups := map[];
    var i := 0;
    while i < |bs|
      invariant 0 <= i <= |bs|
      invariant groups == GroupsOf(v, bs[..i])
    {
      GroupsOfPrefix(v, bs, i);
      var u := ProxyPassOf(v, bs[i]);
      if u.Some? && u.value != "" {
        var group := if u.value in groups then groups[u.value] else [];
        groups := groups[u.value := group + [bs[i]]];
      }
      i := i + 1;
    }
    assert bs[..|bs|] == bs;
    return Ok(groups);
  }
}
