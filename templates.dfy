/**
 * The FastAPI generation's template listing: template files are named `{name}%{version}.conf`
 * and get_templates filters the listing of the template directory by an optional name and
 * version. Python's `.` matches any character except a newline, and the '.' before "conf" is
 * itself such a wildcard.
 */
module Templates {
  import opened Base
  import opened Text
  import opened Seqs

  /** A template as the service reports it. */
  datatype Template = Template(name: string, version: string)

  /** The template directory as get_templates sees it. */
  datatype TemplateDir = TemplateDir(present: bool, readable: bool, names: seq<string>)

  /** `s` ends in any character other than a newline followed by "conf": what `.conf` matches at the end. */
  predicate EndsWithDotConf(s: string)
  {
    |s| >= 5 && s[|s| - 5] != '\n' && s[|s| - 4..] == "conf"
  }

  /**
   * The greedy match of `(.*)%(.*).conf`: the name runs up to the last '%' that leaves room for
   * ".conf", and no part of the match may hold a newline.
   */
  function MatchAll(s: string): Option<Template>
  {
    if '\n' in s || !EndsWithDotConf(s) then None
    else match LastIndexOf(s[..|s| - 5], '%')
      case None => None
      case Some(p) => Some(Template(s[..p], s[p + 1..|s| - 5]))
  }

  /** The match of `(name)%(.*).conf`, the name taken literally. */
  function MatchNamed(name: string, s: string): Option<Template>
  {
    if |s| >= |name| + 6 && s[..|name| + 1] == name + "%" && EndsWithDotConf(s)
       && '\n' !in s[|name| + 1..|s| - 5]
    then Some(Template(name, s[|name| + 1..|s| - 5]))
    else None
  }

  /** The match of `(name)%(version).conf`, both taken literally. */
  function MatchExact(name: string, version: string, s: string): Option<Template>
  {
    if |s| == |name| + |version| + 6 && s[..|name| + |version| + 1] == name + "%" + version
       && EndsWithDotConf(s)
    then Some(Template(name, version))
    else None
  }

  /** The regular expression get_templates picks for a name and a version filter, applied to one file name. */
  function MatchFile(name: Option<string>, version: Option<string>, s: string): Option<Template>
    requires name.Some? || version.None?
  {
    match name
    case None => MatchAll(s)
    case Some(n) =>
      match version
      case None => MatchNamed(n, s)
      case Some(v) => MatchExact(n, v, s)
  }

  /**
   * get_templates: [] for an inaccessible or empty directory; a version without a name raises
   * TypeError (re.escape of None); otherwise the matching files in listing order.
   */
  function TemplatesSpec(dir: TemplateDir, name: Option<string>, version: Option<string>): Result<seq<Template>>
  {
    if !(dir.present && dir.readable) || dir.names == [] then Ok([])
    else if name.None? && version.Some? then Err(TypeError)
    else Ok(FilterMap((s: string) => MatchFile(name, version, s), dir.names))
  }

  /** get_templates, collecting the matches in a loop over the listing. */
  method GetTemplates(dir: TemplateDir, name: Option<string>, version: Option<string>) returns (r: Result<seq<Template>>)
    ensures r == TemplatesSpec(dir, name, version)
  {
    if !(dir.present && dir.readable) || |dir.names| == 0 {
      return Ok([]);
    }
    if name.None? && version.Some? {
      return Err(TypeError);
    }
    var listing := dir.names;
    var valid: seq<Template> := [];
    var i := 0;
    while i < |listing|
      invariant 0 <= i <= |listing|
      invariant valid == FilterMap((s: string) => MatchFile(name, version, s), listing[..i])
    {
      var m := MatchFile(name, version, listing[i]);
      if m.Some? {
        valid := valid + [m.value];
      }
      i := i + 1;
      assert listing[..i][..i - 1] == listing[..i - 1];
    }
    assert listing[..|listing|] == listing;
    return Ok(valid);
  }

  /**
   * The listing is a filter: there are never more templates than files, and a template is
   * reported exactly when some listed file matches as it.
   */
  lemma TemplatesAreMatches(dir: TemplateDir, name: Option<string>, version: Option<string>, t: Template)
    ensures TemplatesSpec(dir, name, version).Err? <==>
      dir.present && dir.readable && dir.names != [] && name.None? && version.Some?
    ensures TemplatesSpec(dir, name, version).Ok? ==> |TemplatesSpec(dir, name, version).value| <= |dir.names|
    ensures TemplatesSpec(dir, name, version).Ok? && dir.present && dir.readable ==>
      (t in TemplatesSpec(dir, name, version).value <==>
         exists i :: 0 <= i < |dir.names| && MatchFile(name, version, dir.names[i]) == Some(t))
  {
    if TemplatesSpec(dir, name, version).Ok? && dir.present && dir.readable && dir.names != [] {
      FilterMapMembership((s: string) => MatchFile(name, version, s), dir.names, t);
    }
  }

  /**
   * Every match of the unfiltered pattern splits its file name back: name, '%', version, one
   * character and "conf"; the version holds no '%' (the name is greedy) and neither holds a newline.
   */
  lemma MatchAllMeaning(s: string)
    requires MatchAll(s).Some?
    ensures var t := MatchAll(s).value;
      && s == t.name + "%" + t.version + [s[|s| - 5]] + "conf"
      && '%' !in t.version && '\n' !in t.name && '\n' !in t.version
  {
    var p := LastIndexOf(s[..|s| - 5], '%').value;
    var t := MatchAll(s).value;
    assert s[..|s| - 5][p + 1..] == t.version;
    assert s == s[..p] + "%" + s[p + 1..|s| - 5] + [s[|s| - 5]] + s[|s| - 4..];
    assert forall i :: 0 <= i < |t.name| ==> t.name[i] == s[i];
    assert forall i :: 0 <= i < |t.version| ==> t.version[i] == s[p + 1 + i];
  }

  /** The name of the file a template is stored under. */
  function TemplateFileName(t: Template): string
  {
    t.name + "%" + t.version + ".conf"
  }

  /** The pieces of a template's file name. */
  lemma TemplateFileNameParts(t: Template)
    ensures var s := TemplateFileName(t);
      && |s| == |t.name| + |t.version| + 6
      && s[..|t.name| + 1] == t.name + "%"
      && s[..|t.name| + |t.version| + 1] == t.name + "%" + t.version
      && s[|t.name| + 1..|s| - 5] == t.version
      && s[..|s| - 5] == t.name + "%" + t.version
      && EndsWithDotConf(s)
  {
    var s := TemplateFileName(t);
    assert s[|s| - 5] == '.';
    assert s[|s| - 4..] == "conf";
  }

  /** A template's file name holds a newline only where its name or version does. */
  lemma TemplateFileNameNoNewline(t: Template)
    requires '\n' !in t.name && '\n' !in t.version
    ensures '\n' !in TemplateFileName(t)
  {
    var s := TemplateFileName(t);
    var n := |t.name|;
    forall i | 0 <= i < |s| ensures s[i] != '\n' {
      if i < n {
        assert s[i] == t.name[i];
      } else if n < i < n + 1 + |t.version| {
        assert s[i] == t.version[i - n - 1];
      }
    }
  }

  /** The last '%' before ".conf" in a template's file name ends its name when the version holds none. */
  lemma TemplateFileNameSplitsAtName(t: Template)
    requires '%' !in t.version
    ensures LastIndexOf(t.name + "%" + t.version, '%') == Some(|t.name|)
  {
    var head := t.name + "%" + t.version;
    var n := |t.name|;
    assert head[n] == '%';
    assert head[n + 1..] == t.version;
  }

  /**
   * The file name a template is stored under is listed as that template by every filter that
   * admits it, provided neither part holds a newline and the version holds no '%'.
   */
  lemma TemplateFileRoundTrip(t: Template)
    requires '\n' !in t.name && '\n' !in t.version && '%' !in t.version
    ensures MatchAll(TemplateFileName(t)) == Some(t)
    ensures MatchNamed(t.name, TemplateFileName(t)) == Some(t)
    ensures MatchExact(t.name, t.version, TemplateFileName(t)) == Some(t)
  {
    var s := TemplateFileName(t);
    TemplateFileNameParts(t);
    TemplateFileNameNoNewline(t);
    TemplateFileNameSplitsAtName(t);
    assert s[..|t.name|] == t.name;
    assert s[|t.name| + 1..|s| - 5] == t.version;
  }

  /** With a name filter, every reported template has that name; with both filters, every one is exactly the requested template. */
  lemma FilteredTemplatesMatchFilter(dir: TemplateDir, name: string, version: Option<string>, i: nat)
    requires TemplatesSpec(dir, Some(name), version).Ok?
    requires i < |TemplatesSpec(dir, Some(name), version).value|
    ensures TemplatesSpec(dir, Some(name), version).value[i].name == name
    ensures version.Some? ==> TemplatesSpec(dir, Some(name), version).value[i] == Template(name, version.value)
  {
    var r := TemplatesSpec(dir, Some(name), version).value;
    assert r[i] in r;
    TemplatesAreMatches(dir, Some(name), version, r[i]);
  }

  /**
   * A name filter finds a template exactly when the unfiltered pattern could read the file as
   * one: a name filter's match starts with the name and a '%', then holds no further newline.
   */
  lemma NamedMatchMeaning(name: string, s: string)
    ensures MatchNamed(name, s).Some? <==>
      exists version: string, c: char :: c != '\n' && '\n' !in version && s == name + "%" + version + [c] + "conf"
  {
    if MatchNamed(name, s).Some? {
      var version := s[|name| + 1..|s| - 5];
      var c := s[|s| - 5];
      assert s == s[..|name| + 1] + version + [c] + s[|s| - 4..];
    }
    if exists version: string, c: char :: c != '\n' && '\n' !in version && s == name + "%" + version + [c] + "conf" {
      var version: string, c: char :| c != '\n' && '\n' !in version && s == name + "%" + version + [c] + "conf";
      assert s[..|name| + 1] == name + "%";
      assert s[|name| + 1..|s| - 5] == version;
      assert s[|s| - 5] == c;
      assert s[|s| - 4..] == "conf";
    }
  }

  /** The '.' before "conf" is a wildcard: `web%1Xconf` is listed as the template web, version 1. */
  lemma DotBeforeConfIsWildcard()
    ensures MatchAll("web%1Xconf") == Some(Template("web", "1"))
  {
    var s := "web%1Xconf";
    assert s[..|s| - 5] == "web%1";
    assert '\n' !in s by {
      forall i | 0 <= i < |s| ensures s[i] != '\n' {}
    }
    assert LastIndexOf("web%1", '%') == Some(3) by {
      assert "web%1"[..4] == "web%";
    }
    assert s[..3] == "web" && s[4..5] == "1";
  }
}
