/**
 * The configuration directory a service keeps its backend files in, and the proxy whose
 * configuration it reloads after a change.
 */
module Storage {
  import opened Base

  /** A snapshot of a directory: its path, whether it exists and may be written, its listing and the text of each file. */
  datatype DirView = DirView(path: string, present: bool, writable: bool, names: seq<string>, files: map<string, string>)

  /** No name is listed twice. */
  predicate Distinct(names: seq<string>)
  {
    forall i, j :: 0 <= i < j < |names| ==> names[i] != names[j]
  }

  /** What every real directory satisfies: a missing one lists nothing, and exactly the listed names have a text. */
  ghost predicate WellFormed(v: DirView)
  {
    && (!v.present ==> v.names == [])
    && Distinct(v.names)
    && (forall n :: n in v.files <==> n in v.names)
  }

  /** The listing with one name taken out. */
  function Without(names: seq<string>, n: string): (r: seq<string>)
    ensures forall m :: m in r <==> m in names && m != n
    ensures |r| <= |names|
  {
    if names == [] then []
    else (if names[0] == n then [] else [names[0]]) + Without(names[1..], n)
  }

  /** Taking a listed name out of a listing without repeats shortens it by one and keeps it free of repeats. */
  lemma {:induction false} WithoutListed(names: seq<string>, n: string)
    requires Distinct(names) && n in names
    ensures |Without(names, n)| == |names| - 1
    ensures Distinct(Without(names, n))
  {
    if names[0] == n {
      assert n !in names[1..];
      WithoutAbsent(names[1..], n);
    } else {
      assert Distinct(names[1..]) by {
        forall i, j | 0 <= i < j < |names[1..]| ensures names[1..][i] != names[1..][j] {
          assert names[1..][i] == names[i + 1] && names[1..][j] == names[j + 1];
        }
      }
      WithoutListed(names[1..], n);
      assert names[0] !in names[1..];
      var r := Without(names, n);
      assert r == [names[0]] + Without(names[1..], n);
    }
  }

  /** Taking out a name that is not listed changes nothing. */
  lemma {:induction false} WithoutAbsent(names: seq<string>, n: string)
    requires n !in names
    ensures Without(names, n) == names
  {
    if names != [] {
      WithoutAbsent(names[1..], n);
    }
  }

  /** Taking out the name just appended to a listing that did not hold it gives the listing back. */
  lemma {:induction false} WithoutAppended(names: seq<string>, n: string)
    requires n !in names
    ensures Without(names + [n], n) == names
  {
    if names == [] {
      assert [n][1..] == [];
    } else {
      assert (names + [n])[1..] == names[1..] + [n];
      WithoutAppended(names[1..], n);
    }
  }

  /** Opening a file for writing in the directory succeeds when the directory exists and may be written. */
  predicate CanWrite(v: DirView)
  {
    v.present && v.writable
  }

  /** `os.remove` of a listed name succeeds when the directory may be written. */
  predicate CanRemove(v: DirView, n: string)
  {
    v.present && v.writable && n in v.names
  }

  /** The directory after a file was written: a new name joins the end of the listing, an old one keeps its place. */
  function AfterWrite(v: DirView, n: string, text: string): DirView
  {
    v.(names := if n in v.names then v.names else v.names + [n], files := v.files[n := text])
  }

  /** The directory after a file was removed. */
  function AfterRemove(v: DirView, n: string): DirView
  {
    v.(names := Without(v.names, n), files := v.files - {n})
  }

  /** Writing and removing keep a directory well formed, and touch no file but the one named. */
  lemma ChangesKeepWellFormed(v: DirView, n: string, text: string)
    requires WellFormed(v)
    ensures CanWrite(v) ==> WellFormed(AfterWrite(v, n, text))
    ensures CanRemove(v, n) ==> WellFormed(AfterRemove(v, n))
    ensures forall m :: m != n && m in v.files ==> m in AfterWrite(v, n, text).files && AfterWrite(v, n, text).files[m] == v.files[m]
    ensures forall m :: m != n && m in v.files ==> m in AfterRemove(v, n).files && AfterRemove(v, n).files[m] == v.files[m]
  {
    if CanRemove(v, n) {
      WithoutListed(v.names, n);
    }
  }

  /** The directory as a mutable object; the services change it in place. */
  class Directory {
    const path: string
    var present: bool
    var writable: bool
    var names: seq<string>
    var files: map<string, string>

    function View(): DirView
      reads this
    {
      DirView(path, present, writable, names, files)
    }

    /** The listing and the files agree; every change keeps them so. */
    ghost predicate Valid()
      reads this
    {
      WellFormed(View())
    }

    constructor (v: DirView)
      requires WellFormed(v)
      ensures View() == v && Valid()
    {
      path := v.path;
      present := v.present;
      writable := v.writable;
      names := v.names;
      files := v.files;
    }

    /** `open(path/name, 'w').write(text)`; false stands for the OSError. */
    method WriteFile(n: string, text: string) returns (ok: bool)
      modifies this
      ensures ok == CanWrite(old(View()))
      ensures View() == if ok then AfterWrite(old(View()), n, text) else old(View())
      ensures old(Valid()) ==> Valid()
    {
      if Valid() {
        ChangesKeepWellFormed(View(), n, text);
      }
      ok := present && writable;
      if ok {
        if n !in names {
          names := names + [n];
        }
        files := files[n := text];
      }
    }

    /** `os.remove(path/name)`; false stands for the OSError. */
    method RemoveFile(n: string) returns (ok: bool)
      modifies this
      ensures ok == CanRemove(old(View()), n)
      ensures View() == if ok then AfterRemove(old(View()), n) else old(View())
      ensures old(Valid()) ==> Valid()
    {
      if Valid() {
        ChangesKeepWellFormed(View(), n, "");
      }
      ok := present && writable && n in names;
      if ok {
        names := Without(names, n);
        files := files - {n};
      }
    }
  }

  /** The reverse proxy. A reload is fire and forget; the model counts reloads. */
  class Proxy {
    var reloads: nat

    constructor ()
      ensures reloads == 0
    {
      reloads := 0;
    }

    method Reload()
      modifies this
      ensures reloads == old(reloads) + 1
    {
      reloads := reloads + 1;
    }
  }

  /** The state a backend operation acts on: the directory and the number of reloads so far. */
  datatype World = World(dir: DirView, reloads: nat)

  /** What an operation returns together with the state it leaves behind. */
  datatype Outcome<T> = Outcome(result: Result<T>, world: World)
}
