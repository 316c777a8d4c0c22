/**
 * The per-backend user folder behind both generations' user allow-lists: one empty file per user
 * that may reach the backend, with the integer codes 0 (done), 1 (missing), 2 (not writable) and
 * 3 (already there, or a failure while deleting). Both generations run the same steps on the
 * folder and differ only in the file name of a user and in reloading the proxy.
 */
module UserFolders {
  import opened Base
  import opened Storage

  /**
   * The folder of one backend: whether it exists, whether it can be read and written, whether
   * mkdir would create it, its entries in listing order, and the entries that cannot be written.
   */
  datatype FolderView = FolderView(
    present: bool,
    readable: bool,
    writable: bool,
    creatable: bool,
    entries: seq<string>,
    locked: set<string>)

  /** A folder the operations keep consistent: entries are distinct and only entries are locked. */
  ghost predicate FolderOk(v: FolderView)
  {
    Distinct(v.entries) && (forall n :: n in v.locked ==> n in v.entries) && (!v.present ==> v.entries == [])
  }

  /** What an operation returns, with the folder it leaves. */
  datatype Step<T> = Step(result: Result<T>, after: FolderView)

  /** The folder once rmtree has removed it. */
  function Removed(v: FolderView): FolderView
  {
    v.(present := false, entries := [], locked := {})
  }

  /** get_users: [] without a folder; listing an unreadable folder raises. */
  function UsersSpec(v: FolderView): Result<seq<string>>
  {
    if !v.present then Ok([])
    else if !v.readable then Err(OSError)
    else Ok(v.entries)
  }

  /** The folder add_user works on: created empty by mkdir when missing; None when mkdir fails. */
  function Ensured(v: FolderView): Option<FolderView>
  {
    if v.present then Some(v)
    else if v.creatable then Some(v.(present := true, entries := [], locked := {}))
    else None
  }

  /** add_user: 1 when mkdir fails, 2 for a folder it may not write, 3 for a user already there, else the user's file is added. */
  function AddSpec(v: FolderView, name: string): Step<int>
  {
    match Ensured(v)
    case None => Step(Ok(1), v)
    case Some(f) =>
      if !f.writable then Step(Ok(2), f)
      else if !f.readable then Step(Err(OSError), f)
      else if name in f.entries then Step(Ok(3), f)
      else Step(Ok(0), f.(entries := f.entries + [name]))
  }

  /** delete_all: 1 without a folder; otherwise rmtree, whose failures are ignored, and 0. */
  function DeleteAllSpec(v: FolderView): Step<int>
  {
    if !v.present then Step(Ok(1), v)
    else if v.writable then Step(Ok(0), Removed(v))
    else Step(Ok(0), v)
  }

  /**
   * delete_user: 1 without the folder or the user's file, 2 for a file it may not write; then
   * the file alone is removed while other entries remain, and the last user's file goes with
   * the whole folder through delete_all. A failing listing or removal gives 3.
   */
  function DeleteSpec(v: FolderView, name: string): Step<int>
  {
    if !v.present || name !in v.entries then Step(Ok(1), v)
    else if name in v.locked then Step(Ok(2), v)
    else if !v.readable then Step(Ok(3), v)
    else if |v.entries| != 1 then
      if v.writable then Step(Ok(0), v.(entries := Without(v.entries, name), locked := v.locked - {name}))
      else Step(Ok(3), v)
    else Step(Ok(0), DeleteAllSpec(v).after)
  }

  /** The folder as a mutable object, its fields changed by the operations. */
  class UserFolder {
    var present: bool
    var readable: bool
    var writable: bool
    var creatable: bool
    var entries: seq<string>
    var locked: set<string>

    /** The state of the folder. */
    function View(): FolderView
      reads this
    {
      FolderView(present, readable, writable, creatable, entries, locked)
    }

    constructor (v: FolderView)
      ensures View() == v
    {
      present := v.present;
      readable := v.readable;
      writable := v.writable;
      creatable := v.creatable;
      entries := v.entries;
      locked := v.locked;
    }

    /** get_users. */
    method Users() returns (r: Result<seq<string>>)
      ensures r == UsersSpec(View())
    {
      if !present {
        return Ok([]);
      }
      if !readable {
        return Err(OSError);
      }
      return Ok(entries);
    }

    /** add_user for the file `name`, scanning the entries for it in a loop. */
    method Add(name: string) returns (r: Result<int>)
      modifies this
      ensures var s := AddSpec(old(View()), name); r == s.result && View() == s.after
    {
      if !present {
        if !creatable {
          return Ok(1);
        }
        present := true;
        entries := [];
        locked := {};
      }
      if !writable {
        return Ok(2);
      }
      if !readable {
        return Err(OSError);
      }
      var i := 0;
      while i < |entries|
        invariant 0 <= i <= |entries|
        invariant name !in entries[..i]
      {
        if entries[i] == name {
          return Ok(3);
        }
        i := i + 1;
        assert entries[..i] == entries[..i - 1] + [entries[i - 1]];
      }
      assert entries[..|entries|] == entries;
      entries := entries + [name];
      return Ok(0);
    }

    /** delete_all. */
    method DeleteAll() returns (r: Result<int>)
      modifies this
      ensures var s := DeleteAllSpec(old(View())); r == s.result && View() == s.after
    {
      if !present {
        return Ok(1);
      }
      if writable {
        present := false;
        entries := [];
        locked := {};
      }
      return Ok(0);
    }

    /** delete_user for the file `name`. */
    method Delete(name: string) returns (r: Result<int>)
      modifies this
      ensures var s := DeleteSpec(old(View()), name); r == s.result && View() == s.after
    {
      if !present || name !in entries {
        return Ok(1);
      }
      if name in locked {
        return Ok(2);
      }
      if !readable {
        return Ok(3);
      }
      if |entries| != 1 {
        if !writable {
          return Ok(3);
        }
        entries := Without(entries, name);
        locked := locked - {name};
        return Ok(0);
      }
      var ignored := DeleteAll();
      return Ok(0);
    }
  }

  /** Every operation keeps a consistent folder consistent. */
  lemma OperationsKeepFolderOk(v: FolderView, name: string)
    requires FolderOk(v)
    ensures FolderOk(AddSpec(v, name).after)
    ensures FolderOk(DeleteSpec(v, name).after)
    ensures FolderOk(DeleteAllSpec(v).after)
  {
    var f := Ensured(v);
    if f.Some? && f.value.writable && f.value.readable && name !in f.value.entries {
      var es := f.value.entries + [name];
      forall i, j | 0 <= i < j < |es| ensures es[i] != es[j] {
        if j == |es| - 1 {
          assert es[i] in f.value.entries;
        }
      }
    }
    if v.present && name in v.entries {
      WithoutListed(v.entries, name);
    }
  }

  /**
   * add_user adds a user exactly when the folder exists or can be made, may be written and read,
   * and does not hold the user yet; the user is then the last entry and every earlier entry stays.
   */
  lemma AddMeaning(v: FolderView, name: string)
    ensures AddSpec(v, name).result == Ok(0) <==>
      (v.present || v.creatable) && v.writable && v.readable && (v.present ==> name !in v.entries)
    ensures AddSpec(v, name).result == Ok(0) ==>
      AddSpec(v, name).after.entries == (if v.present then v.entries else []) + [name]
      && AddSpec(v, name).after.present
    ensures AddSpec(v, name).result == Ok(1) <==> !v.present && !v.creatable
    ensures AddSpec(v, name).result == Ok(2) <==> (v.present || v.creatable) && !v.writable
    ensures AddSpec(v, name).result == Ok(3) <==> v.present && v.writable && v.readable && name in v.entries
    ensures AddSpec(v, name).result != Ok(0) ==>
      AddSpec(v, name).after.entries == v.entries || (!v.present && AddSpec(v, name).after.entries == [])
  {
  }

  /** Adding a user twice: the second add answers 3 and changes nothing. */
  lemma AddTwice(v: FolderView, name: string)
    requires AddSpec(v, name).result == Ok(0)
    ensures AddSpec(AddSpec(v, name).after, name) == Step(Ok(3), AddSpec(v, name).after)
  {
    var a := AddSpec(v, name).after;
    assert a.entries[|a.entries| - 1] == name;
  }

  /** A user that was added is listed by get_users. */
  lemma AddedUserIsListed(v: FolderView, name: string)
    requires AddSpec(v, name).result == Ok(0)
    ensures UsersSpec(AddSpec(v, name).after).Ok? && name in UsersSpec(AddSpec(v, name).after).value
  {
    var a := AddSpec(v, name).after;
    assert a.entries[|a.entries| - 1] == name;
  }

  /**
   * Deleting a user just added succeeds and restores the users listed before: the added file is
   * removed again, or, when it was the only one, the folder goes with it.
   */
  lemma AddThenDelete(v: FolderView, name: string)
    requires FolderOk(v) && AddSpec(v, name).result == Ok(0)
    ensures DeleteSpec(AddSpec(v, name).after, name).result == Ok(0)
    ensures UsersSpec(DeleteSpec(AddSpec(v, name).after, name).after) == Ok(v.entries)
  {
    var a := AddSpec(v, name).after;
    assert a.entries[|a.entries| - 1] == name;
    if v.present {
      WithoutAppended(v.entries, name);
    }
  }

  /**
   * delete_user answers 0 exactly when the folder holds the user's writable file and can be
   * listed, and either other users remain and the folder may be written, or it is the last user.
   * Codes 1 and 2 and 3 change nothing.
   */
  lemma DeleteMeaning(v: FolderView, name: string)
    ensures DeleteSpec(v, name).result == Ok(1) <==> !v.present || name !in v.entries
    ensures DeleteSpec(v, name).result == Ok(2) <==> v.present && name in v.entries && name in v.locked
    ensures DeleteSpec(v, name).result == Ok(0) <==>
      v.present && name in v.entries && name !in v.locked && v.readable && (|v.entries| != 1 ==> v.writable)
    ensures DeleteSpec(v, name).result != Ok(0) ==> DeleteSpec(v, name).after == v
    ensures DeleteSpec(v, name).result.Ok?
  {
  }

  /**
   * A delete of one of several users removes that user's file and keeps every other entry, in
   * order; the folder remains.
   */
  lemma DeleteKeepsOthers(v: FolderView, name: string)
    requires DeleteSpec(v, name).result == Ok(0) && |v.entries| != 1
    ensures DeleteSpec(v, name).after.present
    ensures DeleteSpec(v, name).after.entries == Without(v.entries, name)
    ensures name !in DeleteSpec(v, name).after.entries
    ensures forall m :: m in v.entries && m != name ==> m in DeleteSpec(v, name).after.entries
  {
  }

  /** delete_all answers 1 exactly without a folder and 0 otherwise: its code 3 is never returned. */
  lemma DeleteAllCodes(v: FolderView)
    ensures DeleteAllSpec(v).result == Ok(1) <==> !v.present
    ensures DeleteAllSpec(v).result == Ok(0) <==> v.present
    ensures DeleteAllSpec(v).result != Ok(3)
    ensures v.present && v.writable ==> !DeleteAllSpec(v).after.present && UsersSpec(DeleteAllSpec(v).after) == Ok([])
  {
  }

  /**
   * The last user of a folder that may not be written: delete_user answers 0, yet rmtree's
   * ignored failure leaves the user's file in place, where deleting any other user under the same
   * condition answers 3.
   */
  lemma LastUserDeleteSwallowsFailure()
    ensures var v := FolderView(true, true, false, false, ["alice"], {});
      && DeleteSpec(v, "alice").result == Ok(0)
      && "alice" in DeleteSpec(v, "alice").after.entries
    ensures var v := FolderView(true, true, false, false, ["alice", "bob"], {});
      DeleteSpec(v, "alice").result == Ok(3)
  {
  }

  /** delete_user with the removal of the last user's folder checked: an rmtree that cannot remove it answers 3. */
  function DeleteCorrected(v: FolderView, name: string): Step<int>
  {
    if !v.present || name !in v.entries then Step(Ok(1), v)
    else if name in v.locked then Step(Ok(2), v)
    else if !v.readable then Step(Ok(3), v)
    else if !v.writable then Step(Ok(3), v)
    else if |v.entries| != 1 then Step(Ok(0), v.(entries := Without(v.entries, name), locked := v.locked - {name}))
    else Step(Ok(0), Removed(v))
  }

  /**
   * With the check, code 0 means the user is gone from the folder, whichever branch removed it,
   * and the corrected delete agrees with the one as written whenever the folder may be written.
   */
  lemma DeleteCorrectedRemovesUser(v: FolderView, name: string)
    requires FolderOk(v)
    ensures DeleteCorrected(v, name).result == Ok(0) ==>
      name !in DeleteCorrected(v, name).after.entries
      && UsersSpec(DeleteCorrected(v, name).after).Ok? && name !in UsersSpec(DeleteCorrected(v, name).after).value
    ensures v.writable ==> DeleteCorrected(v, name) == DeleteSpec(v, name)
    ensures DeleteCorrected(v, name).result != Ok(0) ==> DeleteCorrected(v, name).after == v
  {
  }
}
