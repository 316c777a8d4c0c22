/** The Flask generation's user allow-list: a user's file is named exactly after the user, and a successful change reloads the proxy. */
module FlaskUsers {
  import opened Base
  import opened Storage
  import opened UserFolders

  /** The reloads after an add or delete that answered `s`: one more exactly when it answered 0. */
  function ReloadsAfter(s: Step<int>, reloads: nat): nat
  {
    if s.result == Ok(0) then reloads + 1 else reloads
  }

  /** get_users of the Flask generation; the same folder listing as the FastAPI one, which this module mirrors function by function. */
  method GetUsers(f: UserFolder) returns (r: Result<seq<string>>)
    ensures r == UsersSpec(f.View())
  {
    r := f.Users();
  }

  /** add_user, reloading the proxy after the user's file is written. */
  method AddUser(f: UserFolder, p: Proxy, userId: string) returns (r: Result<int>)
    modifies f, p
    ensures var s := AddSpec(old(f.View()), userId);
      r == s.result && f.View() == s.after && p.reloads == ReloadsAfter(s, old(p.reloads))
  {
    r := f.Add(userId);
    if r == Ok(0) {
      p.Reload();
    }
  }

  /** delete_user, reloading the proxy after the user's file or folder is removed. */
  method DeleteUser(f: UserFolder, p: Proxy, userId: string) returns (r: Result<int>)
    modifies f, p
    ensures var s := DeleteSpec(old(f.View()), userId);
      r == s.result && f.View() == s.after && p.reloads == ReloadsAfter(s, old(p.reloads))
  {
    r := f.Delete(userId);
    if r == Ok(0) {
      p.Reload();
    }
  }

  /** delete_all, which does not reload. */
  method DeleteAll(f: UserFolder) returns (r: Result<int>)
    modifies f
    ensures var s := DeleteAllSpec(old(f.View())); r == s.result && f.View() == s.after
  {
    r := f.DeleteAll();
  }

  /**
   * A reload follows a change and nothing else: an add or delete that answers anything but 0
   * leaves both the folder and the reload count as they were.
   */
  lemma ReloadOnlyAfterChange(v: FolderView, userId: string, reloads: nat)
    ensures DeleteSpec(v, userId).result != Ok(0) ==>
      DeleteSpec(v, userId).after == v && ReloadsAfter(DeleteSpec(v, userId), reloads) == reloads
    ensures AddSpec(v, userId).result == Ok(0) ==>
      ReloadsAfter(AddSpec(v, userId), reloads) == reloads + 1 && userId in AddSpec(v, userId).after.entries
    ensures AddSpec(v, userId).result == Ok(3) ==>
      AddSpec(v, userId).after == v && ReloadsAfter(AddSpec(v, userId), reloads) == reloads
  {
    DeleteMeaning(v, userId);
    AddMeaning(v, userId);
  }
}
