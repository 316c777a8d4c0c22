/** The FastAPI generation's user allow-list: a user's file is named after the user with the ELIXIR domain appended. */
module FastapiUsers {
  import opened Base
  import opened UserFolders

  /** The domain every user file name ends in. */
  const ElixirDomain: string := "@elixir-europe.org"

  /** The file that admits the user `userId`. */
  function UserFileName(userId: string): string
  {
    userId + ElixirDomain
  }

  /** Different users get different files, and a file name gives its user back. */
  lemma UserFileNameInjective(a: string, b: string)
    ensures UserFileName(a) == UserFileName(b) <==> a == b
    ensures UserFileName(a)[..|UserFileName(a)| - |ElixirDomain|] == a
  {
    if UserFileName(a) == UserFileName(b) {
      assert |a| == |b|;
      assert a == UserFileName(a)[..|a|] && b == UserFileName(b)[..|b|];
    }
  }

  /** get_users of the FastAPI generation: the folder's file names, domain included; the Flask module mirrors it. */
  method GetUsers(f: UserFolder) returns (r: Result<seq<string>>)
    ensures r == UsersSpec(f.View())
  {
    r := f.Users();
  }

  /** add_user. */
  method AddUser(f: UserFolder, userId: string) returns (r: Result<int>)
    modifies f
    ensures var s := AddSpec(old(f.View()), UserFileName(userId)); r == s.result && f.View() == s.after
  {
    r := f.Add(UserFileName(userId));
  }

  /** delete_user. */
  method DeleteUser(f: UserFolder, userId: string) returns (r: Result<int>)
    modifies f
    ensures var s := DeleteSpec(old(f.View()), UserFileName(userId)); r == s.result && f.View() == s.after
  {
    r := f.Delete(UserFileName(userId));
  }

  /** delete_all. */
  method DeleteAll(f: UserFolder) returns (r: Result<int>)
    modifies f
    ensures var s := DeleteAllSpec(old(f.View())); r == s.result && f.View() == s.after
  {
    r := f.DeleteAll();
  }

  /**
   * An added user is listed under its file name with the domain, adding one user leaves every
   * other user's standing unchanged, and removing the user again restores the listing.
   */
  lemma AddedUserListedWithDomain(v: FolderView, userId: string, other: string)
    requires FolderOk(v) && AddSpec(v, UserFileName(userId)).result == Ok(0)
    ensures var a := AddSpec(v, UserFileName(userId)).after;
      && UsersSpec(a).Ok? && UserFileName(userId) in UsersSpec(a).value
      && (other != userId ==> (UserFileName(other) in UsersSpec(a).value <==> UserFileName(other) in v.entries))
    ensures UsersSpec(DeleteSpec(AddSpec(v, UserFileName(userId)).after, UserFileName(userId)).after) == Ok(v.entries)
  {
    AddedUserIsListed(v, UserFileName(userId));
    UserFileNameInjective(userId, other);
    AddThenDelete(v, UserFileName(userId));
  }
}
