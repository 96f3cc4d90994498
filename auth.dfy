/**
 * The authentication context of the frontend: who is logged in, whether
 * that user counts as an administrator, and what logging out does.
 */
module Auth {
  import opened Wrappers
  import opened Js
  import opened Text

  /** The logged-in user as stored in the browser: `is_admin` keeps whatever JSON type the server sent. */
  datatype User = User(id: int, username: string, isAdmin: Value, balance: Option<real>)

  /** `isAuthenticated()`: `!!user`. */
  predicate IsAuthenticated(user: Option<User>) {
    user.Some?
  }

  /**
   * `isAdmin()`: no user is no admin; a string flag counts when it
   * lower-cases to "true"; any other flag counts when it is truthy.
   */
  function IsAdmin(user: Option<User>): (r: bool)
    ensures user.None? ==> !r
    ensures user.Some? && user.value.isAdmin.Str? ==> (r <==> ToLower(user.value.isAdmin.s) == "true")
    ensures user.Some? && !user.value.isAdmin.Str? ==> (r <==> Truthy(user.value.isAdmin))
  {
    match user
    case None => false
    case Some(u) =>
      match u.isAdmin
      case Str(s) => ToLower(s) == "true"
      case other => Truthy(other)
  }

  /** An administrator is always authenticated. */
  lemma AdminIsAuthenticated(user: Option<User>)
    requires IsAdmin(user)
    ensures IsAuthenticated(user)
  {
  }

  /** The string flags that count: exactly the spellings of "true" in any mix of cases. */
  lemma {:induction false} AdminStringSpellings(u: User)
    requires u.isAdmin.Str?
    ensures IsAdmin(Some(u)) <==>
      var s := u.isAdmin.s;
      |s| == 4 && s[0] in "tT" && s[1] in "rR" && s[2] in "uU" && s[3] in "eE"
  {
    var s := u.isAdmin.s;
    var t := ToLower(s);
    if |s| == 4 {
      assert t == "true" <==> t[0] == 't' && t[1] == 'r' && t[2] == 'u' && t[3] == 'e';
      assert LowerChar(s[0]) == 't' <==> s[0] in "tT";
      assert LowerChar(s[1]) == 'r' <==> s[1] in "rR";
      assert LowerChar(s[2]) == 'u' <==> s[2] in "uU";
      assert LowerChar(s[3]) == 'e' <==> s[3] in "eE";
    } else {
      assert |t| != 4;
    }
  }

  /** The string "false" is truthy but does not make its holder an administrator. */
  lemma StringFalseIsNotAdmin(u: User)
    requires u.isAdmin == Str("false")
    ensures Truthy(u.isAdmin) && !IsAdmin(Some(u))
  {
    AdminStringSpellings(u);
  }

  /** The state the authentication provider holds: the user, browser storage and the current location. */
  class AuthState {
    var user: Option<User>
    var storage: map<string, string>
    var location: string

    constructor (storage: map<string, string>)
      ensures user == None && this.storage == storage && location == "/"
    {
      user := None;
      this.storage := storage;
      location := "/";
    }

    /** `logout()`: forget the token and the stored user, clear the user, go to the login page. */
    method Logout()
      modifies this
      ensures storage == old(storage) - {"token", "user"}
      ensures user == None && location == "/login"
      ensures !IsAuthenticated(user) && !IsAdmin(user)
    {
      storage := storage - {"token"};
      storage := storage - {"user"};
      user := None;
      location := "/login";
    }
  }
}
