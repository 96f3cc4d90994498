/**
 * The state the management pages and the friend list keep: each page
 * holds a list it replaces wholesale on fetch and edits with the list
 * updates of `Lists`; FriendCard's rules; the selection logic of the
 * start-session dialog.
 */
module Views {
  import opened Wrappers
  import opened Js
  import opened Text
  import opened Lists
  import opened Entities
  import Auth
  import Forms

  // ---- MachineManagement ----

  const LoadMachinesFailed := "Failed to load machines. Please try again later."

  /** `getStatusColor`: the badge colour of each machine status. */
  function StatusColor(status: string): (c: string)
    ensures c == "green" <==> status == "Available"
    ensures c == "blue" <==> status == "In Use"
    ensures c == "orange" <==> status == "Maintenance"
    ensures c == "gray" <==> status !in {"Available", "In Use", "Maintenance"}
  {
    if status == "Available" then "green"
    else if status == "In Use" then "blue"
    else if status == "Maintenance" then "orange"
    else "gray"
  }

  /** The status menu items and the delete button are disabled exactly for a machine in use. */
  predicate ActionsDisabled(m: Machine) {
    m.status == "In Use"
  }

  /** A machine in use is shown blue and cannot be changed; every other machine can. */
  lemma DisabledExactlyWhenBlue(m: Machine)
    ensures ActionsDisabled(m) <==> StatusColor(m.status) == "blue"
  {
  }

  /** The machine list page. */
  class MachineManagement {
    var machines: seq<Machine>
    var loading: bool
    var error: Option<string>

    constructor()
      ensures machines == [] && loading && error == None
    {
      machines := [];
      loading := true;
      error := None;
    }

    /**
     * `fetchMachines`, given what the request produced: None when it
     * failed, otherwise the `machines` field of the reply (None when absent).
     */
    method FetchMachines(reply: Option<Option<seq<Machine>>>)
      modifies this
      ensures reply.Some? ==> machines == ListOrEmpty(reply.value) && error == None
      ensures reply.None? ==> machines == old(machines) && error == Some(LoadMachinesFailed)
      ensures !loading
    {
      loading := true;
      error := None;
      match reply {
        case Some(items) => machines := ListOrEmpty(items);
        case None => error := Some(LoadMachinesFailed);
      }
      loading := false;
    }

    /** `handleMachineCreated`: the new machine goes at the end. */
    method HandleMachineCreated(m: Machine)
      modifies this
      ensures machines == old(machines) + [m]
      ensures loading == old(loading) && error == old(error)
    {
      machines := machines + [m];
    }

    /** `handleMachineUpdated`: every machine with the updated id becomes the update. */
    method HandleMachineUpdated(m: Machine)
      modifies this
      ensures machines == Replace(old(machines), MachineId, m)
      ensures loading == old(loading) && error == old(error)
    {
      machines := Replace(machines, MachineId, m);
    }

    /** `handleStatusChange`: the machine the server returns replaces the one with its id; a failed request changes nothing. */
    method HandleStatusChange(response: Option<Machine>)
      modifies this
      ensures response.Some? ==> machines == Replace(old(machines), MachineId, response.value)
      ensures response.None? ==> machines == old(machines)
      ensures loading == old(loading) && error == old(error)
    {
      if response.Some? {
        machines := Replace(machines, MachineId, response.value);
      }
    }

    /** `handleDeleteMachine`: only a confirmed and successful delete drops the machines with that id. */
    method HandleDeleteMachine(id: int, confirmed: bool, deleted: bool)
      modifies this
      ensures confirmed && deleted ==> machines == RemoveKey(old(machines), MachineId, id)
      ensures !(confirmed && deleted) ==> machines == old(machines)
      ensures loading == old(loading) && error == old(error)
    {
      if confirmed && deleted {
        machines := RemoveKey(machines, MachineId, id);
      }
    }
  }

  // ---- Home: the friend list ----

  const LoadFriendsFailed := "Failed to load friends. Please try again later."

  class Home {
    var friends: seq<Friend>
    var loading: bool
    var error: Option<string>

    constructor()
      ensures friends == [] && loading && error == None
    {
      friends := [];
      loading := true;
      error := None;
    }

    /** `fetchFriends`: a reply without `friends` gives the empty list; a failure keeps the list and reports. */
    method FetchFriends(reply: Option<Option<seq<Friend>>>)
      modifies this
      ensures reply.Some? ==> friends == ListOrEmpty(reply.value) && error == None
      ensures reply.None? ==> friends == old(friends) && error == Some(LoadFriendsFailed)
      ensures !loading
    {
      loading := true;
      error := None;
      match reply {
        case Some(items) => friends := ListOrEmpty(items);
        case None => error := Some(LoadFriendsFailed);
      }
      loading := false;
    }

    method HandleFriendCreated(f: Friend)
      modifies this
      ensures friends == old(friends) + [f]
      ensures loading == old(loading) && error == old(error)
    {
      friends := friends + [f];
    }

    method HandleFriendUpdated(f: Friend)
      modifies this
      ensures friends == Replace(old(friends), FriendId, f)
      ensures loading == old(loading) && error == old(error)
    {
      friends := Replace(friends, FriendId, f);
    }

    method HandleFriendDeleted(id: int)
      modifies this
      ensures friends == RemoveKey(old(friends), FriendId, id)
      ensures loading == old(loading) && error == old(error)
    {
      friends := RemoveKey(friends, FriendId, id);
    }
  }

  /** Replacing by id keeps the list's set of ids. */
  lemma {:induction false} ReplaceKeepsIds<T>(s: seq<T>, key: T -> int, x: T, k: int)
    requires exists e :: e in s && key(e) == key(x)
    ensures (exists e :: e in Replace(s, key, x) && key(e) == k) <==> (exists e :: e in s && key(e) == k)
  {
    var r := Replace(s, key, x);
    if exists e :: e in r && key(e) == k {
      var e :| e in r && key(e) == k;
      var i :| 0 <= i < |r| && r[i] == e;
      if key(s[i]) == key(x) {
        assert key(s[i]) == k;
      } else {
        assert s[i] == e;
      }
    }
    if exists e :: e in s && key(e) == k {
      var e :| e in s && key(e) == k;
      var i :| 0 <= i < |s| && s[i] == e;
      if key(s[i]) == key(x) {
        assert r[i] == x;
      } else {
        assert r[i] == e;
      }
    }
  }

  // ---- FriendCard ----

  const PlaceholderImage := "https://via.placeholder.com/150"

  /**
   * `canModify`: the flag `is_admin` as stored, by plain truthiness, or
   * the user being the friend's creator (a friend with a null creator
   * matches nobody). Without a user nothing may be changed.
   */
  function CanModify(user: Option<Auth.User>, f: Friend): (r: bool)
    ensures user.None? ==> !r
    ensures user.Some? && f.createdBy == Some(user.value.id) ==> r
    ensures user.Some? && f.createdBy != Some(user.value.id) ==> (r <==> Truthy(user.value.isAdmin))
  {
    var flag := if user.Some? then user.value.isAdmin else Undefined;
    Truthy(flag) || (user.Some? && f.createdBy == Some(user.value.id))
  }

  /** Whoever the authentication context calls an administrator may modify every card. */
  lemma AdminsCanModify(user: Option<Auth.User>, f: Friend)
    requires Auth.IsAdmin(user)
    ensures CanModify(user, f)
  {
    var s := user.value.isAdmin;
    if s.Str? {
      assert |ToLower(s.s)| == 4;
    }
  }

  /**
   * The converse fails: a stored flag "false" is truthy, so the card
   * offers edit and delete to a user the rest of the frontend treats as
   * no administrator.
   */
  lemma CardTrustsStringFlag(u: Auth.User, f: Friend)
    requires u.isAdmin == Str("false")
    ensures CanModify(Some(u), f) && !Auth.IsAdmin(Some(u))
  {
    assert ToLower("false") == "false";
  }

  /** The gender as displayed: first character upper-cased, the rest unchanged. */
  function Capitalize(g: string): (r: string)
    ensures |r| == |g|
    ensures g != "" ==> r[0] == UpperChar(g[0]) && r[1..] == g[1..]
  {
    if g == "" then "" else [UpperChar(g[0])] + g[1..]
  }

  lemma CapitalizeIdempotent(g: string)
    ensures Capitalize(Capitalize(g)) == Capitalize(g)
  {
  }

  /** The image shown: the friend's own URL when it has a non-empty one, the placeholder otherwise. */
  function ImageSource(f: Friend): (src: string)
    ensures f.imgUrl.Some? && f.imgUrl.value != "" ==> src == f.imgUrl.value
    ensures f.imgUrl.None? || f.imgUrl.value == "" ==> src == PlaceholderImage
  {
    if f.imgUrl.Some? && f.imgUrl.value != "" then f.imgUrl.value else PlaceholderImage
  }

  /** The image is never empty. */
  lemma ImageSourceNonEmpty(f: Friend)
    ensures ImageSource(f) != ""
  {
  }

  // ---- UserManagement ----

  const LoadUsersFailed := "Failed to load users. Please try again later."

  /** A user object as the create dialog reports it; the balance may be missing. */
  datatype CreatedUser = CreatedUser(id: int, username: string, balance: Option<real>)

  /** `{...newUser, balance: newUser.balance || 0}`. */
  function WithDefaults(u: CreatedUser): (r: UserRow)
    ensures r.id == u.id && r.username == u.username
    ensures r.balance == NumberOrZero(u.balance)
  {
    UserRow(u.id, u.username, NumberOrZero(u.balance))
  }

  class UserManagement {
    var users: seq<UserRow>
    var selectedUser: Option<UserRow>
    var balance: real
    var error: Option<string>

    constructor()
      ensures users == [] && selectedUser == None && balance == 0.0 && error == None
    {
      users := [];
      selectedUser := None;
      balance := 0.0;
      error := None;
    }

    method FetchUsers(reply: Option<Option<seq<UserRow>>>)
      modifies this
      ensures reply.Some? ==> users == ListOrEmpty(reply.value) && error == None
      ensures reply.None? ==> users == old(users) && error == Some(LoadUsersFailed)
      ensures selectedUser == old(selectedUser) && balance == old(balance)
    {
      error := None;
      match reply {
        case Some(items) => users := ListOrEmpty(items);
        case None => error := Some(LoadUsersFailed);
      }
    }

    /**
     * `handleUserCreated`: a user object is appended with its balance
     * defaulted to 0; anything else leaves the list (the list is then
     * fetched again in both cases, see `FetchUsers`).
     */
    method HandleUserCreated(newUser: Option<CreatedUser>)
      modifies this
      ensures newUser.Some? ==> users == old(users) + [WithDefaults(newUser.value)]
      ensures newUser.None? ==> users == old(users)
      ensures selectedUser == old(selectedUser) && balance == old(balance) && error == old(error)
    {
      if newUser.Some? {
        users := users + [WithDefaults(newUser.value)];
      }
    }

    /** `openBalanceModal`: select the user and start from an amount of 0. */
    method OpenBalanceModal(u: UserRow)
      modifies this
      ensures selectedUser == Some(u) && balance == 0.0
      ensures !CanAddBalance()
      ensures users == old(users) && error == old(error)
    {
      selectedUser := Some(u);
      balance := 0.0;
    }

    /** The amount input: `parseFloat(value) || 0`. */
    method SetBalance(parsed: Option<real>)
      modifies this
      ensures balance == NumberOrZero(parsed)
      ensures parsed.None? ==> !CanAddBalance()
      ensures users == old(users) && selectedUser == old(selectedUser) && error == old(error)
    {
      balance := NumberOrZero(parsed);
    }

    /** Whether `handleAddBalance` gets past its guard and calls the service. */
    predicate CanAddBalance()
      reads this
    {
      selectedUser.Some? && balance > 0.0
    }

    /**
     * `handleAddBalance`: without a selected user or with an amount of 0
     * or less, no request is made. Otherwise `response` is the request's
     * outcome: None when it failed, which leaves the list; a reply carrying
     * a user replaces the user with that id; a reply without one asks for
     * the whole list again (`refetch`), whose reload `FetchUsers` models.
     */
    method HandleAddBalance(response: Option<Option<UserRow>>) returns (called: bool, refetch: bool)
      modifies this
      ensures called <==> old(CanAddBalance())
      ensures refetch <==> called && response == Some(None)
      ensures called && response.Some? && response.value.Some? ==> users == Replace(old(users), UserId, response.value.value)
      ensures !(called && response.Some? && response.value.Some?) ==> users == old(users)
      ensures selectedUser == old(selectedUser) && balance == old(balance) && error == old(error)
    {
      if selectedUser.None? || balance <= 0.0 {
        return false, false;
      }
      called, refetch := true, false;
      match response
      case None =>
      case Some(None) =>
        refetch := true;
      case Some(Some(u)) =>
        users := Replace(users, UserId, u);
    }
  }

  // ---- SessionManagement ----

  const LoadSessionsFailed := "Failed to load sessions. Please try again later."

  class SessionManagement {
    var sessions: seq<ActiveSession>
    var error: Option<string>

    constructor()
      ensures sessions == [] && error == None
    {
      sessions := [];
      error := None;
    }

    method FetchActiveSessions(reply: Option<Option<seq<ActiveSession>>>)
      modifies this
      ensures reply.Some? ==> sessions == ListOrEmpty(reply.value) && error == None
      ensures reply.None? ==> sessions == old(sessions) && error == Some(LoadSessionsFailed)
    {
      error := None;
      match reply {
        case Some(items) => sessions := ListOrEmpty(items);
        case None => error := Some(LoadSessionsFailed);
      }
    }

    /** `handleSessionCreated`: the new session goes at the end. */
    method HandleSessionCreated(s: ActiveSession)
      modifies this
      ensures sessions == old(sessions) + [s]
      ensures error == old(error)
    {
      sessions := sessions + [s];
    }
  }

  // ---- UserProfile ----

  /** The transactions the profile lists: at most the first five, in order. */
  function RecentTransactions(ts: seq<Transaction>): (r: seq<Transaction>)
    ensures |r| == if |ts| < 5 then |ts| else 5
    ensures r <= ts
  {
    if |ts| < 5 then ts else ts[..5]
  }

  // ---- StartSessionModal ----

  /** Only machines whose status is 'Available' are offered. */
  function AvailableMachines(ms: seq<Machine>): (r: seq<Machine>)
    ensures forall m :: m in r <==> m in ms && m.status == "Available"
  {
    Filter(ms, (m: Machine) => m.status == "Available")
  }

  /** `list.find(e => e.id.toString() === value)`. */
  function FindById<T>(s: seq<T>, key: T -> int, value: string): (r: Option<T>)
    ensures r.Some? ==> r.value in s && IntToString(key(r.value)) == value
    ensures r.Some? ==>
      exists i :: 0 <= i < |s| && s[i] == r.value && forall j :: 0 <= j < i ==> IntToString(key(s[j])) != value
    ensures r.None? ==> forall e :: e in s ==> IntToString(key(e)) != value
  {
    Find(s, e => IntToString(key(e)) == value)
  }

  /** With distinct ids, choosing the text of an id selects exactly the element with that id. */
  lemma FindByIdSelects<T>(s: seq<T>, key: T -> int, e: T)
    requires e in s
    requires forall i, j :: 0 <= i < j < |s| ==> key(s[i]) != key(s[j])
    ensures FindById(s, key, IntToString(key(e))) == Some(e)
  {
    var r := FindById(s, key, IntToString(key(e)));
    IntToStringInjective(key(r.value), key(e));
    var i :| 0 <= i < |s| && s[i] == r.value;
    var j :| 0 <= j < |s| && s[j] == e;
    assert i == j;
  }

  /** The dialog that starts a session. */
  class StartSessionModal {
    var formData: Object
    var formErrors: Forms.Errors
    var users: seq<UserRow>
    var machines: seq<Machine>
    var selectedUser: Option<UserRow>
    var selectedMachine: Option<Machine>

    constructor()
      ensures formData == map["user_id" := Str(""), "machine_id" := Str("")] && formErrors == map[]
      ensures users == [] && machines == [] && selectedUser == None && selectedMachine == None
    {
      formData := map["user_id" := Str(""), "machine_id" := Str("")];
      formErrors := map[];
      users := [];
      machines := [];
      selectedUser := None;
      selectedMachine := None;
    }

    /**
     * `fetchData`: the user list, then the available machines. Each reply
     * is None when its request failed; a failure stops the rest.
     */
    method FetchData(usersReply: Option<Option<seq<UserRow>>>, machinesReply: Option<Option<seq<Machine>>>)
      modifies this
      ensures usersReply.Some? ==> users == ListOrEmpty(usersReply.value)
      ensures usersReply.None? ==> users == old(users)
      ensures usersReply.Some? && machinesReply.Some? ==> machines == AvailableMachines(ListOrEmpty(machinesReply.value))
      ensures !(usersReply.Some? && machinesReply.Some?) ==> machines == old(machines)
      ensures formData == old(formData) && selectedUser == old(selectedUser) && selectedMachine == old(selectedMachine)
      ensures formErrors == old(formErrors)
    {
      if usersReply.None? {
        return;
      }
      users := ListOrEmpty(usersReply.value);
      if machinesReply.None? {
        return;
      }
      machines := AvailableMachines(ListOrEmpty(machinesReply.value));
    }

    /** `handleChange`: writes the field, and a user or machine choice also selects the entity with that id, or none. */
    method HandleChange(name: string, value: string)
      modifies this
      ensures formData == Forms.HandleTextChange(old(formData), name, value)
      ensures name == "user_id" ==> selectedUser == FindById(users, UserId, value)
      ensures name != "user_id" ==> selectedUser == old(selectedUser)
      ensures name == "machine_id" ==> selectedMachine == FindById(machines, MachineId, value)
      ensures name != "machine_id" ==> selectedMachine == old(selectedMachine)
      ensures users == old(users) && machines == old(machines) && formErrors == old(formErrors)
    {
      formData := Forms.HandleTextChange(formData, name, value);
      if name == "user_id" {
        selectedUser := FindById(users, UserId, value);
      } else if name == "machine_id" {
        selectedMachine := FindById(machines, MachineId, value);
      }
    }

    /** `validateForm`, recording the errors it finds. */
    method ValidateForm() returns (valid: bool)
      modifies this
      ensures forall k :: k in formErrors <==> Forms.StartSessionErrorFor(formData, selectedUser, selectedMachine, k).Some?
      ensures forall k :: k in formErrors ==> formErrors[k] == Forms.StartSessionErrorFor(formData, selectedUser, selectedMachine, k).value
      ensures valid <==> Forms.StartSessionOk(formData, selectedUser, selectedMachine)
      ensures formData == old(formData) && selectedUser == old(selectedUser) && selectedMachine == old(selectedMachine)
      ensures users == old(users) && machines == old(machines)
    {
      var errors;
      errors, valid := Forms.ValidateStartSession(formData, selectedUser, selectedMachine);
      formErrors := errors;
    }
  }

  /** Every machine the dialog can select is available. */
  lemma SelectableMachinesAreAvailable(ms: seq<Machine>, value: string)
    ensures FindById(AvailableMachines(ms), MachineId, value).Some? ==>
      FindById(AvailableMachines(ms), MachineId, value).value.status == "Available"
  {
  }
}
