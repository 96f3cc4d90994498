/**
 * The friend and signup endpoints of the Flask backend, over an
 * in-memory table of friends and of accounts. The caller's identity and
 * `is_admin` claim come from the already verified JWT; request bodies are
 * JSON objects.
 */
module FriendsApi {
  import opened Wrappers
  import opened Js
  import Entities
  import Auth
  import Views

  /** The JWT's subject (the user id) and its `is_admin` claim, absent when Undefined. */
  datatype Claims = Claims(userId: int, isAdmin: Value)

  /** A row of the friend table. */
  datatype FriendRow = FriendRow(
    id: int, name: string, role: string, description: string, gender: string,
    imgUrl: Option<string>, createdBy: int)

  /** What an endpoint answers: a friend, a set of friends, an account, or a status with a message. */
  datatype Response =
    | FriendReply(status: int, friend: FriendRow)
    | Listing(friends: map<int, FriendRow>)
    | AccountReply(status: int, account: Account)
    | Message(status: int, text: string)

  /** `admin_required`: a caller whose claim is not truthy gets 403, any other reaches the handler. */
  function AdminRequired(c: Claims, handler: Response): (r: Response)
    ensures !Truthy(c.isAdmin) ==> r == Message(403, "Admin access required for this operation")
    ensures Truthy(c.isAdmin) ==> r == handler
  {
    if !Truthy(c.isAdmin) then Message(403, "Admin access required for this operation") else handler
  }

  /** The permission of view, delete and update: an administrator, or the friend's creator. */
  predicate CanAccess(c: Claims, f: FriendRow) {
    Truthy(c.isAdmin) || f.createdBy == c.userId
  }

  const BoyAvatar := "https://avatar.iran.liara.run/public/boy?username="
  const GirlAvatar := "https://avatar.iran.liara.run/public/girl?username="

  /** The avatar for a gender: the boy image for "male", the girl image for "female", none otherwise. */
  function AvatarUrl(gender: string, name: string): (url: Option<string>)
    ensures gender == "male" ==> url == Some(BoyAvatar + name)
    ensures gender == "female" ==> url == Some(GirlAvatar + name)
    ensures gender !in {"male", "female"} ==> url.None?
  {
    if gender == "male" then Some(BoyAvatar + name)
    else if gender == "female" then Some(GirlAvatar + name)
    else None
  }

  /** The avatar URL determines the gender and the name it was made from. */
  lemma AvatarUrlInjective(g1: string, n1: string, g2: string, n2: string)
    requires AvatarUrl(g1, n1).Some? && AvatarUrl(g1, n1) == AvatarUrl(g2, n2)
    ensures g1 == g2 && n1 == n2
  {
    var u := AvatarUrl(g1, n1).value;
    assert BoyAvatar[37] == 'b' && GirlAvatar[37] == 'g';
    assert u[37] == (if g1 == "male" then 'b' else 'g');
    assert u[37] == (if g2 == "male" then 'b' else 'g');
    if g1 == "male" {
      assert u[|BoyAvatar|..] == n1 && u[|BoyAvatar|..] == n2;
    } else {
      assert u[|GirlAvatar|..] == n1 && u[|GirlAvatar|..] == n2;
    }
  }

  const RequiredFields: seq<string> := ["name", "role", "description", "gender"]

  /** `field in data and data.get(field)`: present and not empty. */
  predicate Present(data: map<string, string>, field: string) {
    field in data && data[field] != ""
  }

  /** Every required field present and non-empty. */
  predicate Complete(data: map<string, string>) {
    Present(data, "name") && Present(data, "role") && Present(data, "description") && Present(data, "gender")
  }

  /** The loop of `create_friend`: the first required field that is missing or empty, in the order name, role, description, gender. */
  method FirstMissingField(data: map<string, string>) returns (missing: Option<string>)
    ensures missing.None? <==> forall i :: 0 <= i < |RequiredFields| ==> Present(data, RequiredFields[i])
    ensures missing.Some? ==>
      exists i :: 0 <= i < |RequiredFields| && missing.value == RequiredFields[i] && !Present(data, RequiredFields[i]) &&
        forall j :: 0 <= j < i ==> Present(data, RequiredFields[j])
  {
    var k := 0;
    while k < |RequiredFields|
      invariant 0 <= k <= |RequiredFields|
      invariant forall j :: 0 <= j < k ==> Present(data, RequiredFields[j])
    {
      var field := RequiredFields[k];
      if !(field in data) || data[field] == "" {
        return Some(field);
      }
      k := k + 1;
    }
    return None;
  }

  /**
   * `update_friend`'s field assignments: each field the body names is
   * overwritten; a gender of "male" or "female" also resets the avatar,
   * made from the name as already updated; any other gender keeps it.
   */
  function Patched(f: FriendRow, data: map<string, string>): FriendRow {
    var name := if "name" in data then data["name"] else f.name;
    var gender := if "gender" in data then data["gender"] else f.gender;
    var avatar := if "gender" in data && data["gender"] in {"male", "female"} then AvatarUrl(data["gender"], name) else f.imgUrl;
    FriendRow(
      f.id, name,
      if "role" in data then data["role"] else f.role,
      if "description" in data then data["description"] else f.description,
      gender, avatar, f.createdBy)
  }

  /** An update never changes the id or the creator, and an empty body changes nothing. */
  lemma PatchedKeepsIdentity(f: FriendRow, data: map<string, string>)
    ensures Patched(f, data).id == f.id && Patched(f, data).createdBy == f.createdBy
    ensures data == map[] ==> Patched(f, data) == f
  {
  }

  /** Applying the same update twice is applying it once. */
  lemma PatchedIdempotent(f: FriendRow, data: map<string, string>)
    ensures Patched(Patched(f, data), data) == Patched(f, data)
  {
  }

  /** After an update naming a binary gender the avatar always matches the stored gender and name. */
  lemma PatchedAvatarMatches(f: FriendRow, data: map<string, string>)
    requires "gender" in data && data["gender"] in {"male", "female"}
    ensures Patched(f, data).imgUrl == AvatarUrl(Patched(f, data).gender, Patched(f, data).name)
  {
  }

  /** A rename without a gender leaves the old avatar, still carrying the old name. */
  lemma RenameKeepsStaleAvatar(f: FriendRow, newName: string)
    ensures Patched(f, map["name" := newName]).imgUrl == f.imgUrl
    ensures Patched(f, map["name" := newName]).name == newName
  {
  }

  /** A row as the client receives it. */
  function ToEntity(f: FriendRow): (e: Entities.Friend)
    ensures e.id == f.id && e.createdBy == Some(f.createdBy)
  {
    Entities.Friend(f.id, f.name, f.role, f.description, f.gender, f.imgUrl, Some(f.createdBy))
  }

  /** The card's buttons appear exactly when the server would allow the change, for the same user and flag. */
  lemma CardAgreesWithServer(u: Auth.User, f: FriendRow)
    ensures Views.CanModify(Some(u), ToEntity(f)) <==> CanAccess(Claims(u.id, u.isAdmin), f)
  {
  }

  /** The friend table. */
  class FriendStore {
    var friends: map<int, FriendRow>
    var nextId: int

    /** Each row sits under its own id, and every id in use is below the next one handed out. */
    ghost predicate Valid()
      reads this
    {
      forall id :: id in friends ==> friends[id].id == id && id < nextId
    }

    constructor()
      ensures Valid() && friends == map[]
    {
      friends := map[];
      nextId := 1;
    }

    /** `get_friends`: an administrator sees every friend, anyone else exactly the friends they created. */
    function Visible(c: Claims): (r: map<int, FriendRow>)
      reads this
      ensures r.Keys <= friends.Keys
      ensures forall id :: id in r ==> r[id] == friends[id]
      ensures Truthy(c.isAdmin) ==> r == friends
      ensures !Truthy(c.isAdmin) ==> forall id :: id in friends ==> (id in r <==> friends[id].createdBy == c.userId)
    {
      map id | id in friends && CanAccess(c, friends[id]) :: friends[id]
    }

    /** `get_friend`: 404 when there is no such friend, then 403 without permission, else the friend. */
    function GetFriend(c: Claims, id: int): (r: Response)
      reads this
      ensures id !in friends ==> r == Message(404, "Friend not found")
      ensures id in friends && !CanAccess(c, friends[id]) ==> r == Message(403, "You don't have permission to view this friend")
      ensures id in friends && CanAccess(c, friends[id]) ==> r == FriendReply(200, friends[id])
    {
      if id !in friends then Message(404, "Friend not found")
      else if !CanAccess(c, friends[id]) then Message(403, "You don't have permission to view this friend")
      else FriendReply(200, friends[id])
    }

    /** `create_friend`: validation first; then a row with the caller as creator and the gender's avatar. */
    method CreateFriend(c: Claims, data: map<string, string>) returns (r: Response)
      requires Valid()
      modifies this
      ensures Valid()
      ensures !Complete(data) ==> r.Message? && r.status == 400 && friends == old(friends)
      ensures !Complete(data) ==>
        exists i :: 0 <= i < |RequiredFields| && !Present(data, RequiredFields[i]) &&
          (forall j :: 0 <= j < i ==> Present(data, RequiredFields[j])) &&
          r.text == "Missing required field: " + RequiredFields[i]
      ensures Complete(data) ==>
        var row := FriendRow(old(nextId), data["name"], data["role"], data["description"], data["gender"],
                             AvatarUrl(data["gender"], data["name"]), c.userId);
        r == FriendReply(201, row) && friends == old(friends)[old(nextId) := row] && old(nextId) !in old(friends)
    {
      var missing := FirstMissingField(data);
      if missing.Some? {
        assert !Complete(data) by {
          var i :| 0 <= i < |RequiredFields| && !Present(data, RequiredFields[i]);
        }
        return Message(400, "Missing required field: " + missing.value);
      }
      assert Complete(data) by {
        assert Present(data, RequiredFields[0]) && Present(data, RequiredFields[1]);
        assert Present(data, RequiredFields[2]) && Present(data, RequiredFields[3]);
      }
      var row := FriendRow(nextId, data["name"], data["role"], data["description"], data["gender"],
                           AvatarUrl(data["gender"], data["name"]), c.userId);
      friends := friends[nextId := row];
      nextId := nextId + 1;
      r := FriendReply(201, row);
    }

    /** `delete_friend`: 404, then 403, then the row is gone. */
    method DeleteFriend(c: Claims, id: int) returns (r: Response)
      requires Valid()
      modifies this
      ensures Valid() && nextId == old(nextId)
      ensures id !in old(friends) ==> r == Message(404, "Friend not found") && friends == old(friends)
      ensures id in old(friends) && !CanAccess(c, old(friends)[id]) ==>
        r == Message(403, "You don't have permission to delete this friend") && friends == old(friends)
      ensures id in old(friends) && CanAccess(c, old(friends)[id]) ==>
        r == Message(200, "Friend deleted successfully") && friends == old(friends) - {id}
    {
      if id !in friends {
        return Message(404, "Friend not found");
      }
      if !CanAccess(c, friends[id]) {
        return Message(403, "You don't have permission to delete this friend");
      }
      friends := friends - {id};
      r := Message(200, "Friend deleted successfully");
    }

    /** `update_friend`: 404, then 403, then the fields the body names are assigned one after the other. */
    method UpdateFriend(c: Claims, id: int, data: map<string, string>) returns (r: Response)
      requires Valid()
      modifies this
      ensures Valid() && nextId == old(nextId) && friends.Keys == old(friends.Keys)
      ensures id !in old(friends) ==> r == Message(404, "Friend not found") && friends == old(friends)
      ensures id in old(friends) && !CanAccess(c, old(friends)[id]) ==>
        r == Message(403, "You don't have permission to update this friend") && friends == old(friends)
      ensures id in old(friends) && CanAccess(c, old(friends)[id]) ==>
        r == FriendReply(200, Patched(old(friends)[id], data)) && friends == old(friends)[id := Patched(old(friends)[id], data)]
    {
      if id !in friends {
        return Message(404, "Friend not found");
      }
      var friend := friends[id];
      if !CanAccess(c, friend) {
        return Message(403, "You don't have permission to update this friend");
      }
      if "name" in data {
        friend := friend.(name := data["name"]);
      }
      if "role" in data {
        friend := friend.(role := data["role"]);
      }
      if "description" in data {
        friend := friend.(description := data["description"]);
      }
      if "gender" in data {
        friend := friend.(gender := data["gender"]);
        if data["gender"] == "male" {
          friend := friend.(imgUrl := Some(BoyAvatar + friend.name));
        } else if data["gender"] == "female" {
          friend := friend.(imgUrl := Some(GirlAvatar + friend.name));
        }
      }
      friends := friends[id := friend];
      r := FriendReply(200, friend);
    }
  }

  /** A friend is listed for a caller exactly when the caller may open it. */
  lemma VisibleIffViewable(db: FriendStore, c: Claims, id: int)
    ensures id in db.Visible(c) <==> db.GetFriend(c, id).FriendReply?
  {
  }

  /** 404 comes before 403: asking for a missing friend never reveals a permission problem. */
  lemma NotFoundBeforeForbidden(db: FriendStore, c: Claims, id: int)
    requires id !in db.friends
    ensures db.GetFriend(c, id).status == 404
    ensures db.GetFriend(Claims(c.userId, Bool(true)), id).status == 404
  {
  }

  // ---- Accounts: the signup endpoint ----

  /** A row of the user table as signup fills it: `username` and `is_admin` keep the JSON values sent. */
  datatype Account = Account(id: int, username: Value, isAdmin: Value)

  class AccountStore {
    var accounts: map<int, Account>
    var nextId: int

    ghost predicate Valid()
      reads this
    {
      forall id :: id in accounts ==> accounts[id].id == id && id < nextId
    }

    constructor()
      ensures Valid() && accounts == map[]
    {
      accounts := map[];
      nextId := 1;
    }

    /** Is some account registered under this username? */
    predicate Taken(username: Value)
      reads this
    {
      exists id :: id in accounts && accounts[id].username == username
    }

    /**
     * `signup`: 400 without a username or password, 400 for a name in
     * use, otherwise 201 with a new account whose `is_admin` is what the
     * body sent, false when it sent none.
     */
    method Signup(data: Object) returns (r: Response)
      requires Valid()
      modifies this
      ensures Valid()
      ensures !Truthy(Get(data, "username")) || !Truthy(Get(data, "password")) ==>
        r == Message(400, "Username and password are required") && accounts == old(accounts)
      ensures Truthy(Get(data, "username")) && Truthy(Get(data, "password")) && old(Taken(Get(data, "username"))) ==>
        r == Message(400, "Username already exists") && accounts == old(accounts)
      ensures Truthy(Get(data, "username")) && Truthy(Get(data, "password")) && !old(Taken(Get(data, "username"))) ==>
        var account := Account(old(nextId), Get(data, "username"), if "is_admin" in data then data["is_admin"] else Bool(false));
        r == AccountReply(201, account) && accounts == old(accounts)[old(nextId) := account]
      ensures Taken(Get(data, "username")) <==> old(Taken(Get(data, "username"))) || r.AccountReply?
    {
      var username := Get(data, "username");
      var password := Get(data, "password");
      var isAdmin := if "is_admin" in data then data["is_admin"] else Bool(false);
      if !Truthy(username) || !Truthy(password) {
        return Message(400, "Username and password are required");
      }
      if Taken(username) {
        return Message(400, "Username already exists");
      }
      var account := Account(nextId, username, isAdmin);
      accounts := accounts[nextId := account];
      assert accounts[account.id].username == username;
      nextId := nextId + 1;
      r := AccountReply(201, account);
    }
  }
}
