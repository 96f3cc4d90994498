/**
 * The frontend's forms. Each keeps its fields in an object in component
 * state; each input handler writes one property; each `validateForm`
 * builds an error object one check at a time and reports the form valid
 * exactly when that object has no keys. The rule for each field is a
 * function (`...ErrorFor`); the method that builds the error object is
 * proved against it.
 */
module Forms {
  import opened Wrappers
  import opened Js
  import opened Entities
  import Text

  /** Field name to message, as in `formErrors`. */
  type Errors = map<string, string>

  /** `{...formData, [name]: v}`: one property written, every other one unchanged. */
  function SetField(form: Object, name: string, v: Value): (f: Object)
    ensures f.Keys == form.Keys + {name}
    ensures Get(f, name) == v
    ensures forall k :: k != name ==> Get(f, k) == Get(form, k)
  {
    form[name := v]
  }

  /** The `handleChange` of a form made of text inputs and selects. */
  function HandleTextChange(form: Object, name: string, value: string): (f: Object)
    ensures Get(f, name) == Str(value)
    ensures forall k :: k != name ==> Get(f, k) == Get(form, k)
  {
    SetField(form, name, Str(value))
  }

  // ---- Account forms: CreateUserModal and Signup ----

  const UsernameRequired := "Username is required"
  const PasswordRequired := "Password is required"
  const PasswordTooShort := "Password must be at least 6 characters long"
  const PasswordsDiffer := "Passwords do not match"

  /** A password is too short when it is a string of fewer than 6 UTF-16 code units (`.length < 6`). */
  predicate ShortPassword(password: Value) {
    password.Str? && Text.Utf16Length(password.s) < 6
  }

  /** The rule of each account field; only username, password and confirmPassword ever get an error. */
  function AccountErrorFor(form: Object, field: string): Option<string> {
    var password := Get(form, "password");
    if field == "username" then
      (if !Truthy(Get(form, "username")) then Some(UsernameRequired) else None)
    else if field == "password" then
      (if !Truthy(password) then Some(PasswordRequired)
       else if ShortPassword(password) then Some(PasswordTooShort)
       else None)
    else if field == "confirmPassword" then
      (if password != Get(form, "confirmPassword") then Some(PasswordsDiffer) else None)
    else None
  }

  /** When an account form is acceptable: a username, a password of 6 or more characters, and a matching confirmation. */
  predicate AccountFormOk(form: Object) {
    Truthy(Get(form, "username")) && Truthy(Get(form, "password")) && !ShortPassword(Get(form, "password"))
    && Get(form, "password") == Get(form, "confirmPassword")
  }

  /** `validateForm` of CreateUserModal and of Signup (the two are the same code). */
  method ValidateAccountForm(form: Object) returns (errors: Errors, valid: bool)
    ensures forall k :: k in errors <==> AccountErrorFor(form, k).Some?
    ensures forall k :: k in errors ==> errors[k] == AccountErrorFor(form, k).value
    ensures valid <==> errors == map[]
    ensures valid <==> AccountFormOk(form)
  {
    errors := map[];
    if !Truthy(Get(form, "username")) {
      errors := errors["username" := UsernameRequired];
    }
    var password := Get(form, "password");
    if !Truthy(password) {
      errors := errors["password" := PasswordRequired];
    } else if password.Str? && Text.Utf16Length(password.s) < 6 {
      errors := errors["password" := PasswordTooShort];
    }
    if password != Get(form, "confirmPassword") {
      errors := errors["confirmPassword" := PasswordsDiffer];
    }
    valid := |errors| == 0;
    assert valid <==> errors == map[] by {
      if !valid {
        var k :| k in errors;
      }
    }
  }

  /** Three emoji are six UTF-16 code units, so they make a long enough password. */
  lemma AstralPasswordLongEnough()
    ensures var pw := Str("\U{1F600}\U{1F600}\U{1F600}");
      AccountFormOk(map["username" := Str("a"), "password" := pw, "confirmPassword" := pw])
  {
    var s := "\U{1F600}\U{1F600}\U{1F600}";
    assert s[1..][1..][1..] == [];
  }

  /** A password of five characters, all inside the Basic Multilingual Plane, is too short. */
  lemma FiveBmpCharactersTooShort(s: string)
    requires |s| == 5 && forall i :: 0 <= i < |s| ==> s[i] as int < 0x1_0000
    ensures ShortPassword(Str(s))
  {
  }

  /** CreateUserModal's initial state: empty texts, not an administrator, gender male. */
  const UserInitialState: Object := map[
    "username" := Str(""), "password" := Str(""), "confirmPassword" := Str(""),
    "isAdmin" := Bool(false), "gender" := Str("male")]

  /** Signup's initial state. */
  const SignupInitialState: Object := map[
    "username" := Str(""), "password" := Str(""), "confirmPassword" := Str(""), "gender" := Str("male")]

  /** An untouched account form fails on username and password, and not on the (matching, empty) confirmation. */
  lemma InitialAccountFormErrors()
    ensures AccountErrorFor(UserInitialState, "username") == Some(UsernameRequired)
    ensures AccountErrorFor(UserInitialState, "password") == Some(PasswordRequired)
    ensures AccountErrorFor(UserInitialState, "confirmPassword") == None
    ensures AccountErrorFor(SignupInitialState, "username") == Some(UsernameRequired)
    ensures AccountErrorFor(SignupInitialState, "password") == Some(PasswordRequired)
    ensures AccountErrorFor(SignupInitialState, "confirmPassword") == None
  {
  }

  /** CreateUserModal's `handleChange`: a checkbox stores `checked`, any other input stores `value`. */
  function HandleUserChange(form: Object, name: string, isCheckbox: bool, checked: bool, value: string): (f: Object)
    ensures Get(f, name) == if isCheckbox then Bool(checked) else Str(value)
    ensures forall k :: k != name ==> Get(f, k) == Get(form, k)
  {
    SetField(form, name, if isCheckbox then Bool(checked) else Str(value))
  }

  /** Signup's `handleGenderChange`: only the gender changes. */
  function HandleGenderChange(form: Object, value: string): (f: Object)
    ensures Get(f, "gender") == Str(value)
    ensures forall k :: k != "gender" ==> Get(f, k) == Get(form, k)
  {
    SetField(form, "gender", Str(value))
  }

  /** The body CreateUserModal sends: exactly username, password, is_admin (from isAdmin) and gender. */
  function CreateUserPayload(form: Object): (p: Object)
    ensures p.Keys == {"username", "password", "is_admin", "gender"}
    ensures p["username"] == Get(form, "username") && p["password"] == Get(form, "password")
    ensures p["is_admin"] == Get(form, "isAdmin") && p["gender"] == Get(form, "gender")
  {
    map["username" := Get(form, "username"), "password" := Get(form, "password"),
        "is_admin" := Get(form, "isAdmin"), "gender" := Get(form, "gender")]
  }

  /** `const { confirmPassword, ...userData } = formData`: Signup passes on every field but the confirmation. */
  function SignupPayload(form: Object): (p: Object)
    ensures p.Keys == form.Keys - {"confirmPassword"}
    ensures forall k :: k in p ==> p[k] == form[k]
  {
    form - {"confirmPassword"}
  }

  /** Neither payload depends on the confirmation: forms that differ only there send the same data. */
  lemma PayloadsIgnoreConfirmation(f1: Object, f2: Object)
    requires f1 - {"confirmPassword"} == f2 - {"confirmPassword"}
    ensures SignupPayload(f1) == SignupPayload(f2)
    ensures CreateUserPayload(f1) == CreateUserPayload(f2)
  {
    forall k | k != "confirmPassword" ensures Get(f1, k) == Get(f2, k) {
      assert k in f1 <==> k in f1 - {"confirmPassword"};
      assert k in f2 <==> k in f2 - {"confirmPassword"};
      if k in f1 {
        assert f1[k] == (f1 - {"confirmPassword"})[k];
        assert f2[k] == (f2 - {"confirmPassword"})[k];
      }
    }
  }

  // ---- CreateMachineModal ----

  const NameRequired := "Machine name is required"
  const TypeRequired := "Machine type is required"
  const RateNotPositive := "Hourly rate must be greater than 0"

  /** `initialState`, also the state after a successful submit. */
  const MachineInitialState: Object := map["name" := Str(""), "machine_type" := Str(""), "hourly_rate" := Num(5.0)]

  /** `v <= 0` for the values the rate can hold (a string rate is treated as not below zero). */
  predicate AtMostZero(v: Value) {
    match v
    case Undefined => false
    case Null => true
    case Bool(b) => !b
    case Num(n) => n <= 0.0
    case Str(_) => false
  }

  /** The rule of each machine field. */
  function MachineErrorFor(form: Object, field: string): Option<string> {
    if field == "name" then
      (if !Truthy(Get(form, "name")) then Some(NameRequired) else None)
    else if field == "machine_type" then
      (if !Truthy(Get(form, "machine_type")) then Some(TypeRequired) else None)
    else if field == "hourly_rate" then
      (if !Truthy(Get(form, "hourly_rate")) || AtMostZero(Get(form, "hourly_rate")) then Some(RateNotPositive) else None)
    else None
  }

  /** A machine form is acceptable with a name, a type and a positive number as rate. */
  predicate MachineFormOk(form: Object) {
    Truthy(Get(form, "name")) && Truthy(Get(form, "machine_type")) &&
    Truthy(Get(form, "hourly_rate")) && !AtMostZero(Get(form, "hourly_rate"))
  }

  /** CreateMachineModal's `validateForm`. */
  method ValidateMachineForm(form: Object) returns (errors: Errors, valid: bool)
    ensures forall k :: k in errors <==> MachineErrorFor(form, k).Some?
    ensures forall k :: k in errors ==> errors[k] == MachineErrorFor(form, k).value
    ensures valid <==> errors == map[]
    ensures valid <==> MachineFormOk(form)
  {
    errors := map[];
    if !Truthy(Get(form, "name")) {
      errors := errors["name" := NameRequired];
    }
    if !Truthy(Get(form, "machine_type")) {
      errors := errors["machine_type" := TypeRequired];
    }
    var rate := Get(form, "hourly_rate");
    if !Truthy(rate) || AtMostZero(rate) {
      errors := errors["hourly_rate" := RateNotPositive];
    }
    valid := |errors| == 0;
    assert valid <==> errors == map[] by {
      if !valid {
        var k :| k in errors;
      }
    }
  }

  /** `handleRateChange`: `parseFloat(value) || 0`, so a non-numeric input stores 0. */
  function RateChanged(form: Object, parsed: Option<real>): (f: Object)
    ensures Get(f, "hourly_rate") == Num(NumberOrZero(parsed))
    ensures forall k :: k != "hourly_rate" ==> Get(f, k) == Get(form, k)
  {
    SetField(form, "hourly_rate", Num(NumberOrZero(parsed)))
  }

  /** A rate that does not parse is stored as 0 and the form then fails on the rate. */
  lemma NonNumericRateFails(form: Object)
    ensures Get(RateChanged(form, None), "hourly_rate") == Num(0.0)
    ensures MachineErrorFor(RateChanged(form, None), "hourly_rate") == Some(RateNotPositive)
  {
  }

  /** The rate stays a number from the initial state on, whatever the inputs do. */
  lemma RateStaysNumber(form: Object, name: string, value: string, parsed: Option<real>)
    requires Get(form, "hourly_rate").Num? && name in {"name", "machine_type"}
    ensures Get(MachineInitialState, "hourly_rate").Num?
    ensures Get(HandleTextChange(form, name, value), "hourly_rate").Num?
    ensures Get(RateChanged(form, parsed), "hourly_rate").Num?
  {
  }

  /** The untouched machine form fails on name and type only; its default rate 5.00 passes. */
  lemma InitialMachineFormErrors()
    ensures MachineErrorFor(MachineInitialState, "name") == Some(NameRequired)
    ensures MachineErrorFor(MachineInitialState, "machine_type") == Some(TypeRequired)
    ensures MachineErrorFor(MachineInitialState, "hourly_rate") == None
  {
  }

  /** CreateMachineModal's state: the form object and the errors last reported. */
  class CreateMachineModal {
    var formData: Object
    var formErrors: Errors

    constructor()
      ensures formData == MachineInitialState && formErrors == map[]
    {
      formData := MachineInitialState;
      formErrors := map[];
    }

    method HandleChange(name: string, value: string)
      modifies this
      ensures formData == HandleTextChange(old(formData), name, value)
      ensures formErrors == old(formErrors)
    {
      formData := HandleTextChange(formData, name, value);
    }

    method HandleRateChange(parsed: Option<real>)
      modifies this
      ensures formData == RateChanged(old(formData), parsed)
      ensures formErrors == old(formErrors)
    {
      formData := RateChanged(formData, parsed);
    }

    /** `handleSubmit`: as CreateFriendModal's, resetting to the 5.00-rate initial state on success. */
    method Submit(created: bool) returns (sent: Option<Object>)
      modifies this
      ensures forall k :: k in formErrors <==> MachineErrorFor(old(formData), k).Some?
      ensures forall k :: k in formErrors ==> formErrors[k] == MachineErrorFor(old(formData), k).value
      ensures sent.Some? <==> MachineFormOk(old(formData))
      ensures sent.Some? ==> sent.value == old(formData)
      ensures formData == if sent.Some? && created then MachineInitialState else old(formData)
    {
      var errors, valid := ValidateMachineForm(formData);
      formErrors := errors;
      if !valid {
        return None;
      }
      sent := Some(formData);
      if created {
        formData := MachineInitialState;
      }
    }
  }

  // ---- CreateFriendModal and EditFriendModal ----

  /** The rule of each friend field: each of the four, when empty, is required. */
  function FriendErrorFor(form: Object, field: string): Option<string> {
    if field == "name" && !Truthy(Get(form, "name")) then Some("Name is required")
    else if field == "role" && !Truthy(Get(form, "role")) then Some("Role is required")
    else if field == "description" && !Truthy(Get(form, "description")) then Some("Description is required")
    else if field == "gender" && !Truthy(Get(form, "gender")) then Some("Gender is required")
    else None
  }

  predicate FriendFormOk(form: Object) {
    Truthy(Get(form, "name")) && Truthy(Get(form, "role")) &&
    Truthy(Get(form, "description")) && Truthy(Get(form, "gender"))
  }

  /** `validateForm` of CreateFriendModal and of EditFriendModal (the two are the same code). */
  method ValidateFriendForm(form: Object) returns (errors: Errors, valid: bool)
    ensures forall k :: k in errors <==> FriendErrorFor(form, k).Some?
    ensures forall k :: k in errors ==> errors[k] == FriendErrorFor(form, k).value
    ensures valid <==> errors == map[]
    ensures valid <==> FriendFormOk(form)
  {
    errors := map[];
    if !Truthy(Get(form, "name")) {
      errors := errors["name" := "Name is required"];
    }
    if !Truthy(Get(form, "role")) {
      errors := errors["role" := "Role is required"];
    }
    if !Truthy(Get(form, "description")) {
      errors := errors["description" := "Description is required"];
    }
    if !Truthy(Get(form, "gender")) {
      errors := errors["gender" := "Gender is required"];
    }
    forall k ensures (k in errors <==> FriendErrorFor(form, k).Some?) && (k in errors ==> errors[k] == FriendErrorFor(form, k).value) {
      if k !in {"name", "role", "description", "gender"} {
        assert k !in errors;
      }
    }
    valid := |errors| == 0;
    assert valid <==> errors == map[] by {
      if !valid {
        var k :| k in errors;
      }
    }
  }

  /** CreateFriendModal's `initialState`, also its state after a successful submit. */
  const FriendInitialState: Object := map["name" := Str(""), "role" := Str(""), "description" := Str(""), "gender" := Str("")]

  /** The untouched friend form fails on all four fields. */
  lemma InitialFriendFormErrors()
    ensures forall k :: k in {"name", "role", "description", "gender"} ==> FriendErrorFor(FriendInitialState, k).Some?
  {
  }

  /** `friend.x || ''`. */
  function OrEmpty(v: Value): (r: Value)
    ensures Truthy(v) ==> r == v
    ensures !Truthy(v) ==> r == Str("")
  {
    if Truthy(v) then v else Str("")
  }

  /** EditFriendModal's effect: the four fields copied from the friend, '' for each missing one. */
  function PopulateFromFriend(friend: Object): (f: Object)
    ensures f.Keys == {"name", "role", "description", "gender"}
    ensures forall k :: k in f ==> f[k] == OrEmpty(Get(friend, k))
  {
    map["name" := OrEmpty(Get(friend, "name")), "role" := OrEmpty(Get(friend, "role")),
        "description" := OrEmpty(Get(friend, "description")), "gender" := OrEmpty(Get(friend, "gender"))]
  }

  /** A populated edit form passes validation exactly when the friend has all four fields. */
  lemma PopulatedFormOkIff(friend: Object)
    ensures FriendFormOk(PopulateFromFriend(friend)) <==>
      Truthy(Get(friend, "name")) && Truthy(Get(friend, "role")) &&
      Truthy(Get(friend, "description")) && Truthy(Get(friend, "gender"))
  {
  }

  /** CreateFriendModal's state: the form object and the errors last reported. */
  class CreateFriendModal {
    var formData: Object
    var formErrors: Errors

    constructor()
      ensures formData == FriendInitialState && formErrors == map[]
    {
      formData := FriendInitialState;
      formErrors := map[];
    }

    method HandleChange(name: string, value: string)
      modifies this
      ensures formData == HandleTextChange(old(formData), name, value)
      ensures formErrors == old(formErrors)
    {
      formData := HandleTextChange(formData, name, value);
    }

    /**
     * `handleSubmit`: validation first; an invalid form sends nothing. A
     * valid one is sent as it stands, and when the server accepts it
     * (`created`) the form is reset to the initial state; a failure keeps it.
     */
    method Submit(created: bool) returns (sent: Option<Object>)
      modifies this
      ensures forall k :: k in formErrors <==> FriendErrorFor(old(formData), k).Some?
      ensures forall k :: k in formErrors ==> formErrors[k] == FriendErrorFor(old(formData), k).value
      ensures sent.Some? <==> FriendFormOk(old(formData))
      ensures sent.Some? ==> sent.value == old(formData)
      ensures formData == if sent.Some? && created then FriendInitialState else old(formData)
    {
      var errors, valid := ValidateFriendForm(formData);
      formErrors := errors;
      if !valid {
        return None;
      }
      sent := Some(formData);
      if created {
        formData := FriendInitialState;
      }
    }
  }

  // ---- StartSessionModal ----

  const UserSelectionRequired := "User selection is required"
  const MachineSelectionRequired := "Machine selection is required"
  const InsufficientBalance := "User has insufficient balance"

  /** The rule of each session-start field; an insufficient balance overrides the user selection message. */
  function StartSessionErrorFor(form: Object, user: Option<UserRow>, machine: Option<Machine>, field: string): Option<string> {
    if field == "user_id" then
      (if user.Some? && machine.Some? && user.value.balance <= 0.0 then Some(InsufficientBalance)
       else if !Truthy(Get(form, "user_id")) then Some(UserSelectionRequired)
       else None)
    else if field == "machine_id" then
      (if !Truthy(Get(form, "machine_id")) then Some(MachineSelectionRequired) else None)
    else None
  }

  predicate StartSessionOk(form: Object, user: Option<UserRow>, machine: Option<Machine>) {
    Truthy(Get(form, "user_id")) && Truthy(Get(form, "machine_id")) &&
    !(user.Some? && machine.Some? && user.value.balance <= 0.0)
  }

  /** StartSessionModal's `validateForm`. */
  method ValidateStartSession(form: Object, user: Option<UserRow>, machine: Option<Machine>) returns (errors: Errors, valid: bool)
    ensures forall k :: k in errors <==> StartSessionErrorFor(form, user, machine, k).Some?
    ensures forall k :: k in errors ==> errors[k] == StartSessionErrorFor(form, user, machine, k).value
    ensures valid <==> errors == map[]
    ensures valid <==> StartSessionOk(form, user, machine)
  {
    errors := map[];
    if !Truthy(Get(form, "user_id")) {
      errors := errors["user_id" := UserSelectionRequired];
    }
    if !Truthy(Get(form, "machine_id")) {
      errors := errors["machine_id" := MachineSelectionRequired];
    }
    if user.Some? && machine.Some? && user.value.balance <= 0.0 {
      errors := errors["user_id" := InsufficientBalance];
    }
    valid := |errors| == 0;
    assert valid <==> errors == map[] by {
      if !valid {
        var k :| k in errors;
      }
    }
  }
}
