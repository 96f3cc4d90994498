# Gaming cafe: verified model of the session, form and access rules

This project models the decision and arithmetic rules of the gaming-cafe management
application: a React frontend where administrators manage users, machines and play
sessions, users watch their remaining play time, and everyone keeps a list of "friend"
cards; and a Flask backend that stores the friend cards and registers accounts.

What is modelled, module by module:

- `Js` (js.dfy): the dynamic values held in form state and decoded JSON, with
  JavaScript truthiness, `o[key]` reading `undefined` for a missing property,
  `parseFloat(x) || 0` and `response.list || []`.
- `Text` (text.dfy): decimal rendering of integers, parsing back, `padStart` and ASCII
  case mapping.
- `Lists` (lists.dfy): the list updates the pages apply to their state. These are append,
  replace-by-id (`map`), remove-by-id (`filter`) and `find`.
- `Entities` (entities.dfy): the records the frontend lists (machines, users, active
  sessions, friends, transactions).
- `Auth` (auth.dfy): `isAuthenticated`, `isAdmin` and `logout` of the authentication
  context. `logout` is a class whose method updates the user, storage and location.
- `Billing` (billing.dfy): the three remaining-time calculators, the estimated cost, the
  dashboard's machine shares and the start-session dialog's affordable time. Money and
  hours are exact reals; times are integer milliseconds; the current time is a parameter.
- `Forms` (forms.dfy): the input handlers, the validators, the payloads and the initial
  states of the create-user, signup, create-machine, create/edit-friend and start-session
  forms.
  - Each validator is a method that builds the error map one check at a time. It is
    proved against a per-field rule function.
  - The machine and friend dialogs are classes holding their form state.
- `Routing` (routing.dfy): the two `ProtectedRoute` guards, the application's route table
  and the navigation bar's items.
- `Views` (views.dfy): the list state of the machine, user, session and friend pages (as
  classes), FriendCard's rules and the start-session dialog's selection logic.
- `FriendsApi` (friends_api.dfy): the backend's friend endpoints over a friend table, the
  signup endpoint over an account table, and `admin_required`.

Two behaviours a reader might expect to be otherwise follow the code as written:

- The profile page's `percentage` is 0 on both paths, as `UserProfile.jsx:128` writes it.
  It is not a share of a full day.
- Remaining time that decays to zero is classed "critical", never "expired".

## Model

| member | source | states |
|---|---|---|
| Js.NumberOrZero | frontend/src/components/CreateMachineModal.jsx:48-53 | `parseFloat(v) \|\| 0`: an input that does not parse gives 0, a number gives itself |
| Js.ListOrEmpty | frontend/src/components/Home.jsx:45 | a reply without the list gives the empty list, otherwise the list sent |
| Text.PadStart | frontend/src/components/UserProfile.jsx:119-120 | result length is max(width, length); the text is kept as a suffix; only fill characters are added in front |
| Text.PadStartParses | frontend/src/components/UserProfile.jsx:119-121 | a zero-padded number is all digits and reads back as the same number |
| Text.Utf16Length | frontend/src/components/CreateUserModal.jsx:52 | `.length` of a string: between its number of characters and twice that, and exactly that number when every character is below U+10000 |
| Text.Utf16LengthOne | frontend/src/components/CreateUserModal.jsx:52 | a single character is 2 code units from U+10000 on and 1 below |
| Text.Utf16LengthAppend | frontend/src/components/CreateUserModal.jsx:52 | the length of a concatenation is the sum of the lengths, so with the one-character lemma it fixes `.length` of every string |
| Text.IntToStringInjective | frontend/src/components/StartSessionModal.jsx:86-91 | two ids with the same decimal text are equal, so matching `id.toString()` against the chosen value identifies one id |
| Lists.Replace | frontend/src/components/MachineManagement.jsx:70-74 | same length; each element whose id equals the update's id becomes the update, every other element is unchanged |
| Lists.Filter | frontend/src/components/StartSessionModal.jsx:60-61 | an element is kept iff it is in the list and passes the test; the result is never longer |
| Lists.FilterAppend | frontend/src/components/MachineManagement.jsx:117 | filtering distributes over concatenation, so the survivors keep their order |
| Lists.FilterIdempotent | frontend/src/components/MachineManagement.jsx:117 | filtering twice by the same test equals filtering once |
| Lists.RemoveKey | frontend/src/components/MachineManagement.jsx:117 | removing by id keeps exactly the elements whose id differs |
| Lists.RemoveAppended | frontend/src/components/Home.jsx:55-69 | appending an element with a fresh id and then removing that id gives back the original list |
| Lists.Find | frontend/src/components/StartSessionModal.jsx:87 | none iff no element passes; otherwise the value is the first element that passes |
| Auth.IsAdmin | frontend/src/contexts/AuthContext.jsx:127-140 | no user is not admin; a string flag counts iff it lower-cases to "true"; any other flag counts iff it is truthy |
| Auth.AdminIsAuthenticated | frontend/src/contexts/AuthContext.jsx:122-140 | every administrator is authenticated |
| Auth.AdminStringSpellings | frontend/src/contexts/AuthContext.jsx:135-137 | a string flag makes its holder an admin iff it is "true" in some mix of upper and lower case |
| Auth.StringFalseIsNotAdmin | frontend/src/contexts/AuthContext.jsx:135-139 | the string "false" is truthy, yet its holder is not an administrator |
| Auth.AuthState.Logout | frontend/src/contexts/AuthContext.jsx:109-119 | 'token' and 'user' are removed from storage and nothing else; the user is null; the location is /login; the user is then neither authenticated nor admin |
| Billing.Ceil | frontend/src/components/SessionManagement.jsx:121 | `Math.ceil`: the least integer not below x |
| Billing.Round | frontend/src/components/StartSessionModal.jsx:179 | `Math.round`: the integer within one half of x, halves going up |
| Billing.ElapsedHours | frontend/src/components/SessionManagement.jsx:91-93 | elapsed hours are non-negative iff now is not before the start |
| Billing.ElapsedHoursMonotone | frontend/src/components/SessionManagement.jsx:91-93 | elapsed hours never decrease as now advances |
| Billing.CostSoFar | frontend/src/components/SessionManagement.jsx:96 | the cost is 0 at the start, and never negative from the start on at a rate of 0 or more |
| Billing.CostSoFarMonotone | frontend/src/components/SessionManagement.jsx:96 | for a rate of 0 or more, the cost so far never decreases as now advances |
| Billing.RemainingBalance | frontend/src/components/SessionManagement.jsx:99 | `max(0, balance - cost)`: never negative, at least balance - cost, and equal to 0 or to balance - cost |
| Billing.RemainingHours | frontend/src/components/SessionManagement.jsx:99-102 | never negative; remaining hours times the rate is the remaining balance |
| Billing.RemainingHoursMonotone | frontend/src/components/SessionManagement.jsx:93-102 | with start and rate fixed and rate > 0, a later now never gives more remaining hours |
| Billing.Split | frontend/src/components/SessionManagement.jsx:105-106 | hours are the floor; minutes lie in 0..59; hours*60+minutes is the floor of the hours in minutes |
| Billing.SplitTruncates | frontend/src/components/SessionManagement.jsx:105-108 | 1.99 hours splits into 1 h 59 m (minutes are truncated) |
| Billing.RemainingClock | frontend/src/components/SessionManagement.jsx:88-108 | non-negative hours, minutes in 0..59, total minutes = floor(remaining hours × 60); once the balance is spent the clock reads 0 h 0 m |
| Billing.RemainingClockMonotone | frontend/src/components/SessionManagement.jsx:93-106 | the remaining clock's total minutes never increase as now advances |
| Billing.FutureStartNotGuarded | frontend/src/components/SessionManagement.jsx:91-102 | a start time in the future is not guarded: the remaining time exceeds balance / rate |
| Billing.SessionClock | frontend/src/components/SessionManagement.jsx:82-106 | a session without a start time or with a missing or non-positive rate gives 0 h 0 m; otherwise exactly the remaining clock of `user_balance \|\| 0`, the rate and the start, with non-negative hours and minutes in 0..59 |
| Billing.SessionTimeRemaining | frontend/src/components/SessionManagement.jsx:82-109 | such a session shows exactly "0h 0m" |
| Billing.ShowClockReadsBack | frontend/src/components/SessionManagement.jsx:108 | the text "Xh Ym" reads back as the clock it shows |
| Billing.SessionTimeRemainingReadsBack | frontend/src/components/SessionManagement.jsx:82-109 | the session table's text reads back as the session's clock |
| Billing.RoundUpToQuarter | frontend/src/components/SessionManagement.jsx:118-121 | the rounded hours are a multiple of 0.25, at least the elapsed hours, and less than 0.25 above them |
| Billing.RoundUpToQuarterLeast | frontend/src/components/SessionManagement.jsx:121 | the rounded hours are the least quarter not below the elapsed hours |
| Billing.RoundUpToQuarterMonotone | frontend/src/components/SessionManagement.jsx:121 | rounding up to quarters preserves order |
| Billing.EstimatedCost | frontend/src/components/SessionManagement.jsx:112-124 | `calculateEstimatedCost` before formatting: never negative from the start on at a rate of 0 or more; its relation to the exact cost is the lemmas below |
| Billing.EstimatedCostAtStart | frontend/src/components/SessionManagement.jsx:112-124 | the estimate is 0 when no time has elapsed |
| Billing.EstimatedCostMonotone | frontend/src/components/SessionManagement.jsx:112-124 | for a rate of 0 or more, the estimate never decreases as now advances |
| Billing.EstimatedCostCoversCostSoFar | frontend/src/components/SessionManagement.jsx:112-124 | for a positive rate, the estimate is at least the exact cost so far and exceeds it by less than a quarter hour's rate |
| Billing.EstimatedCostExample | frontend/src/components/SessionManagement.jsx:112-124 | 10 minutes at 6.00 an hour is billed as a quarter hour, 1.50 |
| Billing.DashboardBalance | frontend/src/components/Dashboard.jsx:139-140 | a truthy session balance is used; otherwise the logged-in user's balance when the session is theirs; otherwise 0, so a balance of 0 falls through |
| Billing.DashboardTimeRemaining | frontend/src/components/Dashboard.jsx:133-161 | a session without start time or positive rate gives "0h 0m"; a missing user balance gives "NaNh NaNm"; otherwise the remaining clock of the dashboard balance, the rate and the start, shown as "Xh Ym" |
| Billing.DashboardAgreesWithSessionTable | frontend/src/components/Dashboard.jsx:133-161 | with a truthy session balance the dashboard shows what the session table shows |
| Billing.DashboardExhausted | frontend/src/components/Dashboard.jsx:148-160 | once the cost so far reaches the balance used, the dashboard shows "0h 0m" |
| Billing.MachineSharePercent | frontend/src/components/Dashboard.jsx:266-268 | the unrounded share: 0 when there are no machines; otherwise share × total = count × 100, and 0..100 for counts within the total |
| Billing.MachineSharesSumTo100 | frontend/src/components/Dashboard.jsx:266-290 | when each machine has exactly one of the three statuses, the three unrounded shares add up to 100 |
| Billing.ShownSharePercent | frontend/src/components/Dashboard.jsx:266-268 | the share as shown by `toFixed(0)`: 0 without machines, otherwise the whole number within one half of the unrounded share, halves up |
| Billing.ShownSharesNear100 | frontend/src/components/Dashboard.jsx:266-290 | the three shown shares add up to 99, 100 or 101, never further from 100 |
| Billing.ShownSharesCanSum99 | frontend/src/components/Dashboard.jsx:266-290 | one machine per status shows 33% three times, 99 in all |
| Billing.ShownSharesCanSum101 | frontend/src/components/Dashboard.jsx:266-290 | counts 1, 1 and 4 show 17%, 17% and 67%, 101 in all |
| Billing.Classify | frontend/src/components/UserProfile.jsx:129 | critical iff at most 15 minutes, warning iff 16..30, normal iff more than 30 |
| Billing.ClassifyMonotone | frontend/src/components/UserProfile.jsx:129 | fewer minutes never give a less urgent status |
| Billing.ProfileTimeRemaining | frontend/src/components/UserProfile.jsx:84-131 | an invalid session gives {0, 0, 0, "00:00", 0, expired}; percentage is always 0; expired iff invalid; total = hours×60+minutes with minutes in 0..59; otherwise status classified from the total |
| Billing.ProfileAgreesWithSessionTable | frontend/src/components/UserProfile.jsx:96-116 | the profile's hours and minutes are the session table's clock |
| Billing.ProfileFormattedReadsBack | frontend/src/components/UserProfile.jsx:119-121 | "HH:MM" has at least two hour digits, a colon and two minute digits, which read back as hours and minutes |
| Billing.ExhaustedIsCritical | frontend/src/components/UserProfile.jsx:108-130 | a valid session whose balance is spent shows "00:00" and is critical, not expired |
| Billing.ProfileStatusTightens | frontend/src/components/UserProfile.jsx:99-129 | as now advances, total minutes never grow and the status never becomes less urgent |
| Billing.ProfileExample | frontend/src/components/UserProfile.jsx:96-130 | 10.00 balance, 5.00 an hour, one hour in: "01:00", normal |
| Billing.AffordableTime | frontend/src/components/StartSessionModal.jsx:96-108 | 0 without a user or machine, or with a rate ≤ 0; otherwise at most balance/rate, less than 0.01 below it, with two decimals |
| Billing.RoundedClock | frontend/src/components/StartSessionModal.jsx:177-181 | whole hours are the floor; the minutes are the fraction of an hour × 60 rounded half up, so they lie in 0..60 |
| Billing.FormatTime | frontend/src/components/StartSessionModal.jsx:177-181 | for a non-negative time the text "Xh Ym" reads back as the rounded clock; a negative time, shown when the balance is at or below zero, starts with "-" |
| Billing.NegativeTimeShown | frontend/src/components/StartSessionModal.jsx:177-181 | half an hour owed is shown as "-1h 30m" |
| Billing.RoundedClockCanShowSixty | frontend/src/components/StartSessionModal.jsx:177-181 | 1.995 hours shows as 1 h 60 m, because minutes are rounded |
| Billing.AffordableTimeShowsAtMost59Minutes | frontend/src/components/StartSessionModal.jsx:105 | on the affordable time (two decimals) the rounded minutes never reach 60 |
| Forms.SetField | frontend/src/components/CreateFriendModal.jsx:35-41 | `{...form, [name]: v}`: the named field holds v and every other field is unchanged |
| Forms.HandleTextChange | frontend/src/components/EditFriendModal.jsx:45-51 | a text input writes its value to its field only |
| Forms.ValidateAccountForm | frontend/src/components/CreateUserModal.jsx:44-63 | each key of the error map is present iff its rule fails, with the rule's message; valid iff the map is empty iff username given, password given and at least 6 UTF-16 code units long (`.length`), confirmation equal |
| Forms.AstralPasswordLongEnough | frontend/src/components/Signup.jsx:58-62 | a password of three emoji is six code units long, so with a username and a matching confirmation the form is valid |
| Forms.FiveBmpCharactersTooShort | frontend/src/components/Signup.jsx:58-62 | five characters from the Basic Multilingual Plane are too short a password |
| Forms.InitialAccountFormErrors | frontend/src/components/Signup.jsx:24-29 | an untouched create-user or signup form fails on username and password but not on the confirmation |
| Forms.HandleUserChange | frontend/src/components/CreateUserModal.jsx:36-42 | a checkbox stores `checked`, any other input `value`; other fields are unchanged |
| Forms.HandleGenderChange | frontend/src/components/Signup.jsx:44-49 | only the gender changes |
| Forms.CreateUserPayload | frontend/src/components/CreateUserModal.jsx:74-81 | the body has exactly username, password, is_admin (from isAdmin) and gender |
| Forms.SignupPayload | frontend/src/components/Signup.jsx:83-85 | every field but confirmPassword, unchanged |
| Forms.PayloadsIgnoreConfirmation | frontend/src/components/Signup.jsx:83-85 | forms that differ only in the confirmation send the same data, for both dialogs |
| Forms.ValidateMachineForm | frontend/src/components/CreateMachineModal.jsx:55-72 | error keys present iff the rule fails; valid iff name and type are given and the rate is a positive value |
| Forms.RateChanged | frontend/src/components/CreateMachineModal.jsx:48-53 | the rate becomes `parseFloat(v) \|\| 0`; other fields unchanged |
| Forms.NonNumericRateFails | frontend/src/components/CreateMachineModal.jsx:48-68 | a rate that does not parse is stored as 0 and then fails with "Hourly rate must be greater than 0" |
| Forms.RateStaysNumber | frontend/src/components/CreateMachineModal.jsx:29-53 | the rate holds a number initially and after every input handler |
| Forms.InitialMachineFormErrors | frontend/src/components/CreateMachineModal.jsx:29-33 | the initial form fails on name and type; its 5.00 rate passes |
| Forms.CreateMachineModal.HandleChange | frontend/src/components/CreateMachineModal.jsx:40-46 | the named field takes the input text; the other fields and the recorded errors are unchanged |
| Forms.CreateMachineModal.HandleRateChange | frontend/src/components/CreateMachineModal.jsx:48-53 | the rate becomes `parseFloat(v) \|\| 0`; the other fields and the recorded errors are unchanged |
| Forms.CreateMachineModal.Submit | frontend/src/components/CreateMachineModal.jsx:74-93 | errors recorded from the form, each key with its rule's message; sent iff valid, as it stands; reset to the initial state only after the server accepts it |
| Forms.ValidateFriendForm | frontend/src/components/CreateFriendModal.jsx:43-64 | each of name, role, description and gender has its "… is required" error iff empty; valid iff all four are non-empty |
| Forms.InitialFriendFormErrors | frontend/src/components/CreateFriendModal.jsx:23-28 | the all-empty initial form fails on all four fields |
| Forms.CreateFriendModal.HandleChange | frontend/src/components/CreateFriendModal.jsx:35-41 | the named field takes the input text; the other fields and the recorded errors are unchanged |
| Forms.CreateFriendModal.Submit | frontend/src/components/CreateFriendModal.jsx:66-85 | errors recorded with each rule's message; sent iff valid; reset to the empty initial state only after the server accepts it |
| Forms.OrEmpty | frontend/src/components/EditFriendModal.jsx:37-40 | `v \|\| ''`: a truthy value is kept, anything else becomes '' |
| Forms.PopulateFromFriend | frontend/src/components/EditFriendModal.jsx:35-42 | the form holds exactly the four fields, each copied from the friend or '' when missing |
| Forms.PopulatedFormOkIff | frontend/src/components/EditFriendModal.jsx:35-74 | a populated edit form is valid iff the friend has all four fields |
| Forms.ValidateStartSession | frontend/src/components/StartSessionModal.jsx:110-128 | user and machine errors when not chosen; "User has insufficient balance" overrides when both are selected and the balance is ≤ 0; valid iff no error |
| Routing.Guard | frontend/src/App.jsx:18-38 | loading shows the placeholder; otherwise unauthenticated goes to /login; authenticated non-admin on an admin route goes to /; renders iff not loading, authenticated and (admin when required) |
| Routing.SimpleGuard | frontend/src/components/ProtectedRoute.jsx:5-20 | loading first; unauthenticated goes to /login; renders iff not loading and authenticated |
| Routing.GuardsAgree | frontend/src/components/ProtectedRoute.jsx:5-20 | without the admin requirement the two guards decide alike |
| Routing.SimpleGuardIgnoresAdmin | frontend/src/components/ProtectedRoute.jsx:5-19 | the admin flag never changes ProtectedRoute.jsx's outcome |
| Auth.IsAuthenticated | frontend/src/contexts/AuthContext.jsx:122-124 | `!!user`: authenticated exactly when a user is present; AdminIsAuthenticated and the guards build on it |
| Routing.RouteFor | frontend/src/App.jsx:58-119 | each table path gives its own page; /users, /machines, /sessions need admin; / and /profile need authentication; /login and /signup are public; anything else is the catch-all; paths are compared ignoring letter case and trailing slashes |
| Routing.StripTrailingSlashes | frontend/src/App.jsx:56-119 | the result is a prefix of the path, does not end in "/", and everything dropped is "/" |
| Routing.RoutePath | frontend/src/App.jsx:56-119 | the path the router compares: "/" or a path not ending in "/" that is a prefix of the lower-cased path, followed only by slashes |
| Routing.CanonicalPathUnchanged | frontend/src/App.jsx:56-119 | a lower-case path without a trailing slash is compared as written |
| Routing.RoutePathIdempotent | frontend/src/App.jsx:56-119 | normalising a path twice is normalising it once |
| Routing.TablePathsCanonical | frontend/src/App.jsx:56-119 | every path of the route table is compared as written |
| Routing.CaseAndTrailingSlashIgnored | frontend/src/App.jsx:85-94 | "/Users" and "/users/" reach the user management route like "/users" |
| Routing.Visit | frontend/src/App.jsx:56-120 | public pages always show; unmatched paths redirect to /; a guarded page waits while loading, sends an unauthenticated visitor to /login and a non-admin on an admin page to /, and otherwise shows the page |
| Routing.AdminPagesNeedAdmin | frontend/src/App.jsx:85-116 | on any spelling the router takes for an admin page, an authenticated non-admin is sent to / and an admin sees the page |
| Routing.RedirectsSettle | frontend/src/App.jsx:27-119 | once loading is over, every redirect reaches a shown page within two steps |
| Routing.NavItems | frontend/src/components/Layout.jsx:352-382 | the base items come first; 2 items for a user, 5 for an admin, the last three being User, Machine and Session Management |
| Routing.AtMostOneActive | frontend/src/components/Layout.jsx:201 | at most one navigation item is highlighted for any path |
| Routing.IsActive | frontend/src/components/Layout.jsx:201 | a link is highlighted exactly when the current path equals its target, as written; AtMostOneActive and VariantPathHighlightsNothing state its consequences |
| Routing.VariantPathHighlightsNothing | frontend/src/components/Layout.jsx:201 | "/users/" shows the user management page, yet no navigation link is highlighted, since the highlight compares exactly |
| Routing.NavLinksOpen | frontend/src/components/Layout.jsx:186-201 | every link offered to a logged-in user opens its page without a redirect |
| Views.StatusColor | frontend/src/components/MachineManagement.jsx:139-150 | green iff Available, blue iff In Use, orange iff Maintenance, gray iff anything else |
| Views.DisabledExactlyWhenBlue | frontend/src/components/MachineManagement.jsx:234-253 | status change and delete are disabled iff the badge is blue (In Use) |
| Views.MachineManagement.FetchMachines | frontend/src/components/MachineManagement.jsx:49-62 | a reply replaces the list (empty when it has none); a failure keeps it and sets the error message |
| Views.MachineManagement.HandleMachineCreated | frontend/src/components/MachineManagement.jsx:65-67 | the new machine is appended; nothing else changes |
| Views.MachineManagement.HandleMachineUpdated | frontend/src/components/MachineManagement.jsx:70-74 | the list becomes the replace-by-id of the update |
| Views.MachineManagement.HandleStatusChange | frontend/src/components/MachineManagement.jsx:83-90 | the returned machine replaces the one with its id; a failure changes nothing |
| Views.MachineManagement.HandleDeleteMachine | frontend/src/components/MachineManagement.jsx:111-117 | only a confirmed, successful delete removes the machines with that id |
| Views.Home.FetchFriends | frontend/src/components/Home.jsx:39-52 | a reply without `friends` gives the empty list; a failure keeps the list and sets the error |
| Views.Home.HandleFriendCreated | frontend/src/components/Home.jsx:55-57 | appended at the end |
| Views.Home.HandleFriendUpdated | frontend/src/components/Home.jsx:60-64 | replace by id |
| Views.Home.HandleFriendDeleted | frontend/src/components/Home.jsx:67-69 | remove by id, the rest in order |
| Views.ReplaceKeepsIds | frontend/src/components/Home.jsx:60-64 | an update whose id is present keeps the list's set of ids |
| Views.CanModify | frontend/src/components/FriendCard.jsx:25 | no user may not modify; the creator may; any other user may iff the stored is_admin flag is truthy |
| Views.AdminsCanModify | frontend/src/components/FriendCard.jsx:25 | whoever `isAdmin()` accepts may modify every card |
| Views.CardTrustsStringFlag | frontend/src/components/FriendCard.jsx:25 | a flag "false" lets the card offer edit and delete to a user `isAdmin()` rejects |
| Views.Capitalize | frontend/src/components/FriendCard.jsx:76 | same length; the first character upper-cased, the rest unchanged |
| Views.CapitalizeIdempotent | frontend/src/components/FriendCard.jsx:76 | capitalising twice is capitalising once |
| Views.ImageSource | frontend/src/components/FriendCard.jsx:64 | the friend's own non-empty URL, else the placeholder |
| Views.ImageSourceNonEmpty | frontend/src/components/FriendCard.jsx:64 | the image source is never empty |
| Views.WithDefaults | frontend/src/components/UserManagement.jsx:83-86 | the created user keeps id and name; the balance is `balance \|\| 0` |
| Views.UserManagement.FetchUsers | frontend/src/components/UserManagement.jsx:63-76 | a reply replaces the list (empty when it has none); a failure keeps it and sets the error; the selection and amount are untouched |
| Views.UserManagement.HandleUserCreated | frontend/src/components/UserManagement.jsx:79-95 | a user object is appended with the defaults; anything else leaves the list |
| Views.UserManagement.OpenBalanceModal | frontend/src/components/UserManagement.jsx:98-102 | the user is selected, the amount is 0, and the guard then refuses |
| Views.UserManagement.SetBalance | frontend/src/components/UserManagement.jsx:274 | a non-numeric amount becomes 0, which the guard refuses |
| Views.UserManagement.HandleAddBalance | frontend/src/components/UserManagement.jsx:105-131 | the service is called iff a user is selected and the amount is > 0; a reply with a user replaces only that id; a reply without one asks for the list again and nothing else does; a failed request leaves the list |
| Views.SessionManagement.HandleSessionCreated | frontend/src/components/SessionManagement.jsx:77-79 | the new session is appended; the others are unchanged |
| Views.SessionManagement.FetchActiveSessions | frontend/src/components/SessionManagement.jsx:57-74 | a reply replaces the list, a failure keeps it and sets the error |
| Views.RecentTransactions | frontend/src/components/UserProfile.jsx:265 | at most five, the first ones, in the original order |
| Views.AvailableMachines | frontend/src/components/StartSessionModal.jsx:60-62 | a machine is offered iff it is in the reply and Available |
| Views.FindById | frontend/src/components/StartSessionModal.jsx:87-91 | a found element is the first whose id's text is the value; none means no element's id text is the value |
| Views.FindByIdSelects | frontend/src/components/StartSessionModal.jsx:86-91 | with distinct ids, choosing an id's text selects exactly that element |
| Views.StartSessionModal.FetchData | frontend/src/components/StartSessionModal.jsx:50-75 | users, then only the Available machines; a failed request stops the rest |
| Views.StartSessionModal.HandleChange | frontend/src/components/StartSessionModal.jsx:78-93 | writes the field; a user or machine choice selects the entity with that id text, or none |
| Views.StartSessionModal.ValidateForm | frontend/src/components/StartSessionModal.jsx:110-128 | errors recorded per the rule, each with the rule's message; valid iff both are chosen and the selected user's balance is positive |
| Views.SelectableMachinesAreAvailable | frontend/src/components/StartSessionModal.jsx:60-91 | every machine the dialog can select is Available |
| FriendsApi.AdminRequired | backend/routes.py:42-53 | a caller whose is_admin claim is not truthy gets 403 "Admin access required for this operation"; anyone else reaches the handler |
| FriendsApi.AvatarUrl | backend/routes.py:116-121 | the boy URL for "male", the girl URL for "female", each with the name appended; none otherwise |
| FriendsApi.AvatarUrlInjective | backend/routes.py:116-121 | an avatar URL determines the gender and the name it was built from |
| FriendsApi.CanAccess | backend/routes.py:88 | view, delete and update are allowed to a caller with a truthy is_admin claim or to the friend's creator; VisibleIffViewable and CardAgreesWithServer relate it to the listing and to the card |
| FriendsApi.FirstMissingField | backend/routes.py:105-108 | none iff all four fields are present and non-empty; otherwise the first failing field in the order name, role, description, gender |
| FriendsApi.Patched | backend/routes.py:179-192 | the update of update_friend; PatchedKeepsIdentity, PatchedIdempotent, PatchedAvatarMatches and RenameKeepsStaleAvatar state what it keeps and changes |
| FriendsApi.PatchedKeepsIdentity | backend/routes.py:179-192 | an update never changes the id or the creator; an empty body changes nothing |
| FriendsApi.PatchedIdempotent | backend/routes.py:179-192 | the same update applied twice equals applying it once |
| FriendsApi.PatchedAvatarMatches | backend/routes.py:186-192 | after an update with gender male or female, the avatar is that gender's URL with the updated name |
| FriendsApi.RenameKeepsStaleAvatar | backend/routes.py:180-192 | a rename without a gender keeps the old avatar URL |
| FriendsApi.CardAgreesWithServer | backend/routes.py:88 | FriendCard shows edit and delete iff the server would permit them, for the same user id and flag |
| FriendsApi.FriendStore.Visible | backend/routes.py:56-74 | an admin sees every friend; anyone else exactly the friends they created |
| FriendsApi.FriendStore.GetFriend | backend/routes.py:77-94 | 404 "Friend not found" for a missing id, then 403 without permission, else 200 with the friend |
| FriendsApi.FriendStore.CreateFriend | backend/routes.py:97-132 | 400 "Missing required field: f" for the first missing or empty field f in the order name, role, description, gender, nothing stored; otherwise 201 with a new row under a fresh id, created by the caller, with the gender's avatar |
| FriendsApi.FriendStore.DeleteFriend | backend/routes.py:139-156 | 404, then 403, then 200 with exactly that row removed |
| FriendsApi.FriendStore.UpdateFriend | backend/routes.py:162-199 | 404, then 403, then 200; the stored row becomes the step-by-step update of the old one, and no other row changes |
| FriendsApi.VisibleIffViewable | backend/routes.py:63-89 | a friend is listed for a caller iff the caller may open it |
| FriendsApi.NotFoundBeforeForbidden | backend/routes.py:83-89 | a missing friend is 404 for every caller, admin or not |
| FriendsApi.AccountStore.Signup | backend/routes.py:205-234 | 400 without username or password; 400 for a taken username; otherwise 201 with a new account whose is_admin defaults to false; afterwards the username is taken |

## Left out

- Timers and polling (the 30-second refresh and the dashboard timer) and React effects are not modelled. The clock is a parameter of each calculator.
- All HTTP I/O, `localStorage`, toasts, `window.confirm`, navigation side effects beyond the location field, and JSX rendering are not modelled. Each outcome of a request is a parameter of the method that handles it.
- IEEE-754 arithmetic, NaN (except the dashboard's missing user balance), `toFixed(2)` formatting and ISO date parsing are not modelled. Money and hours are exact reals, and times are integer milliseconds.
- The estimated cost is stated for a session that has a start time and a rate. With fields missing the source gives NaN, which the model does not represent.
- The machine-usage progress bar at `Dashboard.jsx:232` divides without a guard. With no machines it is a NaN artefact, so it is not modelled.
- Forms.AtMostZero: a string rate is treated as not ≤ 0. JavaScript compares numeric strings by value, but the rate can only ever hold a number (`Forms.RateStaysNumber`).
- `ToLower` and the gender capitalisation map ASCII letters only. Unicode case mapping is not modelled. String lengths the source compares (`.length`) are counted in UTF-16 code units by `Text.Utf16Length`.
- The dashboard's logged-in user is assumed present, as the route guard ensures.
- Views.CanModify: a friend's creator is an integer or null as the API sends it. A friend object with no `created_by` property at all is not modelled; with no user, that case would compare undefined with undefined.
- The restore-from-storage effect of the authentication context, and its login and signup network calls, are not modelled (I/O).
- Login.jsx is only an empty-field guard around a network call, and is not part of this model.
- Backend: the 500 paths are not modelled. These are the exception handlers and rollbacks, which depend on the database driver.
- Backend: JWT decoding, password hashing and the login and profile routes are not modelled.
- Backend: request bodies of the friend routes are maps of strings. JSON null or non-string values are not modelled.
- FriendsApi.AccountStore.Signup: body values are scalars. A JSON array or object as username or password (where Python's truthiness differs from JavaScript's, e.g. `"password": []` is refused with 400) is not modelled.
- Backend: the listing is a map keyed by id, so the order of rows in the JSON list is not modelled.
- backend/models.py declares no Friend class, and its User table is not modelled. Its `email`, `gender` and `img_url` columns are NOT NULL, and signup (`routes.py:222`) sets none of them, so as written every new signup fails at the commit and reaches the 500 handler. `FriendsApi.AccountStore.Signup`'s 201 branch models what the handler evidently intends.
- Views.MachineManagement.HandleStatusChange: the source maps over the list captured before the request (`MachineManagement.jsx:88`), so a list update that lands while the request is pending is overwritten. The model applies the reply to the list as it stands when the reply arrives.
- Views.UserManagement.HandleAddBalance: the same holds for the user list captured at `UserManagement.jsx:125`; interleaved updates are not modelled.
- Views.MachineManagement.HandleDeleteMachine: the same holds for the list filtered at `MachineManagement.jsx:117`.
- Routing.RoutePath: the router's percent-decoding of the path and case folding beyond ASCII letters are not modelled.
- The post-create refresh of the user list (`fetchUsers` after `handleUserCreated`) is the separate `FetchUsers` step.
- CreateUserModal's reset after a successful submit is not modelled. It follows the same pattern as the create-friend and create-machine dialogs.
