/**
 * The user administration page: the add-user form and its validity test,
 * the user search, the "signed-in user first" ordering, role choice and
 * assignment, and the local list updates after a delete or a status change.
 * Fields the server may leave out are `Option`s; `undefined` is `None`.
 */
module AdminUsers {
  import opened Wrappers
  import opened Seqs
  import opened Text

  datatype User = User(
    id: string,
    firstName: Option<string>,
    lastName: Option<string>,
    email: Option<string>,
    phoneNumber: Option<string>,
    roles: Option<seq<string>>,
    isActive: bool)

  /** A role the server offers. */
  datatype Role = Role(id: string, name: string)

  /** The signed-in account's profile; only its email is consulted here. */
  datatype Profile = Profile(email: Option<string>)

  datatype FormData = FormData(firstName: string, lastName: string, email: string, phoneNumber: string, password: string, roles: seq<string>)

  /** The form's data together with the two flags that `resetForm` clears. */
  datatype FormState = FormState(data: FormData, isAdding: bool, showPassword: bool)

  /** `user.roles || []`. */
  function RolesOf(user: User): seq<string> {
    user.roles.GetOr([])
  }

  // ----- Form -----

  function BasicFieldsValid(data: FormData): bool {
    Trim(data.firstName) != "" && Trim(data.lastName) != "" && Trim(data.email) != "" && |data.roles| > 0
  }

  /**
   * `isFormValid` as written: names and email non-blank and at least one
   * role, and a non-blank password only when the form is NOT adding a user.
   */
  function IsFormValid(data: FormData, isAdding: bool): (valid: bool)
    ensures valid <==>
      && !IsBlank(data.firstName) && !IsBlank(data.lastName) && !IsBlank(data.email) && |data.roles| > 0
      && (!isAdding ==> !IsBlank(data.password))
  {
    TrimEmptyIffBlank(data.firstName);
    TrimEmptyIffBlank(data.lastName);
    TrimEmptyIffBlank(data.email);
    TrimEmptyIffBlank(data.password);
    if !isAdding then BasicFieldsValid(data) && Trim(data.password) != "" else BasicFieldsValid(data)
  }

  /**
   * The test the form evidently means: the form only exists while a user
   * is being added, and it marks the password as required, so a
   * non-blank password is demanded exactly when adding.
   */
  function IsFormValidCorrected(data: FormData, isAdding: bool): (valid: bool)
    ensures valid <==>
      && !IsBlank(data.firstName) && !IsBlank(data.lastName) && !IsBlank(data.email) && |data.roles| > 0
      && (isAdding ==> !IsBlank(data.password))
  {
    TrimEmptyIffBlank(data.firstName);
    TrimEmptyIffBlank(data.lastName);
    TrimEmptyIffBlank(data.email);
    TrimEmptyIffBlank(data.password);
    if isAdding then BasicFieldsValid(data) && Trim(data.password) != "" else BasicFieldsValid(data)
  }

  /**
   * While adding, which is the only time the form and its submit button
   * are shown, a blank password is accepted as written and refused by the
   * corrected test; the two agree on every form with a non-blank password.
   */
  lemma BlankPasswordAcceptedWhileAdding()
    ensures var data := FormData("Sara", "Ali", "sara@example.com", "", "   ", ["Restaurant"]);
      && IsBlank(data.password)
      && IsFormValid(data, true)
      && SubmitEnabled(FormState(data, true, false))
      && !IsFormValidCorrected(data, true)
  {
    var data := FormData("Sara", "Ali", "sara@example.com", "", "   ", ["Restaurant"]);
    assert !IsBlank(data.firstName) by { assert !IsSpace(data.firstName[0]); }
    assert !IsBlank(data.lastName) by { assert !IsSpace(data.lastName[0]); }
    assert !IsBlank(data.email) by { assert !IsSpace(data.email[0]); }
  }

  lemma CorrectedAgreesOnNonBlankPassword(data: FormData, isAdding: bool)
    requires !IsBlank(data.password)
    ensures IsFormValid(data, isAdding) == IsFormValidCorrected(data, isAdding)
  {
  }

  /**
   * `handleRoleToggle(role)`: a chosen role is removed (every copy, the
   * other roles keeping their order and number), another appended at the
   * end. Nothing else in the form changes.
   */
  function ToggleFormRole(data: FormData, role: string): (r: FormData)
    ensures r.(roles := data.roles) == data
    ensures role in r.roles <==> role !in data.roles
    ensures forall x | x != role :: x in r.roles <==> x in data.roles
    ensures role !in data.roles ==> r.roles == data.roles + [role]
    ensures role in data.roles ==> IsSubsequence(r.roles, data.roles) && multiset(r.roles) == multiset(data.roles)[role := 0]
  {
    data.(roles := Toggle(data.roles, role))
  }

  /** Choosing a role that was not chosen and then choosing it again leaves the form as it was. */
  lemma ToggleFormRoleTwice(data: FormData, role: string)
    requires role !in data.roles
    ensures ToggleFormRole(ToggleFormRole(data, role), role) == data
  {
    ToggleTwiceRestores(data.roles, role);
  }

  const InitialFormData := FormData("", "", "", "", "", ["Restaurant"])

  /** `resetForm`: the blank form with the default role, not adding, password hidden. */
  function ResetForm(state: FormState): (r: FormState)
    ensures r.data.roles == ["Restaurant"]
    ensures r.data.firstName == r.data.lastName == r.data.email == r.data.phoneNumber == r.data.password == ""
    ensures !r.isAdding && !r.showPassword
  {
    FormState(InitialFormData, false, false)
  }

  /**
   * Whether the form's submit button is enabled (`disabled={!isFormValid()}`),
   * with the test as written: an enabled button means both names, the email
   * and a role are filled in, but the password is demanded only when the
   * form is not adding.
   */
  function SubmitEnabled(state: FormState): (enabled: bool)
    ensures enabled ==> !IsBlank(state.data.firstName) && !IsBlank(state.data.lastName) && !IsBlank(state.data.email)
    ensures enabled ==> |state.data.roles| > 0
    ensures enabled && !state.isAdding ==> !IsBlank(state.data.password)
  {
    IsFormValid(state.data, state.isAdding)
  }

  /**
   * While adding, the button is enabled for any form whose names, email and
   * roles are filled in, whatever the password; the corrected test refuses
   * such a form when its password is blank.
   */
  lemma BlankPasswordEnablesSubmit(data: FormData, showPassword: bool)
    requires !IsBlank(data.firstName) && !IsBlank(data.lastName) && !IsBlank(data.email) && |data.roles| > 0
    requires IsBlank(data.password)
    ensures SubmitEnabled(FormState(data, true, showPassword))
    ensures !IsFormValidCorrected(data, true)
  {
  }

  /** A reset form can never be submitted: its names are blank whichever way the password is judged. */
  lemma ResetFormNeverValid(state: FormState)
    ensures var r := ResetForm(state);
      && !SubmitEnabled(r) && !SubmitEnabled(r.(isAdding := true))
      && !IsFormValid(r.data, r.isAdding) && !IsFormValid(r.data, true)
  {
    var r := ResetForm(state);
    assert IsBlank(r.data.firstName);
  }

  // ----- Search and ordering -----

  /** `field?.toLowerCase().includes(term.toLowerCase())`: a missing field never matches. */
  predicate FieldContainsLower(field: Option<string>, term: string) {
    field.Some? && Contains(Lower(field.value), Lower(term))
  }

  /** The search test: a name or the email contains the term ignoring case, or the phone number contains it as typed. */
  predicate UserMatches(user: User, term: string) {
    || FieldContainsLower(user.firstName, term)
    || FieldContainsLower(user.lastName, term)
    || FieldContainsLower(user.email, term)
    || (user.phoneNumber.Some? && Contains(user.phoneNumber.value, term))
  }

  function MatchesTerm(term: string): User -> bool {
    (u: User) => UserMatches(u, term)
  }

  /**
   * The search effect: a term that is blank after trimming shows every
   * user; any other term shows, in their order, exactly the users that
   * match it (the term itself is not trimmed for matching).
   */
  function SearchUsers(users: seq<User>, term: string): (r: seq<User>)
    ensures IsBlank(term) ==> r == users
    ensures !IsBlank(term) ==> IsSubsequence(r, users)
    ensures !IsBlank(term) ==> forall u | u in r :: UserMatches(u, term)
    ensures forall u | u in users && UserMatches(u, term) :: u in r
    ensures forall u {:trigger multiset(r)[u]} | u in users && UserMatches(u, term) :: multiset(r)[u] == multiset(users)[u]
  {
    TrimEmptyIffBlank(term);
    if Trim(term) == "" then users else Filter(users, MatchesTerm(term))
  }

  /** A user with no name, email or phone number is found only by a blank term. */
  lemma UserWithoutDetailsNotFound(users: seq<User>, term: string, u: User)
    requires u.firstName.None? && u.lastName.None? && u.email.None? && u.phoneNumber.None?
    requires !IsBlank(term)
    ensures u !in SearchUsers(users, term)
  {
    assert !UserMatches(u, term);
  }

  /** `a.email === currentUser.email`. */
  function HasEmail(email: Option<string>): User -> bool {
    (u: User) => u.email == email
  }

  function LacksEmail(email: Option<string>): User -> bool {
    (u: User) => u.email != email
  }

  /**
   * `getSortedUsers`: without a signed-in user the list as it is;
   * otherwise the users with the signed-in email first, then the rest,
   * each part in its original order (a stable sort by "is me").
   */
  function SortedUsers(users: seq<User>, current: Option<Profile>): (r: seq<User>)
    ensures current.None? ==> r == users
    ensures |r| == |users|
    ensures current.Some? ==> forall i | 0 <= i < |r| ::
      r[i].email == current.value.email <==> i < |Filter(users, HasEmail(current.value.email))|
  {
    match current
    case None => users
    case Some(me) =>
      PartitionIsPermutation(users, HasEmail(me.email), LacksEmail(me.email));
      EmailGroupsInOrder(Filter(users, HasEmail(me.email)), Filter(users, LacksEmail(me.email)), me.email);
      Filter(users, HasEmail(me.email)) + Filter(users, LacksEmail(me.email))
  }

  /** Users with an email followed by users without it: an index holds that email exactly when it falls in the first part. */
  lemma EmailGroupsInOrder(mine: seq<User>, others: seq<User>, email: Option<string>)
    requires forall u | u in mine :: u.email == email
    requires forall u | u in others :: u.email != email
    ensures forall i | 0 <= i < |mine + others| :: (mine + others)[i].email == email <==> i < |mine|
  {
    var s := mine + others;
    forall i | 0 <= i < |s| ensures s[i].email == email <==> i < |mine| {
      if i < |mine| {
        assert s[i] == mine[i] && mine[i] in mine;
      } else {
        assert s[i] == others[i - |mine|] && others[i - |mine|] in others;
      }
    }
  }

  /** The ordering only rearranges: every user appears exactly as often as before. */
  lemma SortedUsersIsPermutation(users: seq<User>, current: Option<Profile>)
    ensures multiset(SortedUsers(users, current)) == multiset(users)
    ensures |SortedUsers(users, current)| == |users|
  {
    if current.Some? {
      PartitionIsPermutation(users, HasEmail(current.value.email), LacksEmail(current.value.email));
    }
  }

  /**
   * The signed-in user's entries precede every other entry, so when the
   * signed-in user is in the list, they come first.
   */
  lemma SortedUsersPutsCurrentFirst(users: seq<User>, me: Profile)
    ensures var s := SortedUsers(users, Some(me));
      forall i, j | 0 <= i < j < |s| :: s[j].email == me.email ==> s[i].email == me.email
    ensures (exists k :: 0 <= k < |users| && users[k].email == me.email) ==> SortedUsers(users, Some(me))[0].email == me.email
  {
    var mine := Filter(users, HasEmail(me.email));
    var others := Filter(users, LacksEmail(me.email));
    var s := SortedUsers(users, Some(me));
    forall i, j | 0 <= i < j < |s| ensures s[j].email == me.email ==> s[i].email == me.email {
      if i < |mine| {
        assert s[i] == mine[i] && mine[i] in mine;
      } else {
        assert s[j] == others[j - |mine|] && others[j - |mine|] in others;
      }
    }
    if exists k :: 0 <= k < |users| && users[k].email == me.email {
      var k :| 0 <= k < |users| && users[k].email == me.email;
      assert users[k] in mine;
      assert s[0] == mine[0];
      assert mine[0] in mine;
    }
  }

  /** Taking either part back out of the ordered list gives that part in its original order. */
  lemma SortedUsersIsStable(users: seq<User>, me: Profile)
    ensures Filter(SortedUsers(users, Some(me)), HasEmail(me.email)) == Filter(users, HasEmail(me.email))
    ensures Filter(SortedUsers(users, Some(me)), LacksEmail(me.email)) == Filter(users, LacksEmail(me.email))
  {
    var has, lacks := HasEmail(me.email), LacksEmail(me.email);
    var mine, others := Filter(users, has), Filter(users, lacks);
    FilterConcat(mine, others, has);
    FilterConcat(mine, others, lacks);
    FilterIdempotent(users, has);
    FilterIdempotent(users, lacks);
    NoneKept(mine, lacks);
    NoneKept(others, has);
  }

  lemma {:induction false} NoneKept(s: seq<User>, keep: User -> bool)
    requires forall u | u in s :: !keep(u)
    ensures Filter(s, keep) == []
  {
    if Filter(s, keep) != [] {
      assert Filter(s, keep)[0] in Filter(s, keep);
    }
  }

  /**
   * `getSortedUsers` copies the shown list into a fresh array and orders
   * it: a first pass places the signed-in user's entries, a second the
   * others, each in the order met.
   */
  method GetSortedUsers(filtered: seq<User>, current: Option<Profile>) returns (sorted: seq<User>)
    ensures sorted == SortedUsers(filtered, current)
  {
    if current.None? {
      return filtered;
    }
    var has, lacks := HasEmail(current.value.email), LacksEmail(current.value.email);
    PartitionIsPermutation(filtered, has, lacks);
    var a := new User[|filtered|](i requires 0 <= i < |filtered| => filtered[i]);
    ghost var mine, others := Filter(filtered, has), Filter(filtered, lacks);
    var n := PlaceKept(a, 0, filtered, has);
    assert a[..n] == mine;
    var m := PlaceKept(a, n, filtered, lacks);
    assert a[..n] == mine && a[n..m] == others;
    ArraySplit(a, n);
    sorted := a[..];
  }

  /** `isCurrentUser`: there is a signed-in user and the emails are equal. */
  function IsCurrentUser(user: User, current: Option<Profile>): (r: bool)
    ensures r <==> current.Some? && user.email == current.value.email
    ensures r ==> HasEmail(current.value.email)(user)
  {
    current.Some? && user.email == current.value.email
  }

  // ----- Roles -----

  function RoleNotHeld(held: seq<string>): Role -> bool {
    (role: Role) => role.name !in held
  }

  /** `getAvailableRolesToAssign(user)`: the offered roles the user does not hold yet, in the offered order. */
  function AvailableRolesToAssign(available: seq<Role>, user: User): (r: seq<Role>)
    ensures IsSubsequence(r, available)
    ensures forall role | role in r :: role.name !in RolesOf(user)
    ensures forall role | role in available && role.name !in RolesOf(user) :: role in r
    ensures forall role {:trigger multiset(r)[role]} | role in available && role.name !in RolesOf(user) ::
      multiset(r)[role] == multiset(available)[role]
  {
    Filter(available, RoleNotHeld(RolesOf(user)))
  }

  function GrantRole(userId: string, roleName: string): User -> User {
    (u: User) => if u.id == userId then u.(roles := Some(RolesOf(u) + [roleName])) else u
  }

  /**
   * The local update after `handleAssignRole(userId, roleName)`: users
   * with the id get the role appended to their roles (missing roles count
   * as none); every other user is unchanged.
   */
  function AssignRole(users: seq<User>, userId: string, roleName: string): (r: seq<User>)
    ensures |r| == |users|
    ensures forall i | 0 <= i < |users| && users[i].id != userId :: r[i] == users[i]
    ensures forall i | 0 <= i < |users| && users[i].id == userId ::
      RolesOf(r[i]) == RolesOf(users[i]) + [roleName] && r[i].(roles := users[i].roles) == users[i]
  {
    Map(users, GrantRole(userId, roleName))
  }

  function NameIsNot(name: string): Role -> bool {
    (role: Role) => role.name != name
  }

  /** After a role is assigned, the roles offered to that user are the ones offered before, less that role. */
  lemma AssignedRoleNoLongerOffered(available: seq<Role>, users: seq<User>, userId: string, roleName: string, i: nat)
    requires i < |users| && users[i].id == userId
    ensures AvailableRolesToAssign(available, AssignRole(users, userId, roleName)[i])
         == Filter(AvailableRolesToAssign(available, users[i]), NameIsNot(roleName))
    ensures forall role | role in AvailableRolesToAssign(available, AssignRole(users, userId, roleName)[i]) :: role.name != roleName
  {
    var held := RolesOf(users[i]);
    assert RolesOf(AssignRole(users, userId, roleName)[i]) == held + [roleName];
    forall role ensures RoleNotHeld(held + [roleName])(role) == (RoleNotHeld(held)(role) && NameIsNot(roleName)(role)) {
      assert role.name in held + [roleName] <==> role.name in held || role.name == roleName;
    }
    FilterFilter(available, RoleNotHeld(held), NameIsNot(roleName), RoleNotHeld(held + [roleName]));
  }

  // ----- Delete and status -----

  /** The local update after deleting the user with an email: every user with it goes, the rest keep their order. */
  function DeleteUser(users: seq<User>, email: Option<string>): (r: seq<User>)
    ensures IsSubsequence(r, users)
    ensures forall u | u in r :: u.email != email
    ensures forall u | u in users && u.email != email :: u in r
    ensures forall u {:trigger multiset(r)[u]} | u in users && u.email != email :: multiset(r)[u] == multiset(users)[u]
    ensures |r| + |Filter(users, HasEmail(email))| == |users|
  {
    PartitionIsPermutation(users, HasEmail(email), LacksEmail(email));
    Filter(users, LacksEmail(email))
  }

  function SetActive(id: string, status: bool): User -> User {
    (u: User) => if u.id == id then u.(isActive := status) else u
  }

  /**
   * The local update of `handleToggleStatus(user)`: every user with that
   * user's id gets the opposite of the clicked user's status; all other
   * users and all other fields are unchanged.
   */
  function ToggleStatus(users: seq<User>, user: User): (r: seq<User>)
    ensures |r| == |users|
    ensures forall i | 0 <= i < |users| :: r[i].(isActive := users[i].isActive) == users[i]
    ensures forall i | 0 <= i < |users| :: r[i].isActive == if users[i].id == user.id then !user.isActive else users[i].isActive
  {
    Map(users, SetActive(user.id, !user.isActive))
  }

  /** Clicking a listed user flips that user's status; clicking the updated entry again restores the list. */
  lemma ToggleStatusTwice(users: seq<User>, i: nat)
    requires i < |users|
    requires forall j | 0 <= j < |users| && users[j].id == users[i].id :: users[j].isActive == users[i].isActive
    ensures ToggleStatus(users, users[i])[i].isActive != users[i].isActive
    ensures ToggleStatus(ToggleStatus(users, users[i]), ToggleStatus(users, users[i])[i]) == users
  {
    var once := ToggleStatus(users, users[i]);
    var twice := ToggleStatus(once, once[i]);
    forall j | 0 <= j < |users| ensures twice[j] == users[j] {
      assert twice[j].(isActive := once[j].isActive) == once[j];
      assert once[j].(isActive := users[j].isActive) == users[j];
    }
  }
}
