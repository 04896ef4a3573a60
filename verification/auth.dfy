/** The mock authentication service: three demo users, login against them,
    the stored session, logout, and role-based access.

    The browser's `space_stem_user` storage slot is an `Option<User>` passed
    in and returned; JSON serialisation is the identity, so reading the slot
    back returns exactly what was written. The simulated network delay is
    dropped. */
module Auth {
  import opened Wrappers

  datatype Role = Student | Teacher

  datatype User = User(
    id: string,
    name: string,
    email: string,
    role: Role,
    avatar: Option<string>,
    grade: Option<string>,
    subject: Option<string>)

  /** The storage slot holding the signed-in user. */
  type Store = Option<User>

  const MockUsers: seq<User> := [
    User("1", "Alex Space Explorer", "alex@spacestem.com", Student, Some("\U{1F680}"), Some("3rd Grade"), None),
    User("2", "Luna Star Student", "luna@spacestem.com", Student, Some("\U{1F31F}"), Some("4th Grade"), None),
    User("3", "Ms. Galaxy Teacher", "galaxy@spacestem.com", Teacher, Some("\U{1F469}\U{200D}\U{1F680}"), None, Some("Science & Math"))
  ]

  function Emails(users: seq<User>): (es: seq<string>)
    ensures |es| == |users|
    ensures forall i | 0 <= i < |users| :: es[i] == users[i].email
  {
    seq(|users|, i requires 0 <= i < |users| => users[i].email)
  }

  /** `mockUsers.find(u => u.email === email)`. */
  function FindByEmail(users: seq<User>, email: string): (r: Option<User>)
    ensures r.Some? ==> r.value in users && r.value.email == email
    ensures r.None? ==> forall i | 0 <= i < |users| :: users[i].email != email
  {
    if users == [] then None
    else if users[0].email == email then Some(users[0])
    else
      var rest := FindByEmail(users[1..], email);
      assert forall i | 1 <= i < |users| :: users[i] == users[1..][i - 1];
      rest
  }

  /** `AuthService.login`: the error message of the thrown `Error`, or the user,
      together with the storage slot afterwards. An unknown email fails
      whatever the password; a known one needs a password of at least three
      characters, and only success writes the slot. */
  function Login(store: Store, email: string, password: string): (r: (Store, Result<User, string>))
    ensures FindByEmail(MockUsers, email).None? ==> r == (store, Failure("User not found"))
    ensures FindByEmail(MockUsers, email).Some? && |password| < 3 ==> r == (store, Failure("Invalid password"))
    ensures r.1.Success? <==> FindByEmail(MockUsers, email).Some? && |password| >= 3
    ensures r.1.Success? ==> r.1.value in MockUsers && r.1.value.email == email && r.0 == Some(r.1.value)
  {
    match FindByEmail(MockUsers, email)
    case None => (store, Failure("User not found"))
    case Some(u) =>
      if |password| < 3 then (store, Failure("Invalid password"))
      else (Some(u), Success(u))
  }

  /** `getCurrentUser`: the slot read back; serialising and parsing a user
      returns the same user, so what was stored is what is read. */
  function GetCurrentUser(store: Store): (r: Option<User>)
    ensures r.Some? <==> store.Some?
    ensures r.Some? ==> r.value == store.value
  {
    store
  }

  /** `logout`: the slot is cleared. */
  function Logout(store: Store): (r: Store)
    ensures GetCurrentUser(r).None?
  {
    None
  }

  /** `isAuthenticated`: someone is signed in exactly when a user is stored. */
  function IsAuthenticated(store: Store): (r: bool)
    ensures r <==> store.Some?
  {
    GetCurrentUser(store) != None
  }

  /** `requireAuth`: a signed-in user whose role is allowed. A missing role
      list allows every role; an empty list, being truthy, allows none. */
  function RequireAuth(store: Store, allowedRoles: Option<seq<Role>>): (ok: bool)
    ensures ok ==> IsAuthenticated(store)
    ensures allowedRoles.None? ==> (ok <==> IsAuthenticated(store))
    ensures allowedRoles == Some([]) ==> !ok
    ensures store.Some? && allowedRoles.Some? ==> (ok <==> store.value.role in allowedRoles.value)
  {
    match GetCurrentUser(store)
    case None => false
    case Some(u) => allowedRoles.None? || u.role in allowedRoles.value
  }

  /** Widening the role list never revokes access, and no list at all admits
      whoever any list admits. */
  lemma RequireAuthMonotone(store: Store, roles: seq<Role>, more: seq<Role>)
    ensures RequireAuth(store, Some(roles)) ==> RequireAuth(store, Some(roles + more))
    ensures RequireAuth(store, Some(roles)) ==> RequireAuth(store, None)
    ensures RequireAuth(store, Some([Student, Teacher])) <==> RequireAuth(store, None)
  {
    if store.Some? {
      var all := [Student, Teacher];
      assert store.value.role == all[0] || store.value.role == all[1];
    }
  }

  /** `formatUserName`: the avatar, a space, then the name; a missing avatar is
      rendered by the template literal as "undefined". */
  function FormatUserName(u: User): (r: string)
    ensures |r| == |AvatarText(u)| + 1 + |u.name|
    ensures r[..|AvatarText(u)|] == AvatarText(u)
    ensures r[|AvatarText(u)|] == ' '
    ensures r[|AvatarText(u)| + 1..] == u.name
  {
    AvatarText(u) + " " + u.name
  }

  function AvatarText(u: User): string {
    match u.avatar
    case Some(a) => a
    case None => "undefined"
  }

  /** The demo users' emails are distinct, so looking up a demo user's email
      finds that user. */
  lemma MockEmailsDistinct()
    ensures NoDup(Emails(MockUsers))
    ensures forall k | 0 <= k < |MockUsers| :: FindByEmail(MockUsers, MockUsers[k].email) == Some(MockUsers[k])
  {
    assert Emails(MockUsers) == ["alex@spacestem.com", "luna@spacestem.com", "galaxy@spacestem.com"];
  }

  /** After a successful login the session returns the same user, who then
      passes `requireAuth` for their own role and with no role list; after
      logout nobody is authenticated and every check fails. */
  lemma SessionRoundTrip(store: Store, email: string, password: string, roles: Option<seq<Role>>)
    ensures var (s, res) := Login(store, email, password);
            res.Success? ==>
              && GetCurrentUser(s) == Some(res.value)
              && IsAuthenticated(s)
              && RequireAuth(s, None)
              && RequireAuth(s, Some([res.value.role]))
    ensures !IsAuthenticated(Logout(store)) && !RequireAuth(Logout(store), roles)
  {
  }

  /** A failed login leaves an existing session as it was. */
  lemma FailedLoginKeepsSession(store: Store, email: string, password: string)
    ensures Login(store, email, password).1.Failure? ==>
              GetCurrentUser(Login(store, email, password).0) == GetCurrentUser(store)
  {
  }

  /** The demo accounts: the teacher may open teacher pages, a student may not;
      a two-character password is refused; the teacher is shown with their
      avatar before their name. */
  lemma DemoAccounts()
    ensures Login(None, "galaxy@spacestem.com", "pwd").1 == Success(MockUsers[2])
    ensures RequireAuth(Login(None, "galaxy@spacestem.com", "pwd").0, Some([Teacher]))
    ensures !RequireAuth(Login(None, "alex@spacestem.com", "pwd").0, Some([Teacher]))
    ensures Login(None, "alex@spacestem.com", "pw") == (None, Failure("Invalid password"))
    ensures Login(None, "nobody@spacestem.com", "password") == (None, Failure("User not found"))
    ensures FormatUserName(MockUsers[2]) == "\U{1F469}\U{200D}\U{1F680} Ms. Galaxy Teacher"
  {
    TeacherLogin();
    StudentLogin();
    UnknownLogin();
    TeacherDisplayName();
  }

  lemma TeacherLogin()
    ensures Login(None, "galaxy@spacestem.com", "pwd").1 == Success(MockUsers[2])
    ensures RequireAuth(Login(None, "galaxy@spacestem.com", "pwd").0, Some([Teacher]))
  {
    MockEmailsDistinct();
    assert MockUsers[2].email == "galaxy@spacestem.com";
  }

  lemma StudentLogin()
    ensures !RequireAuth(Login(None, "alex@spacestem.com", "pwd").0, Some([Teacher]))
    ensures Login(None, "alex@spacestem.com", "pw") == (None, Failure("Invalid password"))
  {
    MockEmailsDistinct();
    assert MockUsers[0].email == "alex@spacestem.com";
  }

  lemma UnknownLogin()
    ensures Login(None, "nobody@spacestem.com", "password") == (None, Failure("User not found"))
  {
    var es := Emails(MockUsers);
    assert es == ["alex@spacestem.com", "luna@spacestem.com", "galaxy@spacestem.com"];
    assert FindByEmail(MockUsers, "nobody@spacestem.com").None?;
  }

  lemma TeacherDisplayName()
    ensures FormatUserName(MockUsers[2]) == "\U{1F469}\U{200D}\U{1F680} Ms. Galaxy Teacher"
  {
    var u := MockUsers[2];
    assert AvatarText(u) == "\U{1F469}\U{200D}\U{1F680}";
    assert u.name == "Ms. Galaxy Teacher";
  }
}
