/**
 * The authentication service (src/services/authService.js): login, registration,
 * logout, password change and profile update, each a function over the account
 * store of `DataService`, plus the service's three full-match validators.
 */
module AuthService {
  import opened Wrappers
  import opened Text
  import opened Records
  import opened DataService
  import Rules

  /** `{ success: true, user }` or `{ success: false, message }`. */
  datatype AuthResult = Ok(user: User) | Fail(message: string)

  const LOGIN_FAILED := "Tên đăng nhập hoặc mật khẩu không đúng"
  const USERNAME_FORBIDDEN := "Tên đăng nhập không được phép"
  const USERNAME_TAKEN := "Tên đăng nhập đã tồn tại"
  const EMAIL_TAKEN := "Email đã được sử dụng"
  const PASSWORD_RULE := "Mật khẩu phải có ít nhất 8 ký tự, bao gồm chữ hoa, chữ thường, số và ký tự đặc biệt"
  const NOT_LOGGED_IN := "Người dùng chưa đăng nhập"
  const WRONG_PASSWORD := "Mật khẩu hiện tại không đúng"
  const NEW_PASSWORD_RULE := "Mật khẩu mới phải có ít nhất 8 ký tự, bao gồm chữ hoa, chữ thường, số và ký tự đặc biệt"

  // ---------------------------------------------------------------------------
  // Validators
  // ---------------------------------------------------------------------------

  /** `validatePassword`: the full-match password regex. */
  function ValidatePassword(password: string): (ok: bool)
    ensures ok <==> Rules.StrongPasswordRegex(password)
  {
    Rules.StrongPasswordMatchesRegex(password);
    Rules.IsStrongPassword(password)
  }

  /** `validateEmail`: the email regex. */
  function ValidateEmail(email: string): (ok: bool)
    ensures ok <==> Rules.EmailRegex(email)
  {
    Rules.EmailScanMatchesRegex(email);
    Rules.IsEmail(email)
  }

  /**
   * `validateUsername`: 3 to 20 characters from `[A-Za-z0-9_]`. These are all in
   * the Basic Multilingual Plane, so the count is also the string's `.length`.
   */
  function ValidateUsername(username: string): (ok: bool)
    ensures ok <==> 3 <= JsLength(username) <= 20 && All(username, IsWordChar)
    ensures ok ==> JsLength(username) == |username|
  {
    Rules.UsernameRegex(username)
  }

  /**
   * A username the service accepts is already trimmed, and lower-casing it gives
   * another acceptable username: registration stores it lower-cased and unchanged
   * otherwise.
   */
  lemma {:induction false} ValidUsernameSurvivesNormalize(username: string)
    requires ValidateUsername(username)
    ensures Trim(username) == username
    ensures ValidateUsername(Normalize(username))
  {
    WordIsTrimmed(username);
    LowerKeepsWordChars(username);
  }

  /** A non-empty run of word characters has no space to trim. */
  lemma {:induction false} WordIsTrimmed(w: string)
    requires |w| > 0 && All(w, IsWordChar)
    ensures Trim(w) == w
  {
    assert !IsSpace(w[0]) && !IsSpace(w[|w| - 1]);
    TrimStartFixed(w);
    TrimEndFixed(w);
  }

  /** Lower-casing keeps word characters word characters. */
  lemma {:induction false} LowerKeepsWordChars(w: string)
    requires All(w, IsWordChar)
    ensures All(ToLower(w), IsWordChar)
  {
    var l := ToLower(w);
    forall i | 0 <= i < |l| ensures IsWordChar(l[i]) {
      LowerCharProperties(w[i]);
    }
  }

  // ---------------------------------------------------------------------------
  // Login, registration, logout
  // ---------------------------------------------------------------------------

  /**
   * `login`: the first user whose trimmed, lower-cased username matches must hold
   * exactly the given password. The failure is the same for an unknown user and a
   * wrong password, and then nothing is written.
   */
  function Login(s: Store, username: string, password: string): (r: (Store, AuthResult))
    ensures r.1.Ok? <==> exists i :: FirstUsernameMatch(s, username, i) && s.users[i].password == password
    ensures r.1.Ok? ==> exists i :: FirstUsernameMatch(s, username, i) && s.users[i] == r.1.user
    ensures r.1.Ok? ==> r.0.users == s.users && ParseInt(r.0.pointer) == Some(r.1.user.id)
    ensures r.1.Fail? ==> r == (s, Fail(LOGIN_FAILED))
  {
    UsernameLookupIgnoresNormalization(s, username);
    var user := GetUserByUsername(s, Normalize(username));
    if user.Some? && user.value.password == password then
      (SetCurrentUser(s, user.value.id), Ok(user.value))
    else
      (s, Fail(LOGIN_FAILED))
  }

  /** The object `register` receives: the named fields plus the rest of the form. */
  datatype Registration = Registration(username: string, email: string, password: string, profile: map<string, string>)

  /** Some stored user's username matches `name` case- and blank-insensitively. */
  ghost predicate UsernameInUse(s: Store, name: string) {
    exists j :: 0 <= j < |s.users| && SameUsername(s.users[j].username, name)
  }

  /** Some stored user has exactly this email. */
  ghost predicate EmailInUse(s: Store, email: string) {
    exists j :: 0 <= j < |s.users| && s.users[j].email == email
  }

  /** Every check of `register` passes. */
  ghost predicate RegistrationAccepted(s: Store, reg: Registration) {
    && Normalize(reg.username) != ADMIN
    && !UsernameInUse(s, reg.username)
    && !EmailInUse(s, reg.email)
    && Rules.StrongPasswordRegex(reg.password)
  }

  /** `{ ...userData, username: normalizedUsername }` */
  function RegistrationData(reg: Registration, name: string): UserData {
    UserData(None, Some(name), Some(reg.password), Some(reg.email), None, reg.profile, None, None)
  }

  /**
   * `register`: refuse `admin`, then a taken username, then a taken email, then a
   * weak password, in that order and without writing anything; otherwise append the
   * user under its normalised username and sign it in.
   */
  function Register(s: Store, reg: Registration, freshId: int, now: string): (r: (Store, AuthResult))
    ensures Normalize(reg.username) == ADMIN ==> r == (s, Fail(USERNAME_FORBIDDEN))
    ensures Normalize(reg.username) != ADMIN && UsernameInUse(s, reg.username) ==>
      r == (s, Fail(USERNAME_TAKEN))
    ensures Normalize(reg.username) != ADMIN && !UsernameInUse(s, reg.username) && EmailInUse(s, reg.email) ==>
      r == (s, Fail(EMAIL_TAKEN))
    ensures (Normalize(reg.username) != ADMIN && !UsernameInUse(s, reg.username) && !EmailInUse(s, reg.email)
      && !Rules.StrongPasswordRegex(reg.password)) ==> r == (s, Fail(PASSWORD_RULE))
    ensures r.1.Ok? <==> RegistrationAccepted(s, reg)
    ensures r.1.Ok? ==>
      && r.1.user == User(freshId, Normalize(reg.username), reg.password, reg.email, now, reg.profile, [], [])
      && r.0.users == s.users + [r.1.user]
      && r.0.pointer == IntToString(freshId)
      && ParseInt(r.0.pointer) == Some(freshId)
  {
    var name := Normalize(reg.username);
    UsernameLookupIgnoresNormalization(s, reg.username);
    if name == ADMIN then (s, Fail(USERNAME_FORBIDDEN))
    else if GetUserByUsername(s, name).Some? then (s, Fail(USERNAME_TAKEN))
    else if GetUserByEmail(s, reg.email).Some? then (s, Fail(EMAIL_TAKEN))
    else if !ValidatePassword(reg.password) then (s, Fail(PASSWORD_RULE))
    else
      var created := CreateUser(s, RegistrationData(reg, name), freshId, now);
      (SetCurrentUser(created.0, created.1.id), Ok(created.1))
  }

  /**
   * Registration round trip: once registered under a username that is not blank,
   * logging in with the same (raw) username and password returns the new user and
   * leaves the store as registration left it.
   */
  lemma RegisterThenLogin(s: Store, reg: Registration, freshId: int, now: string)
    requires Register(s, reg, freshId, now).1.Ok?
    requires Normalize(reg.username) != ""
    ensures var r := Register(s, reg, freshId, now);
      Login(r.0, reg.username, reg.password) == r
  {
    var r := Register(s, reg, freshId, now);
    var s1 := r.0;
    var n := |s.users|;
    NormalizeIdempotent(reg.username);
    forall j | 0 <= j < n
      ensures !SameUsername(s1.users[j].username, reg.username)
    {
      assert s1.users[j] == s.users[j];
    }
    assert FirstUsernameMatch(s1, reg.username, n);
    LoginFindsFirstMatch(s1, reg.username, reg.password, n);
  }

  /** Login with the first matching user's own password signs that user in. */
  lemma LoginFindsFirstMatch(s: Store, username: string, password: string, i: int)
    requires FirstUsernameMatch(s, username, i) && s.users[i].password == password
    ensures Login(s, username, password) == (SetCurrentUser(s, s.users[i].id), Ok(s.users[i]))
  {
    FirstUsernameMatchFound(s, username, i);
    UsernameLookupIgnoresNormalization(s, username);
  }

  /** `logout`: the session pointer becomes `'null'`; always successful. */
  function Logout(s: Store): (r: (Store, bool))
    ensures r.0.users == s.users && r.1
    ensures GetCurrentUser(r.0) == NoSession
  {
    (ClearCurrentUser(s), true)
  }

  /**
   * `isLoggedIn`: `getCurrentUser() !== null`. A pointer that names no stored user
   * yields `undefined`, which is not `null`, so it counts as signed in.
   */
  function IsLoggedIn(s: Store): (b: bool)
    ensures b <==> s.pointer != "" && s.pointer != NO_SESSION
  {
    GetCurrentUser(s) != NoSession
  }

  /** The intended test: the pointer resolves to a stored user. */
  function HasActiveSession(s: Store): (b: bool)
    ensures b <==> (s.pointer != "" && s.pointer != NO_SESSION
      && ParseInt(s.pointer).Some? && GetUserById(s, ParseInt(s.pointer).value).Some?)
  {
    GetCurrentUser(s).Active?
  }

  /** With no users at all, a stale pointer still reads as signed in. */
  lemma StalePointerCountsAsLoggedIn()
    ensures IsLoggedIn(Store([], "7")) && !HasActiveSession(Store([], "7"))
  {
  }

  /**
   * The corrected test is the one the service's own guards apply: changing the
   * password or the profile is refused as "not signed in" exactly when there is no
   * active session.
   */
  lemma GuardsUseActiveSession(s: Store, current: string, newPassword: string, data: UserData)
    ensures ChangePassword(s, current, newPassword).1 == Fail(NOT_LOGGED_IN) <==> !HasActiveSession(s)
    ensures UpdateProfile(s, data).1 == Fail(NOT_LOGGED_IN) <==> !HasActiveSession(s)
  {
  }

  /** After logout neither test reports a session. */
  lemma LogoutEndsSession(s: Store)
    ensures !IsLoggedIn(Logout(s).0) && !HasActiveSession(Logout(s).0)
  {
  }

  // ---------------------------------------------------------------------------
  // Password change and profile update
  // ---------------------------------------------------------------------------

  /**
   * `changePassword`: no resolved session, a wrong current password and a weak new
   * password fail in that order without writing; otherwise only the signed-in
   * user's password changes.
   */
  function ChangePassword(s: Store, current: string, newPassword: string): (r: (Store, AuthResult))
    ensures !GetCurrentUser(s).Active? ==> r == (s, Fail(NOT_LOGGED_IN))
    ensures GetCurrentUser(s).Active? && GetCurrentUser(s).user.password != current ==>
      r == (s, Fail(WRONG_PASSWORD))
    ensures (GetCurrentUser(s).Active? && GetCurrentUser(s).user.password == current
      && !Rules.StrongPasswordRegex(newPassword)) ==> r == (s, Fail(NEW_PASSWORD_RULE))
    ensures r.1.Ok? <==> (GetCurrentUser(s).Active? && GetCurrentUser(s).user.password == current
      && Rules.StrongPasswordRegex(newPassword))
    ensures r.1.Ok? ==>
      var u := GetCurrentUser(s).user;
      && UserIndex(s, u.id).Some?
      && var i := UserIndex(s, u.id).value;
      && s.users[i] == u
      && ChangesOneUser(s, r.0, i)
      && r.0.users[i] == u.(password := newPassword)
      && r.1.user == u.(password := newPassword)
  {
    match GetCurrentUser(s)
    case Active(u) =>
      if u.password != current then (s, Fail(WRONG_PASSWORD))
      else if !ValidatePassword(newPassword) then (s, Fail(NEW_PASSWORD_RULE))
      else
        MergePasswordOnly(u, newPassword);
        var updated := UpdateUser(s, u.id, PasswordOnly(newPassword));
        (updated.0, Ok(updated.1.value))
    case _ => (s, Fail(NOT_LOGGED_IN))
  }

  /** A successful password change keeps the session, which now resolves to the updated user. */
  lemma ChangePasswordKeepsSession(s: Store, current: string, newPassword: string)
    requires ChangePassword(s, current, newPassword).1.Ok?
    ensures var r := ChangePassword(s, current, newPassword);
      GetCurrentUser(r.0) == Active(r.1.user)
  {
    var r := ChangePassword(s, current, newPassword);
    var u := GetCurrentUser(s).user;
    SessionAfterChange(s, r.0, UserIndex(s, u.id).value);
  }

  /**
   * The profile update names a username, different from the user's own and not
   * blank, whose first case-insensitive match is another user.
   */
  ghost predicate UsernameHeldByOther(s: Store, u: User, data: UserData) {
    && data.username.Some? && data.username.value != "" && data.username.value != u.username
    && exists j :: FirstUsernameMatch(s, data.username.value, j) && s.users[j].id != u.id
  }

  /** The same for the email, matched exactly. */
  ghost predicate EmailHeldByOther(s: Store, u: User, data: UserData) {
    && data.email.Some? && data.email.value != "" && data.email.value != u.email
    && exists j :: FirstEmailMatch(s, data.email.value, j) && s.users[j].id != u.id
  }

  /** The username check of `updateProfile`, through `getUserByUsername`. */
  predicate UsernameClash(s: Store, u: User, data: UserData) {
    && data.username.Some? && data.username.value != "" && data.username.value != u.username
    && var other := GetUserByUsername(s, data.username.value);
      other.Some? && other.value.id != u.id
  }

  /** The email check of `updateProfile`, through `getUserByEmail`. */
  predicate EmailClash(s: Store, u: User, data: UserData) {
    && data.email.Some? && data.email.value != "" && data.email.value != u.email
    && var other := GetUserByEmail(s, data.email.value);
      other.Some? && other.value.id != u.id
  }

  lemma UsernameClashMeansHeld(s: Store, u: User, data: UserData)
    ensures UsernameClash(s, u, data) <==> UsernameHeldByOther(s, u, data)
  {
    if UsernameHeldByOther(s, u, data) {
      var j :| FirstUsernameMatch(s, data.username.value, j) && s.users[j].id != u.id;
      FirstUsernameMatchFound(s, data.username.value, j);
    }
  }

  lemma EmailClashMeansHeld(s: Store, u: User, data: UserData)
    ensures EmailClash(s, u, data) <==> EmailHeldByOther(s, u, data)
  {
    if EmailHeldByOther(s, u, data) {
      var j :| FirstEmailMatch(s, data.email.value, j) && s.users[j].id != u.id;
      FirstEmailMatchFound(s, data.email.value, j);
    }
  }

  /**
   * `updateProfile`: with a resolved session, refuse a username, then an email, that
   * another user already holds; otherwise shallow-merge the data into the signed-in
   * user without validating any field.
   */
  function UpdateProfile(s: Store, data: UserData): (r: (Store, AuthResult))
    ensures !GetCurrentUser(s).Active? ==> r == (s, Fail(NOT_LOGGED_IN))
    ensures GetCurrentUser(s).Active? && UsernameHeldByOther(s, GetCurrentUser(s).user, data) ==>
      r == (s, Fail(USERNAME_TAKEN))
    ensures (GetCurrentUser(s).Active? && !UsernameHeldByOther(s, GetCurrentUser(s).user, data)
      && EmailHeldByOther(s, GetCurrentUser(s).user, data)) ==> r == (s, Fail(EMAIL_TAKEN))
    ensures r.1.Ok? <==> (GetCurrentUser(s).Active?
      && !UsernameHeldByOther(s, GetCurrentUser(s).user, data)
      && !EmailHeldByOther(s, GetCurrentUser(s).user, data))
    ensures r.1.Ok? ==>
      var u := GetCurrentUser(s).user;
      && UserIndex(s, u.id).Some?
      && var i := UserIndex(s, u.id).value;
      && ChangesOneUser(s, r.0, i)
      && r.0.users[i] == MergeUser(u, data)
      && r.1.user == MergeUser(u, data)
  {
    match GetCurrentUser(s)
    case Active(u) =>
      UsernameClashMeansHeld(s, u, data);
      EmailClashMeansHeld(s, u, data);
      if UsernameClash(s, u, data) then (s, Fail(USERNAME_TAKEN))
      else if EmailClash(s, u, data) then (s, Fail(EMAIL_TAKEN))
      else
        var updated := UpdateUser(s, u.id, data);
        (updated.0, Ok(updated.1.value))
    case _ => (s, Fail(NOT_LOGGED_IN))
  }

  /** Updating the profile with the user's own username and email never clashes. */
  lemma UpdateOwnIdentityAccepted(s: Store, data: UserData)
    requires GetCurrentUser(s).Active?
    requires data.username == Some(GetCurrentUser(s).user.username)
    requires data.email == Some(GetCurrentUser(s).user.email)
    ensures UpdateProfile(s, data).1.Ok?
  {
  }
}
