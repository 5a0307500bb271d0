/** The credential rules: the login validator, the default username/password
    backend it is normally run with, and the registration validators. */
module AuthRules {
  import opened Common

  /** A user row; `passwordHash` is the stored credential, never the password. */
  datatype User = User(
    id: UserId,
    username: string,
    email: string,
    firstName: string,
    lastName: string,
    phone: Option<string>,
    isActive: bool,
    passwordHash: string)

  datatype LoginError =
    | MissingCredentials   // username or password absent or empty
    | InvalidCredentials   // the backend did not authenticate them
    | AccountDisabled      // authenticated, but the account is inactive

  /** A request field counts as given when present and non-empty. */
  predicate Given(s: Option<string>) {
    s.Some? && s.value != ""
  }

  /** The login validator, for whatever authentication backend is configured. */
  function ValidateLogin(username: Option<string>, password: Option<string>,
                         authenticate: (string, string) -> Option<User>): (r: Result<User, LoginError>)
    ensures !(Given(username) && Given(password)) ==> r == Failure(MissingCredentials)
    ensures (Given(username) && Given(password) && authenticate(username.value, password.value).None?) ==>
              r == Failure(InvalidCredentials)
    ensures r == Failure(AccountDisabled) <==>
              Given(username) && Given(password) && authenticate(username.value, password.value).Some?
              && !authenticate(username.value, password.value).value.isActive
    ensures r.Success? <==>
              Given(username) && Given(password) && authenticate(username.value, password.value).Some?
              && authenticate(username.value, password.value).value.isActive
    ensures r.Success? ==> authenticate(username.value, password.value) == Some(r.value) && r.value.isActive
  {
    if Given(username) && Given(password) then
      match authenticate(username.value, password.value)
      case Some(user) => if user.isActive then Success(user) else Failure(AccountDisabled)
      case None => Failure(InvalidCredentials)
    else Failure(MissingCredentials)
  }

  predicate UniqueUsernames(users: seq<User>) {
    forall i, j :: 0 <= i < j < |users| ==> users[i].username != users[j].username
  }

  /** The user row with the given username (usernames are unique). */
  function FindByUsername(users: seq<User>, username: string): (r: Option<User>)
    ensures r.Some? ==> r.value in users && r.value.username == username
    ensures r.None? ==> forall u :: u in users ==> u.username != username
  {
    match FirstIndex(users, (u: User) => u.username == username)
    case None => None
    case Some(i) => Some(users[i])
  }

  /** Under unique usernames, the row found by name is the only one with it. */
  lemma UniqueRow(users: seq<User>, username: string)
    ensures UniqueUsernames(users) ==>
              forall u :: u in users && u.username == username ==> FindByUsername(users, username) == Some(u)
  {
    if UniqueUsernames(users) {
      forall u | u in users && u.username == username
        ensures FindByUsername(users, username) == Some(u)
      {
        var found := FindByUsername(users, username);
        var i :| 0 <= i < |users| && users[i] == u;
        var j :| 0 <= j < |users| && users[j] == found.value;
      }
    }
  }

  /** The default backend: look the username up, check the password against
      the stored hash with `checkPassword`, and refuse inactive accounts. */
  function ModelBackend(users: seq<User>, checkPassword: (string, string) -> bool,
                        username: string, password: string): (r: Option<User>)
    ensures r.Some? ==> r.value in users && r.value.username == username
    ensures r.Some? ==> r.value.isActive && checkPassword(password, r.value.passwordHash)
    ensures UniqueUsernames(users) && r.None? ==>
              forall u :: u in users && u.username == username ==> !u.isActive || !checkPassword(password, u.passwordHash)
  {
    UniqueRow(users, username);
    match FindByUsername(users, username)
    case None => None
    case Some(u) => if checkPassword(password, u.passwordHash) && u.isActive then Some(u) else None
  }

  /** Run with the default backend, the validator never reaches its
      "disabled" branch: an inactive account is reported as invalid
      credentials instead. */
  lemma ModelBackendNeverDisabled(users: seq<User>, checkPassword: (string, string) -> bool,
                                  username: Option<string>, password: Option<string>)
    ensures ValidateLogin(username, password, (n, p) => ModelBackend(users, checkPassword, n, p))
              != Failure(AccountDisabled)
  {
  }

  /** The login validator run with the default backend over `users`. */
  function DefaultLogin(users: seq<User>, checkPassword: (string, string) -> bool,
                        username: Option<string>, password: Option<string>): (r: Result<User, LoginError>)
    ensures r.Success? ==> Given(username) && Given(password)
    ensures r.Success? ==> r.value in users && r.value.username == username.value
    ensures r.Success? ==> r.value.isActive && checkPassword(password.value, r.value.passwordHash)
    ensures r != Failure(AccountDisabled)
    ensures UniqueUsernames(users) ==>
              forall u :: (u in users && Given(username) && Given(password) && u.username == username.value
                           && u.isActive && checkPassword(password.value, u.passwordHash)) ==> r == Success(u)
  {
    ValidateLogin(username, password, (n, p) => ModelBackend(users, checkPassword, n, p))
  }

  /** With the default backend, a wrong password for an existing user never
      logs in. */
  lemma WrongPasswordRejected(users: seq<User>, checkPassword: (string, string) -> bool,
                              u: User, password: string)
    requires UniqueUsernames(users)
    requires u in users && u.username != "" && password != ""
    requires !checkPassword(password, u.passwordHash)
    ensures ValidateLogin(Some(u.username), Some(password), (n, p) => ModelBackend(users, checkPassword, n, p))
              == Failure(InvalidCredentials)
  {
  }

  /** The registration request; the confirmation is checked but never
      stored. The email is optional and may be blank. */
  datatype Registration = Registration(
    username: string,
    email: Option<string>,
    password: string,
    passwordConfirm: string,
    firstName: string,
    lastName: string,
    phone: Option<string>)

  datatype RegisterError = PasswordTooShort | EmailTaken | UsernameTaken | PasswordMismatch

  const MinPasswordLength := 8

  predicate EmailInUse(users: seq<User>, email: string) {
    exists i :: 0 <= i < |users| && users[i].email == email
  }

  predicate UsernameInUse(users: seq<User>, username: string) {
    exists i :: 0 <= i < |users| && users[i].username == username
  }

  /** The per-field checks, all run and all reported together; the email
      check runs only when an email was given. */
  function FieldErrors(users: seq<User>, d: Registration): (r: set<RegisterError>)
    ensures PasswordTooShort in r <==> |d.password| < MinPasswordLength
    ensures EmailTaken in r <==> d.email.Some? && EmailInUse(users, d.email.value)
    ensures UsernameTaken in r <==> UsernameInUse(users, d.username)
    ensures PasswordMismatch !in r
  {
    (if |d.password| < MinPasswordLength then {PasswordTooShort} else {})
    + (if d.email.Some? && EmailInUse(users, d.email.value) then {EmailTaken} else {})
    + (if UsernameInUse(users, d.username) then {UsernameTaken} else {})
  }

  /** Registration validation: the field checks first; only when they all
      pass is the confirmation compared with the password. */
  function ValidateRegistration(users: seq<User>, d: Registration): (r: Result<Registration, set<RegisterError>>)
    ensures r.Success? <==>
              && |d.password| >= MinPasswordLength
              && !(d.email.Some? && EmailInUse(users, d.email.value))
              && !UsernameInUse(users, d.username)
              && d.password == d.passwordConfirm
    ensures r.Success? ==> r.value == d
    ensures r.Failure? ==> r.error != {}
    ensures r.Failure? ==>
              && (PasswordTooShort in r.error <==> |d.password| < MinPasswordLength)
              && (EmailTaken in r.error <==> d.email.Some? && EmailInUse(users, d.email.value))
              && (UsernameTaken in r.error <==> UsernameInUse(users, d.username))
    ensures r.Failure? && PasswordMismatch in r.error ==> r.error == {PasswordMismatch} && d.password != d.passwordConfirm
  {
    var errors := FieldErrors(users, d);
    if errors != {} then Failure(errors)
    else if d.password != d.passwordConfirm then Failure({PasswordMismatch})
    else Success(d)
  }

  /** A second registration with the same username, or giving the same
      email, as an existing user is rejected. */
  lemma RegisterTwiceRejected(users: seq<User>, u: User, d: Registration)
    requires u in users
    requires d.username == u.username || d.email == Some(u.email)
    ensures ValidateRegistration(users, d).Failure?
  {
    var i :| 0 <= i < |users| && users[i] == u;
    assert d.username == u.username ==> UsernameInUse(users, d.username);
    assert d.email == Some(u.email) ==> EmailInUse(users, d.email.value);
  }

  /** Registration without an email skips the email check altogether, even
      when a stored user has a blank email. */
  lemma NoEmailNeverTaken(users: seq<User>, d: Registration)
    requires d.email.None?
    ensures ValidateRegistration(users, d).Failure? ==> EmailTaken !in ValidateRegistration(users, d).error
  {
  }
}
