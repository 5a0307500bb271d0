/** The user table and the token table, with the endpoints that read and
    write them: login (get-or-create a token), logout (delete it), profile,
    and the creation of a registered user. */
module AuthStore {
  import opened Common
  import opened AuthRules

  /** An opaque bearer token key. */
  type TokenKey = string

  /** What a successful login hands back: the user and the token key. */
  datatype Session = Session(user: User, key: TokenKey)

  /** The profile fields a user sees about themselves; the credential and
      the active flag are not among them. */
  datatype UserView = UserView(id: UserId, username: string, email: string, firstName: string,
                               lastName: string, phone: Option<string>)

  /** Get-or-create on the token table, keyed by user: an existing token is
      returned as it is, otherwise `freshKey` is stored for the user. */
  function GetOrCreateToken(tokens: map<UserId, TokenKey>, uid: UserId, freshKey: TokenKey)
    : (r: (map<UserId, TokenKey>, TokenKey))
    ensures uid in r.0 && r.0[uid] == r.1
    ensures uid in tokens ==> r.0 == tokens && r.1 == tokens[uid]
    ensures uid !in tokens ==> r.1 == freshKey
    ensures r.0.Keys == tokens.Keys + {uid}
    ensures forall v :: v in tokens && v != uid ==> r.0[v] == tokens[v]
  {
    if uid in tokens then (tokens, tokens[uid]) else (tokens[uid := freshKey], freshKey)
  }

  /** Logging in twice hands out the same key and leaves the table as the
      first login left it. */
  lemma GetOrCreateTwice(tokens: map<UserId, TokenKey>, uid: UserId, k1: TokenKey, k2: TokenKey)
    ensures var first := GetOrCreateToken(tokens, uid, k1);
      GetOrCreateToken(first.0, uid, k2) == first
  {
  }

  /** Deletion of a user's token, if there is one. */
  function RevokeToken(tokens: map<UserId, TokenKey>, uid: UserId): (r: map<UserId, TokenKey>)
    ensures uid !in r
    ensures r.Keys == tokens.Keys - {uid}
    ensures forall v :: v in r ==> r[v] == tokens[v]
  {
    tokens - {uid}
  }

  /** Logging out twice is the same as logging out once. */
  lemma RevokeTwice(tokens: map<UserId, TokenKey>, uid: UserId)
    ensures RevokeToken(RevokeToken(tokens, uid), uid) == RevokeToken(tokens, uid)
  {
  }

  /** No two users share a token key. */
  predicate TokensInjective(tokens: map<UserId, TokenKey>) {
    forall a, b :: a in tokens && b in tokens && a != b ==> tokens[a] != tokens[b]
  }

  predicate DistinctUserIds(users: seq<User>) {
    forall i, j :: 0 <= i < j < |users| ==> users[i].id != users[j].id
  }

  /** The row `create_user` makes from a validated registration: the
      confirmation is dropped, the password stored only as its hash, and the
      account active. */
  function NewUser(d: Registration, id: UserId, hash: string -> string): (u: User)
    ensures u.id == id && u.username == d.username && u.phone == d.phone
    ensures u.email == (if d.email.Some? then d.email.value else "")
    ensures u.firstName == d.firstName && u.lastName == d.lastName
    ensures u.isActive && u.passwordHash == hash(d.password)
  {
    User(id, d.username, d.email.GetOr(""), d.firstName, d.lastName, d.phone, true, hash(d.password))
  }

  /** The user data shown to clients: every profile field, no credential. */
  function View(u: User): (v: UserView)
    ensures v.id == u.id && v.username == u.username && v.email == u.email
    ensures v.firstName == u.firstName && v.lastName == u.lastName && v.phone == u.phone
  {
    UserView(u.id, u.username, u.email, u.firstName, u.lastName, u.phone)
  }

  class Store {
    var users: seq<User>
    var tokens: map<UserId, TokenKey>

    /** User ids and usernames are unique, and a token key belongs to one user. */
    ghost predicate Valid()
      reads this
    {
      DistinctUserIds(users) && UniqueUsernames(users) && TokensInjective(tokens)
    }

    constructor ()
      ensures Valid() && users == [] && tokens == map[]
    {
      users, tokens := [], map[];
    }

    /** Login: the validator decides; on success the user's token is fetched
        or created, on failure the token table is left alone. */
    method Login(username: Option<string>, password: Option<string>,
                 authenticate: (string, string) -> Option<User>, freshKey: TokenKey)
      returns (r: Result<Session, LoginError>)
      requires Valid()
      requires freshKey !in tokens.Values
      modifies this
      ensures Valid()
      ensures users == old(users)
      ensures var v := ValidateLogin(username, password, authenticate);
        && (v.Failure? ==> r == Failure(v.error) && tokens == old(tokens))
        && (v.Success? ==> r.Success? && r.value.user == v.value
                           && (tokens, r.value.key) == GetOrCreateToken(old(tokens), v.value.id, freshKey))
    {
      var v := ValidateLogin(username, password, authenticate);
      if v.Failure? {
        return Failure(v.error);
      }
      var user := v.value;
      var got := GetOrCreateToken(tokens, user.id, freshKey);
      tokens := got.0;
      r := Success(Session(user, got.1));
    }

    /** Logout: the caller's token is deleted if there is one; it reports
        success either way. */
    method Logout(caller: UserId) returns (ok: bool)
      requires Valid()
      modifies this
      ensures Valid()
      ensures ok
      ensures tokens == RevokeToken(old(tokens), caller)
      ensures users == old(users)
    {
      tokens := RevokeToken(tokens, caller);
      ok := true;
    }

    /** The profile of the authenticated caller: their own row, the only
        one with their id. */
    function Profile(caller: UserId): (v: UserView)
      reads this
      requires Valid()
      requires exists i :: 0 <= i < |users| && users[i].id == caller
      ensures v.id == caller
      ensures forall i :: 0 <= i < |users| && users[i].id == caller ==> v == View(users[i])
    {
      var i := FirstIndex(users, (u: User) => u.id == caller).value;
      View(users[i])
    }

    /** Login with the default backend over the stored users: an active
        user whose password checks always gets in, as that user. */
    method LoginWithPassword(username: Option<string>, password: Option<string>,
                             checkPassword: (string, string) -> bool, freshKey: TokenKey)
      returns (r: Result<Session, LoginError>)
      requires Valid()
      requires freshKey !in tokens.Values
      modifies this
      ensures Valid()
      ensures users == old(users)
      ensures var v := DefaultLogin(users, checkPassword, username, password);
        && (v.Failure? ==> r == Failure(v.error) && tokens == old(tokens))
        && (v.Success? ==> r.Success? && r.value.user == v.value
                           && (tokens, r.value.key) == GetOrCreateToken(old(tokens), v.value.id, freshKey))
      ensures forall u :: (u in users && Given(username) && Given(password) && u.username == username.value
                           && u.isActive && checkPassword(password.value, u.passwordHash))
                          ==> r.Success? && r.value.user == u
    {
      var known := users;
      r := Login(username, password, (n, p) => ModelBackend(known, checkPassword, n, p), freshKey);
    }

    /** `create`: one user added for a registration that passed validation. */
    method CreateUser(d: Registration, newId: UserId, hash: string -> string) returns (u: User)
      requires Valid()
      requires ValidateRegistration(users, d).Success?
      requires forall i :: 0 <= i < |users| ==> users[i].id != newId
      modifies this
      ensures Valid()
      ensures u == NewUser(d, newId, hash)
      ensures users == old(users) + [u]
      ensures tokens == old(tokens)
    {
      u := NewUser(d, newId, hash);
      users := users + [u];
    }
  }

  /** Two successive logins by the same user, with nothing in between,
      return the same token key. */
  method LoginTwice(s: Store, username: Option<string>, password: Option<string>,
                    authenticate: (string, string) -> Option<User>, k1: TokenKey, k2: TokenKey)
    returns (first: Result<Session, LoginError>, second: Result<Session, LoginError>)
    requires s.Valid()
    requires k1 !in s.tokens.Values && k2 !in s.tokens.Values && k1 != k2
    requires ValidateLogin(username, password, authenticate).Success?
    modifies s
    ensures first.Success? && second.Success?
    ensures second.value.key == first.value.key
    ensures s.tokens == old(s.tokens)[first.value.user.id := first.value.key]
  {
    first := s.Login(username, password, authenticate, k1);
    second := s.Login(username, password, authenticate, k2);
  }
}
