/** The mock authentication of `authService.js`. The browser's
    `localStorage` is an abstract key-to-entry map; `JSON.stringify` and
    `JSON.parse` are the identity between a stored entry and the object it
    holds. The user table is a parameter (the fixture table in the
    portal); registering never adds to it. */
module AuthService {
  import opened Results
  import opened Records
  import Text
  import opened Seqs

  /** A JSON field value of a stored user object. ISO dates are kept as
      instants. */
  datatype Field = Str(s: string) | Num(n: int) | Time(t: Timestamp)

  /** A plain JavaScript object with string-valued keys. */
  type Object = map<string, Field>

  /** A `localStorage` value: a raw string, or an object serialised as JSON. */
  datatype Entry = Raw(text: string) | Serialized(obj: Object)

  type Storage = map<string, Entry>

  const TokenKey := "token"
  const UserKey := "user"
  const TokenPrefix := "mock_jwt_token_"

  const InvalidCredentials := "Invalid credentials"
  const AlreadyExists := "Username or email already exists"
  const NotAuthenticated := "Not authenticated"

  datatype Credentials = Credentials(username: string, password: string)

  /** What `register` receives; an empty `role` is an absent one. */
  datatype Registration = Registration(username: string, email: string, password: string, fullName: string, role: string)

  /** The `{ token, user }` response of `login` and `register`. */
  datatype Session = Session(token: string, user: Object)

  /** The object a user record serialises to. */
  function UserObject(u: User): (o: Object)
    ensures o.Keys == {"id", "username", "email", "fullName", "role", "created_at"}
    ensures o["id"] == Num(u.id) && o["username"] == Str(u.username) && o["email"] == Str(u.email)
    ensures o["fullName"] == Str(u.fullName) && o["role"] == Str(u.role) && o["created_at"] == Time(u.createdAt)
  {
    map["id" := Num(u.id), "username" := Str(u.username), "email" := Str(u.email),
        "fullName" := Str(u.fullName), "role" := Str(u.role), "created_at" := Time(u.createdAt)]
  }

  /** `'mock_jwt_token_' + id`. */
  function TokenFor(id: int): (token: string)
    ensures |token| > |TokenPrefix| && token[..|TokenPrefix|] == TokenPrefix
  {
    TokenPrefix + Text.IntToDecimal(id)
  }

  /** Distinct user ids get distinct tokens. */
  lemma TokenForInjective(a: int, b: int)
    requires TokenFor(a) == TokenFor(b)
    ensures a == b
  {
    assert TokenFor(a)[|TokenPrefix|..] == Text.IntToDecimal(a);
    assert TokenFor(b)[|TokenPrefix|..] == Text.IntToDecimal(b);
    Text.DecimalInjective(a, b);
  }

  /** The storage after a successful sign-in as `u`. */
  function SignedIn(storage: Storage, u: Object, token: string): Storage {
    storage[TokenKey := Raw(token)][UserKey := Serialized(u)]
  }

  /** The test `find` applies: the user has `username`. */
  function UsernameTest(username: string): User -> bool {
    (u: User) => u.username == username
  }

  predicate KnownUsername(users: seq<User>, username: string) {
    exists i :: 0 <= i < |users| && users[i].username == username
  }

  function FindByUsername(users: seq<User>, username: string): (r: Option<User>)
    ensures r.None? <==> !KnownUsername(users, username)
    ensures forall i :: IsFirst(users, i, UsernameTest(username)) ==> r == Some(users[i])
    decreases |users|
  {
    if |users| == 0 then None
    else if users[0].username == username then Some(users[0])
    else
      var rest := FindByUsername(users[1..], username);
      assert forall i :: IsFirst(users, i, UsernameTest(username)) ==> IsFirst(users[1..], i - 1, UsernameTest(username));
      rest
  }

  /** `login(credentials)`: any password is accepted for a known username;
      an unknown one throws "Invalid credentials" before anything is
      stored. */
  function Login(users: seq<User>, storage: Storage, credentials: Credentials): (r: Step<Storage, Session>)
    ensures r.result.Err? <==> !KnownUsername(users, credentials.username)
    ensures r.result.Err? ==> r.state == storage && r.result.message == InvalidCredentials
    ensures forall i :: IsFirst(users, i, UsernameTest(credentials.username)) ==>
      && r.result == Ok(Session(TokenFor(users[i].id), UserObject(users[i])))
      && r.state == SignedIn(storage, UserObject(users[i]), TokenFor(users[i].id))
  {
    match FindByUsername(users, credentials.username)
    case None => Step(storage, Err(InvalidCredentials))
    case Some(u) =>
      var token := TokenFor(u.id);
      Step(SignedIn(storage, UserObject(u), token), Ok(Session(token, UserObject(u))))
  }

  /** The password plays no part in the mock sign-in. */
  lemma LoginIgnoresPassword(users: seq<User>, storage: Storage, username: string, p: string, q: string)
    ensures Login(users, storage, Credentials(username, p)) == Login(users, storage, Credentials(username, q))
  {
  }

  predicate Taken(users: seq<User>, data: Registration) {
    exists i :: 0 <= i < |users| && (users[i].username == data.username || users[i].email == data.email)
  }

  /** `register(userData)`: refuses a username or email already in the
      table, otherwise signs in as a new user with id `id` and creation time
      `now` (standing for `Date.now()` and the clock). The caller's role is
      kept as given, "student" when absent. */
  function Register(users: seq<User>, storage: Storage, data: Registration, id: int, now: Timestamp): (r: Step<Storage, Session>)
    ensures r.result.Err? <==> Taken(users, data)
    ensures r.result.Err? ==> r.state == storage && r.result.message == AlreadyExists
    ensures r.result.Ok? ==>
      var u := User(id, data.username, data.email, data.fullName, if data.role == "" then StudentRole else data.role, now);
      && r.result.value == Session(TokenFor(id), UserObject(u))
      && r.state == SignedIn(storage, UserObject(u), TokenFor(id))
  {
    if exists i :: 0 <= i < |users| && (users[i].username == data.username || users[i].email == data.email) then
      Step(storage, Err(AlreadyExists))
    else
      var u := User(id, data.username, data.email, data.fullName, if data.role == "" then StudentRole else data.role, now);
      Step(SignedIn(storage, UserObject(u), TokenFor(id)), Ok(Session(TokenFor(id), UserObject(u))))
  }

  /** `logout()`: removes the token and the user, nothing else. */
  function Logout(storage: Storage): (r: Storage)
    ensures TokenKey !in r && UserKey !in r
    ensures forall k :: k in storage && k != TokenKey && k != UserKey ==> k in r && r[k] == storage[k]
    ensures r.Keys <= storage.Keys
  {
    storage - {TokenKey, UserKey}
  }

  /** `getCurrentUser()`: the stored user object, or `null` when no user
      entry is stored. Only the user entry is read; the token plays no
      part. */
  function CurrentUser(storage: Storage): (r: Option<Object>)
    ensures UserKey !in storage ==> r.None?
    ensures r.Some? <==> UserKey in storage && storage[UserKey].Serialized?
    ensures r.Some? ==> storage[UserKey] == Serialized(r.value)
  {
    if UserKey in storage && storage[UserKey].Serialized? then Some(storage[UserKey].obj) else None
  }

  /** `isAuthenticated()`: `!!localStorage.getItem('token')`, so a stored
      token counts unless it is the empty string; the user entry plays no
      part. */
  predicate IsAuthenticated(storage: Storage): (authenticated: bool)
    ensures authenticated ==> TokenKey in storage
    ensures TokenKey in storage && storage[TokenKey] == Raw("") ==> !authenticated
    ensures TokenKey in storage && storage[TokenKey].Raw? && storage[TokenKey].text != "" ==> authenticated
  {
    TokenKey in storage && storage[TokenKey] != Raw("")
  }

  /** The two session entries are read independently: writing the token
      does not change who the current user is, and writing the user does
      not change whether the session is authenticated. */
  lemma SessionEntriesIndependent(storage: Storage, e: Entry)
    ensures CurrentUser(storage[TokenKey := e]) == CurrentUser(storage)
    ensures IsAuthenticated(storage[UserKey := e]) == IsAuthenticated(storage)
  {
  }

  /** `getProfile()`: the stored user, or "Not authenticated". */
  function GetProfile(storage: Storage): (r: Result<Object>)
    ensures r.Err? <==> CurrentUser(storage).None?
    ensures r.Err? ==> r.message == NotAuthenticated
    ensures r.Ok? ==> UserKey in storage && storage[UserKey] == Serialized(r.value)
  {
    match CurrentUser(storage)
    case None => Err(NotAuthenticated)
    case Some(u) => Ok(u)
  }

  /** `updateProfile(data)`: `{ ...currentUser, ...data }` replaces the
      stored user; the token is left alone. */
  function UpdateProfile(storage: Storage, data: Object): (r: Step<Storage, Object>)
    ensures r.result.Err? <==> CurrentUser(storage).None?
    ensures r.result.Err? ==> r.state == storage && r.result.message == NotAuthenticated
    ensures r.result.Ok? ==>
      var current := CurrentUser(storage).value;
      var updated := r.result.value;
      && updated.Keys == current.Keys + data.Keys
      && (forall k :: k in data ==> updated[k] == data[k])
      && (forall k :: k in current && k !in data ==> updated[k] == current[k])
      && r.state == storage[UserKey := Serialized(updated)]
  {
    match CurrentUser(storage)
    case None => Step(storage, Err(NotAuthenticated))
    case Some(current) =>
      var updated := current + data;
      Step(storage[UserKey := Serialized(updated)], Ok(updated))
  }

  /** Reading the profile after an update returns the merged user the
      update returned. */
  lemma UpdateThenGetProfile(storage: Storage, data: Object)
    ensures var step := UpdateProfile(storage, data);
      step.result.Ok? ==> GetProfile(step.state) == step.result
  {
  }

  /** After a successful sign-in the session is visible through the storage:
      the user is authenticated and the stored user is the one returned. */
  lemma SignInIsObservable(storage: Storage, s: Session)
    requires |s.token| > 0
    ensures IsAuthenticated(SignedIn(storage, s.user, s.token))
    ensures CurrentUser(SignedIn(storage, s.user, s.token)) == Some(s.user)
    ensures GetProfile(SignedIn(storage, s.user, s.token)) == Ok(s.user)
  {
  }

  /** Logging out ends the session whatever the storage held. */
  lemma LogoutEndsSession(storage: Storage)
    ensures !IsAuthenticated(Logout(storage))
    ensures CurrentUser(Logout(storage)).None?
    ensures GetProfile(Logout(storage)).Err?
  {
  }

  /** Registering does not add to the user table: whoever just registered
      still cannot log in under the new username. */
  lemma RegisteredUserCannotLogIn(users: seq<User>, storage: Storage, data: Registration, id: int, now: Timestamp, password: string)
    requires Register(users, storage, data, id, now).result.Ok?
    ensures var after := Register(users, storage, data, id, now).state;
      Login(users, after, Credentials(data.username, password)).result == Err(InvalidCredentials)
  {
  }
}
