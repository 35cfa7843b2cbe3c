/** The account routes: registration, login and the current-user view. The
    password hash and its check are parameters (`hash`, `verify`); a session
    token is modelled by the account id it is issued for. */
module Auth {
  import opened Common
  import opened Collections
  import opened Models
  import opened Store
  import Users

  /** A signed session token; only the account it names is modelled. */
  datatype Token = Token(subject: Id)

  /** What registration and login answer with. */
  datatype Session = Session(token: Token, user: PublicUser)

  datatype RegisterBody = RegisterBody(email: Option<string>, password: Option<string>, username: Option<string>, role: Option<Role>)

  /** The `$or` lookup before registration: an account whose email is the
      given email, or whose username is the given username. */
  predicate Clashes(u: User, b: RegisterBody) {
    (b.email.Some? && u.email == b.email.value) || (b.username.Some? && u.username == b.username.value)
  }

  /** The account `User.create` stores for a body that passed the lookup:
      email, username and password are required, the role defaults to
      listener, the password is stored hashed, and there are no likes or
      plays yet. */
  function NewAccount(b: RegisterBody, hash: string -> string): (r: Option<User>)
    ensures r.Some? <==> Given(b.email) && Given(b.password) && Given(b.username)
    ensures r.Some? ==>
      && r.value.email == b.email.value && r.value.username == b.username.value
      && r.value.password == hash(b.password.value)
      && r.value.role == b.role.GetOr(Listener)
      && r.value.likedSongs == [] && r.value.recentlyPlayed == []
  {
    if Given(b.email) && Given(b.password) && Given(b.username) then
      Some(User(b.email.value, b.username.value, hash(b.password.value),
                if b.role.Some? then b.role.value else Listener, [], []))
    else None
  }

  /** POST /auth/register. The duplicate check comes first, so a body that
      clashes is refused as a duplicate even when it lacks fields. */
  method Register(store: Database, body: RegisterBody, hash: string -> string) returns (r: Result<Session>)
    requires store.Valid()
    modifies store
    ensures store.Valid()
    ensures (exists k :: k in old(store.users) && Clashes(old(store.users)[k], body)) ==>
      r == Err(BadRequest(UserExists)) && unchanged(store)
    ensures (forall k :: k in old(store.users) ==> !Clashes(old(store.users)[k], body)) ==>
      if NewAccount(body, hash).None? then
        r == Err(BadRequest(Invalid)) && unchanged(store)
      else
        && r.Ok? && r.value.token.subject !in old(store.users)
        && r.value.user == Profile(r.value.token.subject, NewAccount(body, hash).value)
        && store.users == old(store.users)[r.value.token.subject := NewAccount(body, hash).value]
        && store.songs == old(store.songs) && store.playlists == old(store.playlists)
  {
    if exists k :: k in store.users && Clashes(store.users[k], body) {
      return Err(BadRequest(UserExists));
    }
    var account := NewAccount(body, hash);
    if account.None? {
      return Err(BadRequest(Invalid));
    }
    var id := store.FreshId();
    store.AddUser(id, account.value);
    r := Ok(Session(Token(id), Profile(id, account.value)));
  }

  /** `User.findOne({ email })`: some account with that email, if any. With
      unique emails it is the one. */
  ghost function FindByEmail(users: map<Id, User>, email: string): (r: Option<Id>)
    ensures r.Some? <==> exists k :: k in users && users[k].email == email
    ensures r.Some? ==> r.value in users && users[r.value].email == email
  {
    if exists k :: k in users && users[k].email == email then
      var k :| k in users && users[k].email == email;
      Some(k)
    else None
  }

  /** POST /auth/login. Missing credentials are a 400; an unknown email and a
      wrong password give the same 401. */
  ghost function Login(users: map<Id, User>, email: Option<string>, password: Option<string>,
                       verify: (string, string) -> bool): (r: Result<Session>)
    ensures r.Err? && r.failure == BadRequest(CredentialsRequired) <==> !Given(email) || !Given(password)
    ensures r.Err? ==> r.failure in {BadRequest(CredentialsRequired), Unauthorized(IncorrectCredentials)}
    ensures r.Ok? ==>
      var k := r.value.token.subject;
      && k in users && users[k].email == email.value && verify(password.value, users[k].password)
      && r.value.user == Profile(k, users[k])
  {
    if !Given(email) || !Given(password) then Err(BadRequest(CredentialsRequired))
    else
      var found := FindByEmail(users, email.value);
      if found.None? || !verify(password.value, users[found.value].password) then
        Err(Unauthorized(IncorrectCredentials))
      else Ok(Session(Token(found.value), Profile(found.value, users[found.value])))
  }

  /** With unique emails, login succeeds exactly for the account holding the
      email whose stored password the given one verifies against. */
  lemma LoginSucceedsExactly(users: map<Id, User>, email: string, password: string,
                             verify: (string, string) -> bool, k: Id)
    requires UniqueAccounts(users)
    requires email != "" && password != ""
    requires k in users && users[k].email == email
    ensures Login(users, Some(email), Some(password), verify).Ok? <==> verify(password, users[k].password)
    ensures Login(users, Some(email), Some(password), verify).Ok? ==>
      Login(users, Some(email), Some(password), verify).value.token == Token(k)
  {
    var found := FindByEmail(users, email);
    assert found == Some(k);
  }

  /** A newly registered account can log in with the password it registered
      with, provided the check accepts a password against its own hash. */
  lemma RegisterThenLogin(users: map<Id, User>, id: Id, body: RegisterBody,
                          hash: string -> string, verify: (string, string) -> bool)
    requires UniqueAccounts(users) && id !in users
    requires forall k :: k in users ==> !Clashes(users[k], body)
    requires NewAccount(body, hash).Some?
    requires forall p :: verify(p, hash(p))
    ensures UniqueAccounts(users[id := NewAccount(body, hash).value])
    ensures Login(users[id := NewAccount(body, hash).value], body.email, body.password, verify)
         == Ok(Session(Token(id), Profile(id, NewAccount(body, hash).value)))
  {
    var after := users[id := NewAccount(body, hash).value];
    LoginSucceedsExactly(after, body.email.value, body.password.value, verify, id);
  }

  /** The current user as GET /auth/me shows it. */
  datatype MeView = MeView(account: PublicUser, likedSongs: seq<Id>, recentlyPlayed: seq<PlayEvent>)

  /** GET /auth/me, for the account the session resolves to: the public
      fields with the likes and the history as stored references. */
  function Me(id: Id, u: User): (r: MeView)
    ensures r.account.id == id && r.account.email == u.email && r.account.username == u.username && r.account.role == u.role
    ensures r.likedSongs == u.likedSongs && r.recentlyPlayed == u.recentlyPlayed
  {
    MeView(Profile(id, u), u.likedSongs, u.recentlyPlayed)
  }

  /** The current-user view lists the same likes as the liked-songs route,
      in the same order, while every liked song is still stored; the route
      resolves what the view leaves as ids. */
  lemma MeAgreesWithLikedSongs(users: map<Id, User>, songs: map<Id, Song>, id: Id)
    requires id in users
    requires forall i :: 0 <= i < |users[id].likedSongs| ==> users[id].likedSongs[i] in songs
    ensures Users.LikedSongs(users, songs, id).Ok?
    ensures MapSeq(Users.LikedSongs(users, songs, id).value, Users.IdOf) == Me(id, users[id]).likedSongs
  {
    Users.PopulateAllPresent(users[id].likedSongs, songs);
  }

  /** After a successful login the current-user view shows the account the
      login answered with. */
  lemma MeShowsLoggedInAccount(users: map<Id, User>, email: Option<string>, password: Option<string>,
                               verify: (string, string) -> bool)
    requires Login(users, email, password, verify).Ok?
    ensures var s := Login(users, email, password, verify).value;
      s.token.subject in users && Me(s.token.subject, users[s.token.subject]).account == s.user
  {
  }
}
