/** The `/login` and `/register` routes of server/routes/auth.js over an
    in-memory user collection. Token signing is the jsonwebtoken library's:
    a token is modelled by its payload and lifetime. `fault` stands for the
    user store throwing, which the routes turn into a 500. */
module AuthRoutes {
  import opened Base
  import opened Text
  import opened UserSchema

  /** Seven days, `expiresIn: '7d'`, in seconds. */
  const TokenLifetime: nat := 7 * 24 * 60 * 60

  /** A signed token: payload `{ id }` and its lifetime. */
  datatype Token = Token(id: UserId, expiresIn: nat)

  /** The `user` part of a success response: id, name and email only. */
  datatype UserView = UserView(id: UserId, name: string, email: string)

  datatype AuthResponse =
    | Granted(status: nat, token: Token, user: UserView)
    | Denied(status: nat, message: string)

  /** `req.body` of /login; `None` is a missing field. */
  datatype LoginBody = LoginBody(email: Option<string>, password: Option<string>)

  const MissingCredentials: AuthResponse := Denied(400, "Please provide email and password")
  const InvalidCredentials: AuthResponse := Denied(401, "Invalid credentials")
  const LoginError: AuthResponse := Denied(500, "Server error during login")
  const UserExists: AuthResponse := Denied(400, "User already exists")
  const RegistrationError: AuthResponse := Denied(500, "Server error during registration")

  /** `jwt.sign({ id }, secret, { expiresIn: '7d' })`: the id, valid for
      604800 seconds. */
  function GenerateToken(id: UserId): (t: Token)
    ensures t.id == id && t.expiresIn == 604800
  {
    Token(id, TokenLifetime)
  }

  function View(u: User): UserView {
    UserView(u.id, u.name, u.email)
  }

  predicate Present(v: Option<string>) {
    v.Some? && v.value != ""
  }

  /** `User.findOne({ email })`: the first user with that email. The
      schema's lower-case setter applies to the queried value too. */
  function FindByEmail(users: seq<User>, email: string): (k: Option<nat>)
    ensures k.Some? ==> k.value < |users| && users[k.value].email == email
    ensures k.Some? ==> forall j :: 0 <= j < k.value ==> users[j].email != email
    ensures k.None? ==> forall j :: 0 <= j < |users| ==> users[j].email != email
  {
    if users == [] then None
    else if users[0].email == email then Some(0)
    else match FindByEmail(users[1..], email)
      case None => None
      case Some(k) => Some(k + 1)
  }

  /** POST /login: a 200 with a seven-day token for a stored user of that
      (lower-cased) email, or one of the three failure answers. */
  function LoginRoute(users: seq<User>, body: LoginBody, h: Hasher, fault: bool): (r: AuthResponse)
    ensures !Present(body.email) || !Present(body.password) ==> r == MissingCredentials
    ensures r.Granted? ==>
      && r.status == 200 && r.token.id == r.user.id && r.token.expiresIn == 604800
      && exists k :: 0 <= k < |users| && users[k].id == r.user.id && users[k].email == r.user.email
                     && r.user.email == ToLower(body.email.value)
    ensures r.Denied? ==> r in {MissingCredentials, InvalidCredentials, LoginError}
  {
    if !Present(body.email) || !Present(body.password) then MissingCredentials
    else if fault then LoginError
    else match FindByEmail(users, ToLower(body.email.value))
      case None => InvalidCredentials
      case Some(k) =>
        if !ComparePassword(h, users[k], body.password.value) then InvalidCredentials
        else Granted(200, GenerateToken(users[k].id), View(users[k]))
  }

  /** POST /register: the response and the new user collection. */
  function RegisterRoute(users: seq<User>, input: UserInput, h: Hasher, fault: bool, id: UserId, now: Timestamp)
    : (out: (AuthResponse, seq<User>))
    ensures fault ==> out == (RegistrationError, users)
    ensures out.0.Granted? ==>
      && out.0.status == 201 && out.0.token == Token(id, 604800) && out.0.user.id == id
      && |out.1| == |users| + 1 && out.1[..|users|] == users && out.1[|users|].id == id
    ensures out.0.Denied? ==> out.1 == users && out.0 in {UserExists, RegistrationError}
  {
    if fault then (RegistrationError, users)
    else if FindByEmail(users, ToLower(input.email)).Some? then (UserExists, users)
    else if UserViolations(Trim(input.name), ToLower(input.email), input.password) != [] then (RegistrationError, users)
    else
      var u := NewUser(input, h, id, now);
      (Granted(201, GenerateToken(id), View(u)), users + [u])
  }

  /** A missing or empty email or password is answered 400 before any lookup. */
  lemma LoginMissingFieldsFirst(users: seq<User>, others: seq<User>, body: LoginBody, h: Hasher, fault: bool)
    requires !Present(body.email) || !Present(body.password)
    ensures LoginRoute(users, body, h, fault) == MissingCredentials
    ensures LoginRoute(users, body, h, fault) == LoginRoute(others, body, h, !fault)
  {
  }

  /** An unknown email and a wrong password get the same 401; a 401 happens
      for exactly those two reasons. */
  lemma {:induction false} LoginRejectsUniformly(users: seq<User>, body: LoginBody, h: Hasher)
    requires Present(body.email) && Present(body.password)
    ensures var e := ToLower(body.email.value);
      LoginRoute(users, body, h, false) == InvalidCredentials <==>
        || (forall j :: 0 <= j < |users| ==> users[j].email != e)
        || (exists k :: 0 <= k < |users| && users[k].email == e
              && (forall j :: 0 <= j < k ==> users[j].email != e)
              && !ComparePassword(h, users[k], body.password.value))
  {
    var e := ToLower(body.email.value);
    match FindByEmail(users, e)
    case None =>
    case Some(k) =>
      forall k' | 0 <= k' < |users| && users[k'].email == e && (forall j :: 0 <= j < k' ==> users[j].email != e)
        ensures k' == k
      {
      }
  }

  /** A successful login answers 200 with the stored user's id, name and
      email and a seven-day token for that id; the password matched. */
  lemma {:induction false} LoginGrantsStoredIdentity(users: seq<User>, body: LoginBody, h: Hasher, fault: bool)
    requires LoginRoute(users, body, h, fault).Granted?
    ensures var r := LoginRoute(users, body, h, fault);
      && r.status == 200
      && exists k :: 0 <= k < |users|
           && users[k].email == ToLower(body.email.value)
           && ComparePassword(h, users[k], body.password.value)
           && r.user == UserView(users[k].id, users[k].name, users[k].email)
           && r.token == Token(users[k].id, 604800)
  {
    var k := FindByEmail(users, ToLower(body.email.value)).value;
    assert LoginRoute(users, body, h, fault).user == View(users[k]);
  }

  predicate EmailsDistinct(users: seq<User>) {
    forall i, j :: 0 <= i < j < |users| ==> users[i].email != users[j].email
  }

  /** Registering an email already present, in any letter case, answers
      400 "User already exists" and adds nobody. */
  lemma DuplicateRegistrationRejected(users: seq<User>, input: UserInput, h: Hasher, id: UserId, now: Timestamp)
    requires exists k :: 0 <= k < |users| && users[k].email == ToLower(input.email)
    ensures RegisterRoute(users, input, h, false, id, now) == (UserExists, users)
  {
  }

  /** Registration either adds exactly one user, answering 201 with a token
      for the new id and only id, name and email, or answers an error and
      adds nobody; emails stay distinct. */
  lemma {:induction false} RegistrationAddsOneUser(users: seq<User>, input: UserInput, h: Hasher, fault: bool, id: UserId, now: Timestamp)
    requires EmailsDistinct(users)
    ensures var (r, users') := RegisterRoute(users, input, h, fault, id, now);
      && EmailsDistinct(users')
      && (r.Granted? ==>
            && r.status == 201
            && users' == users + [NewUser(input, h, id, now)]
            && r.token == Token(id, 604800)
            && r.user == UserView(id, Trim(input.name), ToLower(input.email)))
      && (r.Denied? ==> users' == users && r.status in {400, 500})
      && (r.Granted? <==>
            (!fault && !IsBlank(input.name) && input.email != ""
             && Utf16Length(input.password) >= MinPasswordLength
             && forall j :: 0 <= j < |users| ==> users[j].email != ToLower(input.email)))
  {
    InputViolations(input);
    var e := ToLower(input.email);
    if !fault && FindByEmail(users, e).None? && UserViolations(Trim(input.name), e, input.password) == [] {
      var users' := users + [NewUser(input, h, id, now)];
      forall i, j | 0 <= i < j < |users'| ensures users'[i].email != users'[j].email {
        if j == |users| { assert users'[j].email == e && users'[i] == users[i]; }
        else { assert users'[i] == users[i] && users'[j] == users[j]; }
      }
    }
  }

  /** With a sound hashing library, whoever has just registered can log in
      with the same email and password and is given the new identity. */
  lemma {:induction false} RegisterThenLogin(users: seq<User>, input: UserInput, h: Hasher, id: UserId, now: Timestamp)
    requires Sound(h)
    requires RegisterRoute(users, input, h, false, id, now).0.Granted?
    ensures var users' := RegisterRoute(users, input, h, false, id, now).1;
      LoginRoute(users', LoginBody(Some(input.email), Some(input.password)), h, false)
        == Granted(200, Token(id, TokenLifetime), UserView(id, Trim(input.name), ToLower(input.email)))
  {
    var e := ToLower(input.email);
    var u := NewUser(input, h, id, now);
    var users' := users + [u];
    assert FindByEmail(users, e).None?;
    assert |e| == |input.email|;
    assert input.password != "";
    var k := FindByEmail(users', e);
    assert users'[|users|].email == e;
    assert forall j :: 0 <= j < |users| ==> users'[j].email != e by {
      forall j | 0 <= j < |users| ensures users'[j].email != e {
        assert users'[j] == users[j];
      }
    }
    assert k == Some(|users|);
    assert ComparePassword(h, u, input.password);
  }

  /** The user store of the auth routes. */
  class CredentialStore {
    var users: seq<User>
    var nextId: UserId

    ghost predicate Valid()
      reads this
    {
      EmailsDistinct(users) && forall i :: 0 <= i < |users| ==> users[i].id < nextId
    }

    constructor ()
      ensures Valid() && users == []
    {
      users := [];
      nextId := 0;
    }

    /** `User.findOne({ email })` as a scan. */
    method FindUser(email: string) returns (k: Option<nat>)
      ensures k == FindByEmail(users, email)
    {
      var i := 0;
      while i < |users| && users[i].email != email
        invariant 0 <= i <= |users|
        invariant forall j :: 0 <= j < i ==> users[j].email != email
      {
        i := i + 1;
      }
      k := if i < |users| then Some(i) else None;
      var spec := FindByEmail(users, email);
      assert spec.Some? ==> spec.value == i;
    }

    /** POST /login, with its early returns. */
    method Login(body: LoginBody, h: Hasher, fault: bool) returns (resp: AuthResponse)
      ensures resp == LoginRoute(users, body, h, fault)
    {
      if !Present(body.email) || !Present(body.password) {
        return MissingCredentials;
      }
      if fault {
        return LoginError;
      }
      var k := FindUser(ToLower(body.email.value));
      if k.None? {
        return InvalidCredentials;
      }
      var user := users[k.value];
      var isPasswordValid := ComparePassword(h, user, body.password.value);
      if !isPasswordValid {
        return InvalidCredentials;
      }
      resp := Granted(200, GenerateToken(user.id), View(user));
    }

    /** POST /register: duplicate check, then `User.create`, whose save
        validates and runs the hashing hook. */
    method Register(input: UserInput, h: Hasher, fault: bool, now: Timestamp) returns (resp: AuthResponse)
      requires Valid()
      modifies this
      ensures Valid()
      ensures (resp, users) == RegisterRoute(old(users), input, h, fault, old(nextId), now)
    {
      if fault {
        return RegistrationError;
      }
      var existing := FindUser(ToLower(input.email));
      if existing.Some? {
        return UserExists;
      }
      var doc := new UserDocument(input);
      var errors := doc.Save(h);
      if errors != [] {
        return RegistrationError;
      }
      var user := doc.Snapshot(nextId, now);
      assert user == NewUser(input, h, nextId, now);
      RegistrationAddsOneUser(users, input, h, fault, nextId, now);
      users := users + [user];
      nextId := nextId + 1;
      resp := Granted(201, GenerateToken(user.id), View(user));
    }
  }
}
