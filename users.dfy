/**
  The user registry behind POST /api/register and POST /api/login.

  A user has an id, a username, an email and a password hash; emails and
  usernames are unique because registration refuses a second one. Hashing a
  password, checking one against a hash and issuing a token are done by the
  user model, which is not part of this model: they are the parameters
  `hash`, `verify` and `sign`. One `sign` stands for one token issue at one
  moment, so two requests may be given different signers. An unexpected
  exception inside a request is the parameter `fault`: the step that raises,
  if any (a step the request never reaches has no effect).
*/
module Users {
  import opened Http

  datatype User = User(id: int, username: string, email: string, passwordHash: string)

  /** The `user` part of a register or login response. */
  datatype UserResponse = UserResponse(id: int, username: string, email: string)

  datatype AuthResponse = AuthResponse(token: string, user: UserResponse)

  const EmailTaken := HttpError(BAD_REQUEST, "Email already registered")
  const UsernameTaken := HttpError(BAD_REQUEST, "Username already taken")
  const InvalidCredentials := HttpError(UNAUTHORIZED, "Invalid credentials")
  const RegistrationError := HttpError(INTERNAL_SERVER_ERROR, "An error occurred during registration")
  const LoginError := HttpError(INTERNAL_SERVER_ERROR, "An error occurred during login")

  /** The steps of register and login that can raise an unexpected exception:
      the query on the email, the query on the username, hashing the password
      and committing the new row, checking the password, issuing the token. */
  datatype Step = EmailLookup | UsernameLookup | Insert | PasswordCheck | TokenIssue

  /** The users table in id order, and the id the database hands out next. */
  datatype Registry = Registry(users: seq<User>, nextId: int)

  /** Ids ascend, are positive and below the next id; no email and no
      username is held by two users. */
  predicate Consistent(reg: Registry) {
    && 1 <= reg.nextId
    && (forall i :: 0 <= i < |reg.users| ==> 1 <= reg.users[i].id < reg.nextId)
    && (forall i, j :: 0 <= i < j < |reg.users| ==>
          && reg.users[i].id < reg.users[j].id
          && reg.users[i].email != reg.users[j].email
          && reg.users[i].username != reg.users[j].username)
  }

  /** The two columns register and login query on. */
  datatype Column = EmailColumn | UsernameColumn

  function Cell(u: User, c: Column): (cell: string) {
    match c
    case EmailColumn => u.email
    case UsernameColumn => u.username
  }

  /** Some user holds `value` in column `c`. */
  ghost predicate Taken(users: seq<User>, c: Column, value: string) {
    exists i :: 0 <= i < |users| && Cell(users[i], c) == value
  }

  /** `.first()` of the query filtered on one column: the position of the
      earliest user holding `value` there, or nothing when no user does. */
  function First(users: seq<User>, c: Column, value: string): (i: Option<nat>)
    ensures i.None? <==> forall j :: 0 <= j < |users| ==> Cell(users[j], c) != value
    ensures i.Some? ==>
      && i.value < |users|
      && Cell(users[i.value], c) == value
      && forall j :: 0 <= j < i.value ==> Cell(users[j], c) != value
    decreases |users|
  {
    if users == [] then None
    else if Cell(users[0], c) == value then Some(0)
    else
      match First(users[1..], c, value)
      case None => None
      case Some(k) => Some(k + 1)
  }

  function Profile(u: User): (profile: UserResponse) {
    UserResponse(u.id, u.username, u.email)
  }

  /** The table after a registration request, and what the client receives. */
  datatype Registered = Registered(registry: Registry, response: Result<AuthResponse>)

  /** `register`: refuse a taken email, then a taken username; otherwise add
      the user, commit, and answer with a token and the new user. An unexpected
      exception answers 500 after `rollback`, which undoes the insert only if
      it was not yet committed. */
  function Registration(reg: Registry, username: string, email: string, password: string,
                        hash: string -> string, sign: User -> string, fault: Option<Step>): (out: Registered)
    requires Consistent(reg)
    ensures Consistent(out.registry)
    ensures out.registry == reg ||
      (|out.registry.users| == |reg.users| + 1 && out.registry.users[..|reg.users|] == reg.users)
    ensures out.response.Ok? <==>
      && fault !in {Some(EmailLookup), Some(UsernameLookup), Some(Insert), Some(TokenIssue)}
      && !Taken(reg.users, EmailColumn, email)
      && !Taken(reg.users, UsernameColumn, username)
  {
    if fault == Some(EmailLookup) then Registered(reg, Err(RegistrationError))
    else if First(reg.users, EmailColumn, email).Some? then Registered(reg, Err(EmailTaken))
    else if fault == Some(UsernameLookup) then Registered(reg, Err(RegistrationError))
    else if First(reg.users, UsernameColumn, username).Some? then Registered(reg, Err(UsernameTaken))
    else if fault == Some(Insert) then Registered(reg, Err(RegistrationError))
    else
      var user := User(reg.nextId, username, email, hash(password));
      var committed := Registry(reg.users + [user], reg.nextId + 1);
      if fault == Some(TokenIssue) then Registered(committed, Err(RegistrationError))
      else Registered(committed, Ok(AuthResponse(sign(user), Profile(user))))
  }

  /** `login`: an unknown email and a wrong password both answer the same 401;
      otherwise the matched user's token and details. Nothing is written. */
  function Login(reg: Registry, email: string, password: string,
                 verify: (string, string) -> bool, sign: User -> string, fault: Option<Step>): (r: Result<AuthResponse>)
    ensures r.Err? ==> r.error == InvalidCredentials || r.error == LoginError
    ensures r.Ok? ==> exists i ::
      && 0 <= i < |reg.users|
      && reg.users[i].email == email
      && verify(password, reg.users[i].passwordHash)
      && r.value == AuthResponse(sign(reg.users[i]), Profile(reg.users[i]))
  {
    if fault == Some(EmailLookup) then Err(LoginError)
    else
      match First(reg.users, EmailColumn, email)
      case None => Err(InvalidCredentials)
      case Some(i) =>
        var user := reg.users[i];
        if fault == Some(PasswordCheck) then Err(LoginError)
        else if !verify(password, user.passwordHash) then Err(InvalidCredentials)
        else if fault == Some(TokenIssue) then Err(LoginError)
        else Ok(AuthResponse(sign(user), Profile(user)))
  }

  /** A taken email is refused with 400 "Email already registered" whatever
      the username, so the email check comes first, and the table is unchanged. */
  lemma RegisterRejectsTakenEmail(reg: Registry, username: string, email: string, password: string,
                                  hash: string -> string, sign: User -> string, fault: Option<Step>)
    requires Consistent(reg)
    requires Taken(reg.users, EmailColumn, email)
    requires fault != Some(EmailLookup)
    ensures Registration(reg, username, email, password, hash, sign, fault) == Registered(reg, Err(EmailTaken))
  {
  }

  /** A free email with a taken username is refused with 400 "Username already
      taken" and the table is unchanged. */
  lemma RegisterRejectsTakenUsername(reg: Registry, username: string, email: string, password: string,
                                     hash: string -> string, sign: User -> string, fault: Option<Step>)
    requires Consistent(reg)
    requires !Taken(reg.users, EmailColumn, email)
    requires Taken(reg.users, UsernameColumn, username)
    requires fault != Some(EmailLookup) && fault != Some(UsernameLookup)
    ensures Registration(reg, username, email, password, hash, sign, fault) == Registered(reg, Err(UsernameTaken))
  {
  }

  /** A successful registration adds exactly one user, at the end, with the
      given username and email, the hash of the given password and an id no
      other user has; the response is that user's token and details. */
  lemma RegisterAddsOneUser(reg: Registry, username: string, email: string, password: string,
                            hash: string -> string, sign: User -> string, fault: Option<Step>)
    requires Consistent(reg)
    requires Registration(reg, username, email, password, hash, sign, fault).response.Ok?
    ensures var out := Registration(reg, username, email, password, hash, sign, fault);
      && |out.registry.users| == |reg.users| + 1
      && out.registry.users[..|reg.users|] == reg.users
      && var u := out.registry.users[|reg.users|];
      && u.username == username && u.email == email && u.passwordHash == hash(password)
      && (forall i :: 0 <= i < |reg.users| ==> reg.users[i].id != u.id)
      && out.response.value == AuthResponse(sign(u), Profile(u))
  {
  }

  /** Every 500 answer of `register` leaves the table as it was, except a
      failure after the commit (issuing the token), which leaves the new user
      in place. */
  lemma RegisterFaultRollsBack(reg: Registry, username: string, email: string, password: string,
                               hash: string -> string, sign: User -> string, fault: Option<Step>)
    requires Consistent(reg)
    ensures var out := Registration(reg, username, email, password, hash, sign, fault);
      && (out.response == Err(RegistrationError) <==>
            || fault == Some(EmailLookup)
            || (!Taken(reg.users, EmailColumn, email) && fault == Some(UsernameLookup))
            || (&& !Taken(reg.users, EmailColumn, email)
                && !Taken(reg.users, UsernameColumn, username)
                && fault in {Some(Insert), Some(TokenIssue)}))
      && (out.response == Err(RegistrationError) && fault != Some(TokenIssue) ==> out.registry == reg)
      && (out.response == Err(RegistrationError) && fault == Some(TokenIssue) ==>
            out.registry.users == reg.users + [User(reg.nextId, username, email, hash(password))])
  {
  }

  /** Registering a second time with an email already registered fails with
      "Email already registered", whatever the other fields. */
  lemma {:induction false} SecondRegistrationRejected(
    reg: Registry, username: string, email: string, password: string,
    hash: string -> string, sign: User -> string, fault: Option<Step>,
    username2: string, password2: string, fault2: Option<Step>)
    requires Consistent(reg)
    requires Registration(reg, username, email, password, hash, sign, fault).registry != reg
    requires fault2 != Some(EmailLookup)
    ensures var reg' := Registration(reg, username, email, password, hash, sign, fault).registry;
      Registration(reg', username2, email, password2, hash, sign, fault2) == Registered(reg', Err(EmailTaken))
  {
    var reg' := Registration(reg, username, email, password, hash, sign, fault).registry;
    assert Cell(reg'.users[|reg.users|], EmailColumn) == email;
    RegisterRejectsTakenEmail(reg', username2, email, password2, hash, sign, fault2);
  }

  /** Logging in right after a successful registration, with the same email and
      password, succeeds and answers with the registered user's own id,
      username and email (given that the password checks out against its own
      hash). The token is the one issued at login: `signAtLogin` may differ
      from the `sign` used at registration, as tokens carry their issue time. */
  lemma {:induction false} RegisterThenLogin(reg: Registry, username: string, email: string, password: string,
                                             hash: string -> string, verify: (string, string) -> bool,
                                             sign: User -> string, signAtLogin: User -> string)
    requires Consistent(reg)
    requires Registration(reg, username, email, password, hash, sign, None).response.Ok?
    requires verify(password, hash(password))
    ensures var out := Registration(reg, username, email, password, hash, sign, None);
      var r := Login(out.registry, email, password, verify, signAtLogin, None);
      && r.Ok?
      && r.value.user == out.response.value.user
      && r.value.token == signAtLogin(out.registry.users[|reg.users|])
  {
    var out := Registration(reg, username, email, password, hash, sign, None);
    var users := out.registry.users;
    assert Cell(users[|reg.users|], EmailColumn) == email;
    var i := First(users, EmailColumn, email);
    assert forall j :: 0 <= j < |reg.users| ==> Cell(users[j], EmailColumn) != email by {
      assert !Taken(reg.users, EmailColumn, email);
      assert users[..|reg.users|] == reg.users;
    }
    assert i == Some(|reg.users|);
  }

  /** An unknown email and a known email with a wrong password get the same
      answer, 401 "Invalid credentials": the client cannot tell them apart. */
  lemma LoginFailuresAlike(unknown: Registry, known: Registry, email: string, password: string,
                           verify: (string, string) -> bool, sign: User -> string, fault: Option<Step>,
                           k: nat)
    requires !Taken(unknown.users, EmailColumn, email)
    requires Consistent(known)
    requires k < |known.users| && known.users[k].email == email
    requires !verify(password, known.users[k].passwordHash)
    requires fault != Some(EmailLookup) && fault != Some(PasswordCheck)
    ensures Login(unknown, email, password, verify, sign, fault) == Err(InvalidCredentials)
    ensures Login(known, email, password, verify, sign, fault) == Err(InvalidCredentials)
  {
  }

  /** Login succeeds exactly when the email belongs to a user whose hash the
      password verifies against (and no step raises), and it then answers with
      that user's own token and details. */
  lemma LoginMatchesOwnUser(reg: Registry, email: string, password: string,
                            verify: (string, string) -> bool, sign: User -> string, fault: Option<Step>)
    requires Consistent(reg)
    ensures Login(reg, email, password, verify, sign, fault).Ok? <==>
      && fault !in {Some(EmailLookup), Some(PasswordCheck), Some(TokenIssue)}
      && exists i :: 0 <= i < |reg.users| && reg.users[i].email == email && verify(password, reg.users[i].passwordHash)
    ensures forall i :: 0 <= i < |reg.users| && reg.users[i].email == email ==>
      var r := Login(reg, email, password, verify, sign, fault);
      r.Ok? ==> r.value == AuthResponse(sign(reg.users[i]), Profile(reg.users[i]))
  {
  }

  /** The exact cases that answer 500 "An error occurred during login": the
      email query raises, or a user has the email and the password check
      raises, or the password verifies and issuing the token raises. Every
      other failure is the 401. */
  lemma LoginFaultAnswers500(reg: Registry, email: string, password: string,
                             verify: (string, string) -> bool, sign: User -> string, fault: Option<Step>)
    requires Consistent(reg)
    ensures Login(reg, email, password, verify, sign, fault) == Err(LoginError) <==>
      || fault == Some(EmailLookup)
      || (fault == Some(PasswordCheck) && Taken(reg.users, EmailColumn, email))
      || (fault == Some(TokenIssue) && exists i ::
            0 <= i < |reg.users| && reg.users[i].email == email && verify(password, reg.users[i].passwordHash))
    ensures Login(reg, email, password, verify, sign, fault) == Err(InvalidCredentials) <==>
      && fault != Some(EmailLookup)
      && (Taken(reg.users, EmailColumn, email) ==> fault != Some(PasswordCheck))
      && !exists i :: 0 <= i < |reg.users| && reg.users[i].email == email && verify(password, reg.users[i].passwordHash)
  {
  }

  /** The users table, changed in place by registration through the database
      session (`db.add`, `commit`, `rollback`). */
  class UserTable {
    var users: seq<User>
    var nextId: int

    /** The table as a value, for the specification functions above. */
    function State(): (reg: Registry)
      reads this
    {
      Registry(users, nextId)
    }

    ghost predicate Valid()
      reads this
    {
      Consistent(State())
    }

    constructor ()
      ensures Valid() && users == []
    {
      users := [];
      nextId := 1;
    }

    /** POST /api/register. */
    method Register(username: string, email: string, password: string,
                    hash: string -> string, sign: User -> string, fault: Option<Step>)
      returns (r: Result<AuthResponse>)
      requires Valid()
      modifies this
      ensures Valid()
      ensures Registered(State(), r) == Registration(old(State()), username, email, password, hash, sign, fault)
    {
      if fault == Some(EmailLookup) {
        return Err(RegistrationError);
      }
      if First(users, EmailColumn, email).Some? {
        return Err(EmailTaken);
      }
      if fault == Some(UsernameLookup) {
        return Err(RegistrationError);
      }
      if First(users, UsernameColumn, username).Some? {
        return Err(UsernameTaken);
      }
      if fault == Some(Insert) {
        // rollback: the new row was never committed
        return Err(RegistrationError);
      }
      var user := User(nextId, username, email, hash(password));
      users := users + [user];
      nextId := nextId + 1;
      if fault == Some(TokenIssue) {
        // rollback after the commit: the new row stays
        return Err(RegistrationError);
      }
      r := Ok(AuthResponse(sign(user), Profile(user)));
    }
  }
}
