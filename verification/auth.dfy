/** Registration and login. A successful call issues a token carrying the user's
    id and role at that moment; the token itself is represented by those claims.
    Unknown address and wrong password get the same reply. */
module AuthRoutes {
  import opened Common
  import opened Types
  import opened Store
  import opened AuthMiddleware

  /** What a successful register or login returns: the claims signed into the
      token, and the user without its password. */
  datatype Session = Session(claims: Claims, user: User)

  /** The reply for a user row: claims and public view both taken from the row. */
  function SessionFor(u: UserRow): (s: Session)
    ensures s.claims == Claims(u.id, u.role)
    ensures s.user == User(u.id, u.email, u.role, None, u.createdAt)
  {
    Session(Claims(u.id, u.role), PublicUser(u))
  }

  /** The row `user.create({ data: { email, password } })` inserts: the schema's
      defaults give the CITIZEN role and no ban. */
  function NewUser(id: Id, email: string, password: string, now: int): UserRow {
    UserRow(id, email, HashPassword(password), Citizen, false, now)
  }

  predicate EmailTaken(users: seq<UserRow>, email: string) {
    exists i | 0 <= i < |users| :: users[i].email == email
  }

  function RegisterSpec(t: Tables, email: string, password: string, now: int): (o: Outcome<Session>)
    ensures email == "" || password == "" ==> o == Outcome(t, Err(400, "Email and password required"))
    ensures email != "" && password != "" && EmailTaken(t.users, email) ==>
      o == Outcome(t, Err(400, "Email already registered"))
    ensures o.reply.Ok? <==> email != "" && password != "" && !EmailTaken(t.users, email)
    ensures o.reply.Err? ==> o.after == t && o.reply.status == 400
    ensures o.reply.Ok? ==>
      && o.reply.status == 201
      && o.after == t.(users := t.users + [NewUser(t.nextId, email, password, now)], nextId := t.nextId + 1)
      && o.reply.body.claims == Claims(t.nextId, Citizen)
      && o.reply.body.user.email == email
      && o.reply.body.user.isBanned.None?
  {
    if email == "" || password == "" then Outcome(t, Err(400, "Email and password required"))
    else if FindUserByEmail(t.users, email).Some? then Outcome(t, Err(400, "Email already registered"))
    else
      var row := NewUser(t.nextId, email, password, now);
      Outcome(t.(users := t.users + [row], nextId := t.nextId + 1), Ok(201, SessionFor(row)))
  }

  /** Registration keeps the invariant, in particular the uniqueness of e-mail
      addresses. */
  lemma RegisterKeepsInv(t: Tables, email: string, password: string, now: int)
    requires Inv(t)
    ensures Inv(RegisterSpec(t, email, password, now).after)
  {
    var o := RegisterSpec(t, email, password, now);
    if o.reply.Ok? {
      var t' := o.after;
      forall id | HasUser(t.users, id) ensures HasUser(t'.users, id) {
        var k :| 0 <= k < |t.users| && t.users[k].id == id;
        assert t'.users[k].id == id;
      }
      forall i | 0 <= i < |t.reports| ensures OwnerValid(t'.users, t.reports[i]) {
        assert OwnerValid(t.users, t.reports[i]);
      }
    }
  }

  method Register(db: Database, email: string, password: string, now: int) returns (res: Response<Session>)
    requires db.Valid()
    modifies db
    ensures db.Valid()
    ensures Outcome(db.Snapshot(), res) == RegisterSpec(old(db.Snapshot()), email, password, now)
  {
    RegisterKeepsInv(db.Snapshot(), email, password, now);
    if email == "" || password == "" {
      return Err(400, "Email and password required");
    }
    var existing := FindUserByEmail(db.users, email);
    if existing.Some? {
      return Err(400, "Email already registered");
    }
    var row := NewUser(db.nextId, email, password, now);
    db.users := db.users + [row];
    db.nextId := db.nextId + 1;
    res := Ok(201, SessionFor(row));
  }

  /** The login handler; it reads the user table and changes nothing. */
  function Login(t: Tables, email: string, password: string): (r: Response<Session>)
    ensures email == "" || password == "" ==> r == Err(400, "Email and password required")
    ensures email != "" && password != "" && r.Err? ==> r == Err(401, "Invalid credentials")
    ensures r.Ok? <==>
      email != "" && password != "" &&
      exists i | 0 <= i < |t.users| :: t.users[i].email == email && PasswordMatches(password, t.users[i].password) &&
        forall j | 0 <= j < i :: t.users[j].email != email
    ensures r.Ok? ==> (r.status == 200 &&
      exists i | 0 <= i < |t.users| :: t.users[i].email == email && r.body == SessionFor(t.users[i]))
  {
    if email == "" || password == "" then Err(400, "Email and password required")
    else match FindUserByEmail(t.users, email)
      case None => Err(401, "Invalid credentials")
      case Some(i) =>
        if !PasswordMatches(password, t.users[i].password) then Err(401, "Invalid credentials")
        else Ok(200, SessionFor(t.users[i]))
  }

  /** Under the invariant an address names at most one user, so login succeeds
      exactly when that user's stored hash accepts the password. */
  lemma LoginSucceedsIffPasswordMatches(t: Tables, email: string, password: string, i: nat)
    requires Inv(t) && email != "" && password != ""
    requires i < |t.users| && t.users[i].email == email
    ensures Login(t, email, password).Ok? <==> PasswordMatches(password, t.users[i].password)
    ensures Login(t, email, password).Ok? ==> Login(t, email, password).body == SessionFor(t.users[i])
  {
    assert FindUserByEmail(t.users, email) == Some(i);
  }

  /** An unknown address and a wrong password are indistinguishable to the caller. */
  lemma LoginFailuresLookAlike(t: Tables, unknown: string, known: string, password: string, wrong: string)
    requires unknown != "" && known != "" && password != "" && wrong != ""
    requires !EmailTaken(t.users, unknown)
    requires Login(t, known, wrong).Err?
    ensures Login(t, unknown, password) == Login(t, known, wrong)
  {
  }

  /** Whoever registers can log in at once with the same credentials, and receives
      the same claims. */
  lemma RegisterThenLogin(t: Tables, email: string, password: string, now: int)
    requires Inv(t)
    requires RegisterSpec(t, email, password, now).reply.Ok?
    ensures Login(RegisterSpec(t, email, password, now).after, email, password)
         == Ok(200, RegisterSpec(t, email, password, now).reply.body)
  {
    var t' := RegisterSpec(t, email, password, now).after;
    RegisterKeepsInv(t, email, password, now);
    LoginSucceedsIffPasswordMatches(t', email, password, |t.users|);
  }
}
