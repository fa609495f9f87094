/** The user administration routes: the listing with per-user counts, and the role
    and ban updates, which an admin may not apply to their own account. */
module UserRoutes {
  import opened Common
  import opened Types
  import opened Sorting
  import opened Store

  // ---------------------------------------------------------------------------
  // GET /

  /** A row of the user listing: the public fields, the ban flag and the number of
      reports, comments and upvotes the user owns. */
  datatype UserSummary = UserSummary(user: User, reports: nat, comments: nat, upvotes: nat)

  function ReportCount(reports: seq<Report>, id: Id): nat {
    |Filter(reports, (r: Report) => r.userId == Some(id))|
  }

  function CommentCount(comments: seq<Comment>, id: Id): nat {
    |Filter(comments, (c: Comment) => c.userId == id)|
  }

  /** The user as the admin replies show it: with the ban flag, never the password. */
  function AdminView(u: UserRow): (v: User)
    ensures v.id == u.id && v.email == u.email && v.role == u.role && v.createdAt == u.createdAt
    ensures v.isBanned == Some(u.isBanned)
  {
    User(u.id, u.email, u.role, Some(u.isBanned), u.createdAt)
  }

  /** Upvotes are keyed by report first; the user's own are the pairs with its id
      second. */
  function UpvotesBy(upvotes: set<(Id, Id)>, userId: Id): set<Id> {
    set p | p in upvotes && p.1 == userId :: p.0
  }

  function SummariseAll(t: Tables, rows: seq<UserRow>): (s: seq<UserSummary>)
    ensures |s| == |rows|
    ensures forall i | 0 <= i < |rows| :: s[i].user == AdminView(rows[i])
    ensures forall i | 0 <= i < |rows| :: s[i].reports == ReportCount(t.reports, rows[i].id)
    ensures forall i | 0 <= i < |rows| :: s[i].comments == CommentCount(t.comments, rows[i].id)
    ensures forall i | 0 <= i < |rows| :: s[i].upvotes == |UpvotesBy(t.upvotes, rows[i].id)|
  {
    seq(|rows|, i requires 0 <= i < |rows| =>
      UserSummary(AdminView(rows[i]), ReportCount(t.reports, rows[i].id), CommentCount(t.comments, rows[i].id),
                  |UpvotesBy(t.upvotes, rows[i].id)|))
  }

  /** The listing: every user once, newest account first. */
  function ListUsers(t: Tables): seq<UserSummary> {
    SummariseAll(t, SortDesc(t.users, (u: UserRow) => u.createdAt))
  }

  lemma ListUsersCorrect(t: Tables)
    ensures |ListUsers(t)| == |t.users|
    ensures forall i, j | 0 <= i < j < |ListUsers(t)| :: ListUsers(t)[i].user.createdAt >= ListUsers(t)[j].user.createdAt
    ensures forall i | 0 <= i < |t.users| :: exists k | 0 <= k < |ListUsers(t)| :: ListUsers(t)[k].user == AdminView(t.users[i])
    ensures forall k | 0 <= k < |ListUsers(t)| :: ListUsers(t)[k].user.isBanned.Some?
  {
    var key := (u: UserRow) => u.createdAt;
    var sorted := SortDesc(t.users, key);
    SortDescCorrect(t.users, key);
    forall i | 0 <= i < |t.users|
      ensures exists k | 0 <= k < |ListUsers(t)| :: ListUsers(t)[k].user == AdminView(t.users[i])
    {
      assert t.users[i] in multiset(sorted);
      var k :| 0 <= k < |sorted| && sorted[k] == t.users[i];
      assert ListUsers(t)[k].user == AdminView(t.users[i]);
    }
  }

  // ---------------------------------------------------------------------------
  // PUT /:id/role and PUT /:id/ban

  function WithRole(rows: seq<UserRow>, id: Id, role: Role): (r: seq<UserRow>)
    ensures |r| == |rows|
    ensures forall i | 0 <= i < |rows| :: r[i] == if rows[i].id == id then rows[i].(role := role) else rows[i]
  {
    seq(|rows|, i requires 0 <= i < |rows| => if rows[i].id == id then rows[i].(role := role) else rows[i])
  }

  function WithBan(rows: seq<UserRow>, id: Id, isBanned: bool): (r: seq<UserRow>)
    ensures |r| == |rows|
    ensures forall i | 0 <= i < |rows| :: r[i] == if rows[i].id == id then rows[i].(isBanned := isBanned) else rows[i]
  {
    seq(|rows|, i requires 0 <= i < |rows| => if rows[i].id == id then rows[i].(isBanned := isBanned) else rows[i])
  }

  /** Rewriting user rows without touching their ids or e-mail addresses keeps the
      invariant: every reference into the user table still resolves. */
  lemma UserFieldsOnlyKeepInv(t: Tables, rows: seq<UserRow>)
    requires Inv(t)
    requires |rows| == |t.users|
    requires forall i | 0 <= i < |rows| :: rows[i].id == t.users[i].id && rows[i].email == t.users[i].email
    ensures Inv(t.(users := rows))
  {
    forall id | HasUser(t.users, id) ensures HasUser(rows, id) {
      var k :| 0 <= k < |t.users| && t.users[k].id == id;
      assert rows[k].id == id;
    }
    forall i | 0 <= i < |t.reports| ensures OwnerValid(rows, t.reports[i]) {
      assert OwnerValid(t.users, t.reports[i]);
    }
  }

  /** The role handler, for an admin `caller`. `role` is the body's wire string. */
  function UpdateRoleSpec(t: Tables, caller: Id, target: Id, role: string): (o: Outcome<User>)
    ensures ParseRole(role).None? ==> o == Outcome(t, Err(400, "Invalid role"))
    ensures ParseRole(role).Some? && target == caller ==> o == Outcome(t, Err(400, "Cannot change your own role"))
    ensures o.reply.Ok? <==> ParseRole(role).Some? && target != caller && HasUser(t.users, target)
    ensures o.reply.Err? ==> o.after == t
    ensures o.reply.Err? && ParseRole(role).Some? && target != caller ==> o.reply == Err(500, "Failed to update role")
    ensures o.reply.Ok? ==>
      && o.reply.status == 200
      && o.after == t.(users := WithRole(t.users, target, ParseRole(role).value))
      && o.reply.body.id == target
      && RoleName(o.reply.body.role) == role
      && o.reply.body == AdminView(o.after.users[FindUser(t.users, target).value])
  {
    match ParseRole(role)
    case None => Outcome(t, Err(400, "Invalid role"))
    case Some(r) =>
      if target == caller then Outcome(t, Err(400, "Cannot change your own role"))
      else match FindUser(t.users, target)
        case None => Outcome(t, Err(500, "Failed to update role"))
        case Some(i) => Outcome(t.(users := WithRole(t.users, target, r)), Ok(200, AdminView(t.users[i].(role := r))))
  }

  lemma UpdateRoleKeepsInv(t: Tables, caller: Id, target: Id, role: string)
    requires Inv(t)
    ensures Inv(UpdateRoleSpec(t, caller, target, role).after)
  {
    var o := UpdateRoleSpec(t, caller, target, role);
    if o.reply.Ok? {
      UserFieldsOnlyKeepInv(t, WithRole(t.users, target, ParseRole(role).value));
    }
  }

  /** No request lets an admin change their own role. */
  lemma OwnRoleNeverChanges(t: Tables, caller: Id, role: string)
    ensures UpdateRoleSpec(t, caller, caller, role).after == t
    ensures UpdateRoleSpec(t, caller, caller, role).reply.status == 400
  {
  }

  /** The ban handler. `isBanned` is `None` when the body's field is not a boolean. */
  function UpdateBanSpec(t: Tables, caller: Id, target: Id, isBanned: Option<bool>): (o: Outcome<User>)
    ensures isBanned.None? ==> o == Outcome(t, Err(400, "Invalid ban status"))
    ensures isBanned.Some? && target == caller ==> o == Outcome(t, Err(400, "Cannot ban yourself"))
    ensures o.reply.Ok? <==> isBanned.Some? && target != caller && HasUser(t.users, target)
    ensures o.reply.Err? ==> o.after == t
    ensures o.reply.Err? && isBanned.Some? && target != caller ==> o.reply == Err(500, "Failed to update ban status")
    ensures o.reply.Ok? ==>
      && o.reply.status == 200
      && o.after == t.(users := WithBan(t.users, target, isBanned.value))
      && o.reply.body.id == target
      && o.reply.body.isBanned == isBanned
      && o.reply.body == AdminView(o.after.users[FindUser(t.users, target).value])
  {
    match isBanned
    case None => Outcome(t, Err(400, "Invalid ban status"))
    case Some(b) =>
      if target == caller then Outcome(t, Err(400, "Cannot ban yourself"))
      else match FindUser(t.users, target)
        case None => Outcome(t, Err(500, "Failed to update ban status"))
        case Some(i) => Outcome(t.(users := WithBan(t.users, target, b)), Ok(200, AdminView(t.users[i].(isBanned := b))))
  }

  lemma UpdateBanKeepsInv(t: Tables, caller: Id, target: Id, isBanned: Option<bool>)
    requires Inv(t)
    ensures Inv(UpdateBanSpec(t, caller, target, isBanned).after)
  {
    var o := UpdateBanSpec(t, caller, target, isBanned);
    if o.reply.Ok? {
      UserFieldsOnlyKeepInv(t, WithBan(t.users, target, isBanned.value));
    }
  }

  /** Setting the ban flag twice to the same value is the same as setting it once,
      and the second reply is the first. */
  lemma {:induction false} UpdateBanIdempotent(t: Tables, caller: Id, target: Id, isBanned: Option<bool>)
    ensures var once := UpdateBanSpec(t, caller, target, isBanned);
            var twice := UpdateBanSpec(once.after, caller, target, isBanned);
            twice.after == once.after && (once.reply.Ok? ==> twice.reply == once.reply)
  {
    var once := UpdateBanSpec(t, caller, target, isBanned);
    if once.reply.Ok? {
      var b := isBanned.value;
      var rows := WithBan(t.users, target, b);
      var i := FindUser(t.users, target).value;
      assert once == Outcome(t.(users := rows), Ok(200, AdminView(t.users[i].(isBanned := b))));
      assert WithBan(rows, target, b) == rows;
      FindUserKeepsIndex(t.users, rows, target);
      assert rows[i] == t.users[i].(isBanned := b);
      assert UpdateBanSpec(once.after, caller, target, isBanned)
          == Outcome(t.(users := rows), Ok(200, AdminView(rows[i].(isBanned := b))));
    }
  }

  /** Rewriting rows without changing their ids keeps every lookup by id. */
  lemma FindUserKeepsIndex(users: seq<UserRow>, rows: seq<UserRow>, id: Id)
    requires |rows| == |users|
    requires forall k | 0 <= k < |rows| :: rows[k].id == users[k].id
    ensures FindUser(rows, id) == FindUser(users, id)
  {
    match FindUser(users, id)
    case None =>
    case Some(i) =>
      assert rows[i].id == id;
  }

  /** A successful ban update changes the ban flag of the target and nothing else. */
  lemma UpdateBanChangesOnlyTheFlag(t: Tables, caller: Id, target: Id, isBanned: Option<bool>, k: nat)
    requires k < |t.users|
    requires UpdateBanSpec(t, caller, target, isBanned).reply.Ok?
    ensures var after := UpdateBanSpec(t, caller, target, isBanned).after.users[k];
            after == if t.users[k].id == target then t.users[k].(isBanned := isBanned.value) else t.users[k]
  {
  }

  /** With unique ids, rewriting the row found for `id` is the update by id. */
  lemma UpdateAtIsWithRole(t: Tables, i: nat, role: Role)
    requires Inv(t) && i < |t.users|
    ensures t.users[i := t.users[i].(role := role)] == WithRole(t.users, t.users[i].id, role)
  {
  }

  lemma UpdateAtIsWithBan(t: Tables, i: nat, isBanned: bool)
    requires Inv(t) && i < |t.users|
    ensures t.users[i := t.users[i].(isBanned := isBanned)] == WithBan(t.users, t.users[i].id, isBanned)
  {
  }

  method UpdateRole(db: Database, caller: Id, target: Id, role: string) returns (res: Response<User>)
    requires db.Valid()
    modifies db
    ensures db.Valid()
    ensures Outcome(db.Snapshot(), res) == UpdateRoleSpec(old(db.Snapshot()), caller, target, role)
  {
    ghost var before := db.Snapshot();
    UpdateRoleKeepsInv(before, caller, target, role);
    var parsed := ParseRole(role);
    if parsed.None? {
      return Err(400, "Invalid role");
    }
    if target == caller {
      return Err(400, "Cannot change your own role");
    }
    var row := FindUser(db.users, target);
    if row.None? {
      return Err(500, "Failed to update role");
    }
    var i := row.value;
    UpdateAtIsWithRole(before, i, parsed.value);
    var updated := db.users[i].(role := parsed.value);
    db.users := db.users[i := updated];
    res := Ok(200, AdminView(updated));
  }

  method UpdateBan(db: Database, caller: Id, target: Id, isBanned: Option<bool>) returns (res: Response<User>)
    requires db.Valid()
    modifies db
    ensures db.Valid()
    ensures Outcome(db.Snapshot(), res) == UpdateBanSpec(old(db.Snapshot()), caller, target, isBanned)
  {
    ghost var before := db.Snapshot();
    UpdateBanKeepsInv(before, caller, target, isBanned);
    if isBanned.None? {
      return Err(400, "Invalid ban status");
    }
    if target == caller {
      return Err(400, "Cannot ban yourself");
    }
    var row := FindUser(db.users, target);
    if row.None? {
      return Err(500, "Failed to update ban status");
    }
    var i := row.value;
    UpdateAtIsWithBan(before, i, isBanned.value);
    var updated := db.users[i].(isBanned := isBanned.value);
    db.users := db.users[i := updated];
    res := Ok(200, AdminView(updated));
  }
}
