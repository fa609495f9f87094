/** The relational store behind the REST API, as an in-memory value: the user,
    report, upvote and comment tables, with the constraints the handlers keep
    (unique ids and e-mails, references to existing rows, and every report's
    `upvotes` counter equal to the number of its upvote pairs). */
module Store {
  import opened Common
  import opened Types

  /** The cost factor every password is hashed with. */
  const SaltRounds: nat := 10

  /** bcrypt reads at most this many bytes of a password; the rest is ignored. */
  const BcryptInputLimit: nat := 72

  /** The part of a password that bcrypt reads. Characters stand for bytes here. */
  function BcryptInput(password: string): (s: string)
    ensures |s| <= BcryptInputLimit
    ensures |password| <= BcryptInputLimit ==> s == password
    ensures |password| > BcryptInputLimit ==> s == password[..BcryptInputLimit]
  {
    if |password| <= BcryptInputLimit then password else password[..BcryptInputLimit]
  }

  /** A bcrypt digest, represented by the cost it was made with and the (at most 72
      characters of) password it commits to. The salt and the one-way function
      itself are not modelled. */
  datatype PasswordHash = Bcrypt(cost: nat, preimage: string)

  /** `bcrypt.hash(password, 10)`. */
  function HashPassword(password: string): PasswordHash {
    Bcrypt(SaltRounds, BcryptInput(password))
  }

  /** `bcrypt.compare(password, hash)`. */
  predicate PasswordMatches(password: string, hash: PasswordHash) {
    BcryptInput(password) == hash.preimage
  }

  /** A stored hash accepts its own password, and accepts another one exactly when
      the two agree on their first 72 characters; between passwords of at most 72
      characters it accepts only its own. */
  lemma HashAcceptsOnlyItsPassword(password: string, attempt: string)
    ensures PasswordMatches(password, HashPassword(password))
    ensures PasswordMatches(attempt, HashPassword(password)) <==> BcryptInput(attempt) == BcryptInput(password)
    ensures |password| <= BcryptInputLimit && |attempt| <= BcryptInputLimit ==>
      (PasswordMatches(attempt, HashPassword(password)) <==> attempt == password)
  {
  }

  /** Two different passwords that share their first 72 characters unlock the same
      hash. */
  lemma LongPasswordsShareAHash(prefix: string, a: char, b: char)
    requires |prefix| == BcryptInputLimit && a != b
    ensures prefix + [a] != prefix + [b]
    ensures PasswordMatches(prefix + [b], HashPassword(prefix + [a]))
  {
    assert (prefix + [a])[..BcryptInputLimit] == prefix;
    assert (prefix + [b])[..BcryptInputLimit] == prefix;
    assert (prefix + [a])[BcryptInputLimit] != (prefix + [b])[BcryptInputLimit];
  }

  /** A user row: the public fields plus the password hash and the ban flag. */
  datatype UserRow = UserRow(id: Id, email: string, password: PasswordHash, role: Role, isBanned: bool, createdAt: int)

  /** The user as the authentication replies show it: no password, no ban flag. */
  function PublicUser(u: UserRow): User {
    User(u.id, u.email, u.role, None, u.createdAt)
  }

  /** The whole store. `upvotes` holds the (report id, user id) pairs; being a set,
      it carries the unique constraint on that pair. `nextId` is where fresh ids
      are drawn from. */
  datatype Tables = Tables(
    users: seq<UserRow>,
    reports: seq<Report>,
    upvotes: set<(Id, Id)>,
    comments: seq<Comment>,
    nextId: nat)

  /** The store after a handler ran, and the reply it sent. */
  datatype Outcome<T> = Outcome(after: Tables, reply: Response<T>)

  predicate HasUser(users: seq<UserRow>, id: Id) {
    exists i | 0 <= i < |users| :: users[i].id == id
  }

  predicate HasReport(reports: seq<Report>, id: Id) {
    exists i | 0 <= i < |reports| :: reports[i].id == id
  }

  /** `findUnique({ where: { id } })` on the user table. */
  function FindUser(users: seq<UserRow>, id: Id): (r: Option<nat>)
    ensures r.Some? ==> r.value < |users| && users[r.value].id == id
    ensures r.None? <==> !HasUser(users, id)
  {
    FirstIndex(users, (u: UserRow) => u.id == id)
  }

  /** `findUnique({ where: { email } })` on the user table. */
  function FindUserByEmail(users: seq<UserRow>, email: string): (r: Option<nat>)
    ensures r.Some? ==> r.value < |users| && users[r.value].email == email
    ensures r.None? <==> forall i | 0 <= i < |users| :: users[i].email != email
  {
    FirstIndex(users, (u: UserRow) => u.email == email)
  }

  /** `findUnique({ where: { id } })` on the report table. */
  function FindReport(reports: seq<Report>, id: Id): (r: Option<nat>)
    ensures r.Some? ==> r.value < |reports| && reports[r.value].id == id
    ensures r.None? <==> !HasReport(reports, id)
  {
    FirstIndex(reports, (r: Report) => r.id == id)
  }

  /** The users who upvoted report `reportId`. */
  function Voters(upvotes: set<(Id, Id)>, reportId: Id): set<Id> {
    set p | p in upvotes && p.0 == reportId :: p.1
  }

  /** Ids are below `nextId`, no two users share an id or an e-mail address. */
  predicate UsersWellFormed(t: Tables) {
    && (forall i | 0 <= i < |t.users| :: t.users[i].id < t.nextId)
    && (forall i, j | 0 <= i < j < |t.users| :: t.users[i].id != t.users[j].id)
    && (forall i, j | 0 <= i < j < |t.users| :: t.users[i].email != t.users[j].email)
  }

  /** An anonymous report has no owner, and an owner is an existing user. */
  predicate OwnerValid(users: seq<UserRow>, r: Report) {
    && (r.anonymous ==> r.userId.None?)
    && (r.userId.Some? ==> HasUser(users, r.userId.value))
  }

  predicate ReportsWellFormed(t: Tables) {
    && (forall i | 0 <= i < |t.reports| :: t.reports[i].id < t.nextId)
    && (forall i, j | 0 <= i < j < |t.reports| :: t.reports[i].id != t.reports[j].id)
    && (forall i | 0 <= i < |t.reports| :: OwnerValid(t.users, t.reports[i]))
  }

  /** Every upvote pair names an existing report and an existing user. */
  predicate UpvotesWellFormed(t: Tables) {
    forall p | p in t.upvotes :: HasReport(t.reports, p.0) && HasUser(t.users, p.1)
  }

  /** Each report's counter equals the number of its upvote pairs. */
  predicate CountersMatch(t: Tables) {
    forall i | 0 <= i < |t.reports| :: t.reports[i].upvotes == |Voters(t.upvotes, t.reports[i].id)|
  }

  predicate CommentsWellFormed(t: Tables) {
    && (forall i | 0 <= i < |t.comments| :: t.comments[i].id < t.nextId)
    && (forall i, j | 0 <= i < j < |t.comments| :: t.comments[i].id != t.comments[j].id)
    && (forall i | 0 <= i < |t.comments| ::
          HasReport(t.reports, t.comments[i].reportId) && HasUser(t.users, t.comments[i].userId))
  }

  /** The store's invariant. */
  predicate Inv(t: Tables) {
    && UsersWellFormed(t)
    && ReportsWellFormed(t)
    && UpvotesWellFormed(t)
    && CountersMatch(t)
    && CommentsWellFormed(t)
  }

  /** The empty store satisfies the invariant. */
  lemma EmptyStoreIsValid()
    ensures Inv(Tables([], [], {}, [], 0))
  {
  }

  /** Adding the pair (r, u) adds u to the voters of r and to no other report's. */
  lemma VotersAfterAdd(upvotes: set<(Id, Id)>, r: Id, u: Id, other: Id)
    ensures Voters(upvotes + {(r, u)}, other) == if other == r then Voters(upvotes, other) + {u} else Voters(upvotes, other)
  {
    if other == r {
      assert u in Voters(upvotes + {(r, u)}, other) by {
        assert (r, u) in upvotes + {(r, u)};
      }
      forall v | v in Voters(upvotes, other) ensures v in Voters(upvotes + {(r, u)}, other) {
        var p :| p in upvotes && p.0 == other && p.1 == v;
        assert p in upvotes + {(r, u)};
      }
    } else {
      forall v | v in Voters(upvotes, other) ensures v in Voters(upvotes + {(r, u)}, other) {
        var p :| p in upvotes && p.0 == other && p.1 == v;
        assert p in upvotes + {(r, u)};
      }
    }
  }

  /** Removing the pair (r, u) removes u from the voters of r and changes no other report's. */
  lemma VotersAfterRemove(upvotes: set<(Id, Id)>, r: Id, u: Id, other: Id)
    ensures Voters(upvotes - {(r, u)}, other) == if other == r then Voters(upvotes, other) - {u} else Voters(upvotes, other)
  {
    forall v | v in Voters(upvotes, other) && (other != r || v != u)
      ensures v in Voters(upvotes - {(r, u)}, other)
    {
      var p :| p in upvotes && p.0 == other && p.1 == v;
      assert p in upvotes - {(r, u)};
    }
  }

  /** The whole store as one mutable object: each handler reads and writes its
      tables in place. */
  class Database {
    var users: seq<UserRow>
    var reports: seq<Report>
    var upvotes: set<(Id, Id)>
    var comments: seq<Comment>
    var nextId: nat

    /** The current contents of the store. */
    function Snapshot(): Tables
      reads this
    {
      Tables(users, reports, upvotes, comments, nextId)
    }

    ghost predicate Valid()
      reads this
    {
      Inv(Snapshot())
    }

    constructor ()
      ensures Snapshot() == Tables([], [], {}, [], 0)
      ensures Valid()
    {
      users, reports, upvotes, comments, nextId := [], [], {}, [], 0;
      EmptyStoreIsValid();
    }
  }
}
