/** The report routes: create, list, get one, toggle an upvote, add a comment and
    change a status. Each handler is a specification function over the store's
    value, returning the store afterwards and the reply, and a method that
    performs the same steps on a `Database` in place. */
module ReportRoutes {
  import opened Common
  import opened Types
  import opened Text
  import opened Sorting
  import opened Store
  import opened AuthMiddleware

  // ---------------------------------------------------------------------------
  // POST /create

  /** `!title || !description || !category || !lat || !lng`: an empty string or a
      zero coordinate counts as missing. */
  predicate MissingRequiredField(req: CreateReportRequest) {
    req.title == "" || req.description == "" || req.category == "" || req.lat == 0.0 || req.lng == 0.0
  }

  /** `data.anonymous ? null : req.userId`. */
  function ReportOwner(req: CreateReportRequest, caller: Option<Id>): Option<Id> {
    if req.anonymous == Some(true) then None else caller
  }

  /** The owner reference is acceptable to the store: none, or an existing user. */
  predicate OwnerExists(t: Tables, owner: Option<Id>) {
    owner.Some? ==> HasUser(t.users, owner.value)
  }

  function CreateReportSpec(t: Tables, req: CreateReportRequest, caller: Option<Id>, now: int): (o: Outcome<Report>)
    ensures MissingRequiredField(req) ==> o == Outcome(t, Err(400, "Missing required fields"))
    ensures o.reply.Ok? <==>
      !MissingRequiredField(req) && ParseCategory(req.category).Some? && OwnerExists(t, ReportOwner(req, caller))
    ensures o.reply.Err? ==> o.after == t && o.reply.status in {400, 500}
    ensures o.reply.Ok? ==>
      && o.reply.status == 201
      && o.after == t.(reports := t.reports + [o.reply.body], nextId := t.nextId + 1)
      && o.reply.body.id == t.nextId
      && o.reply.body.anonymous == (req.anonymous == Some(true))
      && o.reply.body.userId == ReportOwner(req, caller)
      && (caller.None? ==> o.reply.body.userId.None?)
      && CategoryName(o.reply.body.category) == req.category
      && o.reply.body.title == req.title && o.reply.body.description == req.description
      && o.reply.body.lat == req.lat && o.reply.body.lng == req.lng
      && o.reply.body.status == New && o.reply.body.upvotes == 0 && !o.reply.body.isArchived
      && o.reply.body.address == req.address
      && o.reply.body.imageData == req.imageData && o.reply.body.audioData == req.audioData
      && o.reply.body.createdAt == now && o.reply.body.updatedAt == now
  {
    if MissingRequiredField(req) then Outcome(t, Err(400, "Missing required fields"))
    else match ParseCategory(req.category)
      case None => Outcome(t, Err(500, "Failed to create report"))
      case Some(category) =>
        var owner := ReportOwner(req, caller);
        if !OwnerExists(t, owner) then Outcome(t, Err(500, "Failed to create report"))
        else
          var report := Report(t.nextId, req.title, req.description, category, New, req.lat, req.lng,
                               req.address, req.imageData, req.audioData, 0, req.anonymous == Some(true),
                               false, now, now, owner);
          Outcome(t.(reports := t.reports + [report], nextId := t.nextId + 1), Ok(201, report))
  }

  lemma CreateReportKeepsInv(t: Tables, req: CreateReportRequest, caller: Option<Id>, now: int)
    requires Inv(t)
    ensures Inv(CreateReportSpec(t, req, caller, now).after)
  {
    var o := CreateReportSpec(t, req, caller, now);
    if o.reply.Ok? {
      var t' := o.after;
      var r := o.reply.body;
      forall p | p in t'.upvotes ensures HasReport(t'.reports, p.0) {
        var i :| 0 <= i < |t.reports| && t.reports[i].id == p.0;
        assert t'.reports[i] == t.reports[i];
      }
      forall p | p in t.upvotes ensures p.0 != r.id {
        var i :| 0 <= i < |t.reports| && t.reports[i].id == p.0;
      }
      assert Voters(t'.upvotes, r.id) == {};
      forall i | 0 <= i < |t'.comments| ensures HasReport(t'.reports, t'.comments[i].reportId) {
        var k :| 0 <= k < |t.reports| && t.reports[k].id == t.comments[i].reportId;
        assert t'.reports[k] == t.reports[k];
      }
    }
  }

  /** The create handler, on a caller identity set by `optionalAuth`. */
  method CreateReport(db: Database, req: CreateReportRequest, caller: Option<Id>, now: int) returns (res: Response<Report>)
    requires db.Valid()
    modifies db
    ensures db.Valid()
    ensures Outcome(db.Snapshot(), res) == CreateReportSpec(old(db.Snapshot()), req, caller, now)
  {
    CreateReportKeepsInv(db.Snapshot(), req, caller, now);
    if MissingRequiredField(req) {
      return Err(400, "Missing required fields");
    }
    var category := ParseCategory(req.category);
    if category.None? {
      return Err(500, "Failed to create report");
    }
    var owner := if req.anonymous == Some(true) then None else caller;
    if owner.Some? && FindUser(db.users, owner.value).None? {
      return Err(500, "Failed to create report");
    }
    var report := Report(db.nextId, req.title, req.description, category.value, New, req.lat, req.lng,
                         req.address, req.imageData, req.audioData, 0, req.anonymous == Some(true),
                         false, now, now, owner);
    db.reports := db.reports + [report];
    db.nextId := db.nextId + 1;
    res := Ok(201, report);
  }

  // ---------------------------------------------------------------------------
  // GET / and GET /:id

  /** The query string of a listing; an absent parameter is the empty string. */
  datatype ReportQuery = ReportQuery(category: string, status: string, search: string, sortBy: string)

  /** The `where` object the list handler builds. */
  datatype Where = Where(category: Option<Category>, status: Option<Status>, search: Option<string>)

  /** Builds the filter from the query: a parameter is used only when non-empty. A
      category or status that is not a member of its enumeration makes the store
      reject the query, so there is no filter for it. */
  function BuildWhere(q: ReportQuery): (w: Option<Where>)
    ensures w.Some? <==>
      (q.category == "" || ParseCategory(q.category).Some?) && (q.status == "" || ParseStatus(q.status).Some?)
    ensures w.Some? ==> (w.value.category.None? <==> q.category == "")
    ensures w.Some? && w.value.category.Some? ==> CategoryName(w.value.category.value) == q.category
    ensures w.Some? ==> (w.value.status.None? <==> q.status == "")
    ensures w.Some? && w.value.status.Some? ==> StatusName(w.value.status.value) == q.status
    ensures w.Some? ==> w.value.search == if q.search == "" then None else Some(q.search)
  {
    var category := if q.category == "" then Some(None) else
      match ParseCategory(q.category) case None => None case Some(c) => Some(Some(c));
    var status := if q.status == "" then Some(None) else
      match ParseStatus(q.status) case None => None case Some(s) => Some(Some(s));
    if category.None? || status.None? then None
    else Some(Where(category.value, status.value, if q.search == "" then None else Some(q.search)))
  }

  /** A row passes the filter: exact category and status, case-insensitive search
      in the title or the description. */
  predicate Matches(w: Where, r: Report) {
    && (w.category.Some? ==> r.category == w.category.value)
    && (w.status.Some? ==> r.status == w.status.value)
    && (w.search.Some? ==> MatchesSearch(r.title, r.description, w.search.value))
  }

  /** `orderBy`: upvotes when `sortBy` is `'upvotes'`, creation time otherwise. */
  function OrderKey(sortBy: string): Report -> int {
    if sortBy == "upvotes" then (r: Report) => r.upvotes else (r: Report) => r.createdAt
  }

  /** A report as the list and detail replies show it. */
  datatype ReportView = ReportView(report: Report, hasUpvoted: bool)

  /** `req.userId ? upvoteUsers.length > 0 : false`. */
  predicate HasUpvoted(upvotes: set<(Id, Id)>, caller: Option<Id>, reportId: Id) {
    caller.Some? && (reportId, caller.value) in upvotes
  }

  function WithUpvoteFlags(rows: seq<Report>, upvotes: set<(Id, Id)>, caller: Option<Id>): (v: seq<ReportView>)
    ensures |v| == |rows|
    ensures forall i | 0 <= i < |rows| :: v[i].report == rows[i]
    ensures forall i | 0 <= i < |rows| :: v[i].hasUpvoted == HasUpvoted(upvotes, caller, rows[i].id)
  {
    seq(|rows|, i requires 0 <= i < |rows| => ReportView(rows[i], HasUpvoted(upvotes, caller, rows[i].id)))
  }

  function ReportsOf(views: seq<ReportView>): (rows: seq<Report>)
    ensures |rows| == |views|
    ensures forall i | 0 <= i < |views| :: rows[i] == views[i].report
  {
    seq(|views|, i requires 0 <= i < |views| => views[i].report)
  }

  /** The list handler's reply. */
  function ListReports(t: Tables, q: ReportQuery, caller: Option<Id>): Response<seq<ReportView>> {
    match BuildWhere(q)
    case None => Err(500, "Failed to fetch reports")
    case Some(w) =>
      var rows := SortDesc(Filter(t.reports, (r: Report) => Matches(w, r)), OrderKey(q.sortBy));
      Ok(200, WithUpvoteFlags(rows, t.upvotes, caller))
  }

  /** The listing holds exactly the matching rows, each once, in the requested
      order, each flagged with whether the caller upvoted it. */
  lemma ListReportsCorrect(t: Tables, q: ReportQuery, caller: Option<Id>)
    ensures ListReports(t, q, caller).Err? <==> BuildWhere(q).None?
    ensures ListReports(t, q, caller).Err? ==> ListReports(t, q, caller) == Err(500, "Failed to fetch reports")
    ensures ListReports(t, q, caller).Ok? ==>
      var w := BuildWhere(q).value;
      var views := ListReports(t, q, caller).body;
      && multiset(ReportsOf(views)) == multiset(Filter(t.reports, (r: Report) => Matches(w, r)))
      && (forall i | 0 <= i < |views| :: views[i].report in t.reports && Matches(w, views[i].report))
      && (forall i | 0 <= i < |t.reports| && Matches(w, t.reports[i]) :: t.reports[i] in ReportsOf(views))
      && SortedDesc(ReportsOf(views), OrderKey(q.sortBy))
      && (forall i | 0 <= i < |views| :: views[i].hasUpvoted <==> caller.Some? && (views[i].report.id, caller.value) in t.upvotes)
  {
    if BuildWhere(q).Some? {
      var w := BuildWhere(q).value;
      var sorted := SortDesc(Filter(t.reports, (r: Report) => Matches(w, r)), OrderKey(q.sortBy));
      MatchingRowsSorted(t.reports, w, OrderKey(q.sortBy));
      var views := WithUpvoteFlags(sorted, t.upvotes, caller);
      assert ReportsOf(views) == sorted;
    }
  }

  /** The matching rows, sorted: each comes from the table and matches, and every
      matching row of the table is among them. */
  lemma MatchingRowsSorted(rows: seq<Report>, w: Where, key: Report -> int)
    ensures var filtered := Filter(rows, (r: Report) => Matches(w, r));
            var sorted := SortDesc(filtered, key);
            && multiset(sorted) == multiset(filtered)
            && SortedDesc(sorted, key)
            && (forall i | 0 <= i < |sorted| :: sorted[i] in rows && Matches(w, sorted[i]))
            && (forall i | 0 <= i < |rows| && Matches(w, rows[i]) :: rows[i] in sorted)
  {
    var p := (r: Report) => Matches(w, r);
    var filtered := Filter(rows, p);
    var sorted := SortDesc(filtered, key);
    SortDescCorrect(filtered, key);
    forall i | 0 <= i < |sorted| ensures sorted[i] in rows && Matches(w, sorted[i]) {
      assert sorted[i] in multiset(filtered);
      var k :| 0 <= k < |filtered| && filtered[k] == sorted[i];
    }
    forall i | 0 <= i < |rows| && Matches(w, rows[i]) ensures rows[i] in sorted {
      assert p(rows[i]);
      assert rows[i] in multiset(filtered);
    }
  }

  /** The detail handler's reply. */
  function GetReport(t: Tables, id: Id, caller: Option<Id>): (r: Response<ReportView>)
    ensures r.Err? <==> !HasReport(t.reports, id)
    ensures r.Err? ==> r == Err(404, "Report not found")
    ensures r.Ok? ==> r.status == 200 && r.body.report in t.reports && r.body.report.id == id
    ensures r.Ok? ==> r.body.hasUpvoted == HasUpvoted(t.upvotes, caller, id)
  {
    match FindReport(t.reports, id)
    case None => Err(404, "Report not found")
    case Some(i) => Ok(200, ReportView(t.reports[i], HasUpvoted(t.upvotes, caller, id)))
  }

  // ---------------------------------------------------------------------------
  // POST /:id/upvote

  /** `report.update({ where: { id }, data: { upvotes: { increment: delta } } })`. */
  function AdjustUpvotes(rows: seq<Report>, id: Id, delta: int): (r: seq<Report>)
    ensures |r| == |rows|
    ensures forall i | 0 <= i < |rows| :: r[i] == if rows[i].id == id then rows[i].(upvotes := rows[i].upvotes + delta) else rows[i]
  {
    seq(|rows|, i requires 0 <= i < |rows| =>
      if rows[i].id == id then rows[i].(upvotes := rows[i].upvotes + delta) else rows[i])
  }

  lemma AdjustUpvotesCancel(rows: seq<Report>, id: Id, delta: int)
    ensures AdjustUpvotes(AdjustUpvotes(rows, id, delta), id, -delta) == rows
  {
    var once := AdjustUpvotes(rows, id, delta);
    var twice := AdjustUpvotes(once, id, -delta);
    forall i | 0 <= i < |rows| ensures twice[i] == rows[i] {
      if rows[i].id == id {
        assert once[i].id == id;
      }
    }
  }

  /** The upvote handler: remove the caller's pair and decrement the counter when
      the pair exists, otherwise add it and increment. The two writes are separate
      statements; if the second one fails the first is not undone. */
  function ToggleUpvoteSpec(t: Tables, reportId: Id, userId: Id): (o: Outcome<bool>)
    ensures o.reply.Ok? ==> o.reply.status == 200 && o.reply.body == ((reportId, userId) !in t.upvotes)
    ensures o.reply.Ok? ==> ((reportId, userId) in o.after.upvotes <==> o.reply.body)
    ensures o.reply.Ok? ==> (o.after.upvotes ==
      if (reportId, userId) in t.upvotes then t.upvotes - {(reportId, userId)} else t.upvotes + {(reportId, userId)})
    ensures o.reply.Ok? ==> o.after.reports == AdjustUpvotes(t.reports, reportId, if o.reply.body then 1 else -1)
    ensures o.reply.Err? ==> o.reply == Err(500, "Failed to upvote") && o.after.reports == t.reports
    ensures o.after.users == t.users && o.after.comments == t.comments && o.after.nextId == t.nextId
    ensures Inv(t) ==> (o.reply.Ok? <==>
      (reportId, userId) in t.upvotes || (HasReport(t.reports, reportId) && HasUser(t.users, userId)))
    ensures Inv(t) && o.reply.Err? ==> o.after == t
  {
    var pair := (reportId, userId);
    if pair in t.upvotes then
      var removed := t.(upvotes := t.upvotes - {pair});
      if HasReport(t.reports, reportId) then
        Outcome(removed.(reports := AdjustUpvotes(t.reports, reportId, -1)), Ok(200, false))
      else
        Outcome(removed, Err(500, "Failed to upvote"))
    else if !HasReport(t.reports, reportId) || !HasUser(t.users, userId) then
      Outcome(t, Err(500, "Failed to upvote"))
    else
      Outcome(t.(upvotes := t.upvotes + {pair}, reports := AdjustUpvotes(t.reports, reportId, 1)), Ok(200, true))
  }

  /** Replacing the report rows by rows that differ only in their counters, and the
      upvote pairs by pairs that still name existing rows, keeps the invariant as
      long as every counter matches the new pairs. */
  lemma CountersOnlyKeepInv(t: Tables, rows: seq<Report>, upvotes: set<(Id, Id)>)
    requires Inv(t)
    requires |rows| == |t.reports|
    requires forall i | 0 <= i < |rows| :: rows[i] == t.reports[i].(upvotes := rows[i].upvotes)
    requires forall p | p in upvotes :: HasReport(t.reports, p.0) && HasUser(t.users, p.1)
    requires forall i | 0 <= i < |rows| :: rows[i].upvotes == |Voters(upvotes, rows[i].id)|
    ensures Inv(t.(reports := rows, upvotes := upvotes))
  {
    var t' := t.(reports := rows, upvotes := upvotes);
    forall id | HasReport(t.reports, id) ensures HasReport(rows, id) {
      var k :| 0 <= k < |t.reports| && t.reports[k].id == id;
      assert rows[k].id == id;
    }
    forall i | 0 <= i < |rows| ensures OwnerValid(t.users, rows[i]) {
      assert OwnerValid(t.users, t.reports[i]);
    }
  }

  /** Withdrawing an existing upvote keeps the invariant. */
  lemma WithdrawUpvoteKeepsInv(t: Tables, reportId: Id, userId: Id)
    requires Inv(t) && (reportId, userId) in t.upvotes
    ensures Inv(t.(reports := AdjustUpvotes(t.reports, reportId, -1), upvotes := t.upvotes - {(reportId, userId)}))
  {
    var rows := AdjustUpvotes(t.reports, reportId, -1);
    var upvotes := t.upvotes - {(reportId, userId)};
    forall i | 0 <= i < |rows| ensures rows[i].upvotes == |Voters(upvotes, rows[i].id)| {
      var rid := t.reports[i].id;
      VotersAfterRemove(t.upvotes, reportId, userId, rid);
      if rid == reportId {
        assert userId in Voters(t.upvotes, rid) by { assert (reportId, userId) in t.upvotes; }
      }
    }
    CountersOnlyKeepInv(t, rows, upvotes);
  }

  /** Casting a new upvote on an existing report by an existing user keeps the
      invariant. */
  lemma CastUpvoteKeepsInv(t: Tables, reportId: Id, userId: Id)
    requires Inv(t) && (reportId, userId) !in t.upvotes
    requires HasReport(t.reports, reportId) && HasUser(t.users, userId)
    ensures Inv(t.(reports := AdjustUpvotes(t.reports, reportId, 1), upvotes := t.upvotes + {(reportId, userId)}))
  {
    var rows := AdjustUpvotes(t.reports, reportId, 1);
    var upvotes := t.upvotes + {(reportId, userId)};
    forall i | 0 <= i < |rows| ensures rows[i].upvotes == |Voters(upvotes, rows[i].id)| {
      var rid := t.reports[i].id;
      VotersAfterAdd(t.upvotes, reportId, userId, rid);
      if rid == reportId {
        assert userId !in Voters(t.upvotes, rid);
      }
    }
    CountersOnlyKeepInv(t, rows, upvotes);
  }

  /** A toggle keeps the store's invariant: in particular the toggled report's
      counter still equals its number of upvote pairs, and there is still at most
      one pair per report and user. */
  lemma ToggleUpvoteKeepsInv(t: Tables, reportId: Id, userId: Id)
    requires Inv(t)
    ensures Inv(ToggleUpvoteSpec(t, reportId, userId).after)
  {
    var pair := (reportId, userId);
    if pair in t.upvotes {
      assert HasReport(t.reports, reportId);
      WithdrawUpvoteKeepsInv(t, reportId, userId);
    } else if HasReport(t.reports, reportId) && HasUser(t.users, userId) {
      CastUpvoteKeepsInv(t, reportId, userId);
    }
  }

  /** Two toggles by the same user on the same report restore the upvote pairs and
      every counter, and the second reply undoes the first. */
  lemma ToggleUpvoteTwiceRestores(t: Tables, reportId: Id, userId: Id)
    requires Inv(t)
    ensures var first := ToggleUpvoteSpec(t, reportId, userId);
            var second := ToggleUpvoteSpec(first.after, reportId, userId);
            && second.after == t
            && (first.reply.Ok? ==> second.reply.Ok? && second.reply.body == !first.reply.body)
  {
    var first := ToggleUpvoteSpec(t, reportId, userId);
    ToggleUpvoteKeepsInv(t, reportId, userId);
    var t1 := first.after;
    var pair := (reportId, userId);
    if first.reply.Ok? {
      if pair in t.upvotes {
        assert t1.upvotes + {pair} == t.upvotes;
        AdjustUpvotesCancel(t.reports, reportId, -1);
      } else {
        assert t1.upvotes - {pair} == t.upvotes;
        AdjustUpvotesCancel(t.reports, reportId, 1);
      }
    }
  }

  /** With unique ids, changing the counter of the row found for `id` is the
      update by id. */
  lemma UpdateAtIsAdjust(t: Tables, i: nat, delta: int)
    requires Inv(t) && i < |t.reports|
    ensures t.reports[i := t.reports[i].(upvotes := t.reports[i].upvotes + delta)] == AdjustUpvotes(t.reports, t.reports[i].id, delta)
  {
  }

  /** The toggle's outcome when the row found for the report is `i`: the pair
      flips and that row's counter moves by one. */
  lemma ToggleAtRow(t: Tables, reportId: Id, userId: Id, i: nat)
    requires Inv(t) && FindReport(t.reports, reportId) == Some(i)
    requires (reportId, userId) in t.upvotes || HasUser(t.users, userId)
    ensures (reportId, userId) in t.upvotes ==>
      ToggleUpvoteSpec(t, reportId, userId)
        == Outcome(t.(upvotes := t.upvotes - {(reportId, userId)},
                      reports := t.reports[i := t.reports[i].(upvotes := t.reports[i].upvotes - 1)]),
                   Ok(200, false))
    ensures (reportId, userId) !in t.upvotes ==>
      ToggleUpvoteSpec(t, reportId, userId)
        == Outcome(t.(upvotes := t.upvotes + {(reportId, userId)},
                      reports := t.reports[i := t.reports[i].(upvotes := t.reports[i].upvotes + 1)]),
                   Ok(200, true))
  {
    var pair := (reportId, userId);
    UpdateAtIsAdjust(t, i, if pair in t.upvotes then -1 else 1);
  }

  method ToggleUpvote(db: Database, reportId: Id, userId: Id) returns (res: Response<bool>)
    requires db.Valid()
    modifies db
    ensures db.Valid()
    ensures Outcome(db.Snapshot(), res) == ToggleUpvoteSpec(old(db.Snapshot()), reportId, userId)
  {
    ghost var before := db.Snapshot();
    ToggleUpvoteKeepsInv(before, reportId, userId);
    var pair := (reportId, userId);
    var row := FindReport(db.reports, reportId);
    if pair in db.upvotes {
      // A pair always names an existing report, so the counter's row is found.
      assert row.Some?;
      var i := row.value;
      ToggleAtRow(before, reportId, userId, i);
      db.upvotes := db.upvotes - {pair};
      db.reports := db.reports[i := db.reports[i].(upvotes := db.reports[i].upvotes - 1)];
      res := Ok(200, false);
      assert db.Snapshot() == ToggleUpvoteSpec(before, reportId, userId).after;
    } else {
      if row.None? || FindUser(db.users, userId).None? {
        return Err(500, "Failed to upvote");
      }
      var i := row.value;
      ToggleAtRow(before, reportId, userId, i);
      db.upvotes := db.upvotes + {pair};
      db.reports := db.reports[i := db.reports[i].(upvotes := db.reports[i].upvotes + 1)];
      res := Ok(200, true);
      assert db.Snapshot() == ToggleUpvoteSpec(before, reportId, userId).after;
    }
  }

  // ---------------------------------------------------------------------------
  // POST /:id/comment

  /** Only the empty text is refused; text of blanks is accepted. */
  function AddCommentSpec(t: Tables, reportId: Id, userId: Id, text: string, now: int): (o: Outcome<Comment>)
    ensures text == "" ==> o == Outcome(t, Err(400, "Comment text required"))
    ensures o.reply.Ok? <==> text != "" && HasReport(t.reports, reportId) && HasUser(t.users, userId)
    ensures o.reply.Err? ==> o.after == t
    ensures o.reply.Ok? ==>
      && o.reply.status == 201
      && o.reply.body == Comment(t.nextId, text, now, reportId, userId)
      && o.after == t.(comments := t.comments + [o.reply.body], nextId := t.nextId + 1)
  {
    if text == "" then Outcome(t, Err(400, "Comment text required"))
    else if !HasReport(t.reports, reportId) || !HasUser(t.users, userId) then
      Outcome(t, Err(500, "Failed to add comment"))
    else
      var comment := Comment(t.nextId, text, now, reportId, userId);
      Outcome(t.(comments := t.comments + [comment], nextId := t.nextId + 1), Ok(201, comment))
  }

  lemma AddCommentKeepsInv(t: Tables, reportId: Id, userId: Id, text: string, now: int)
    requires Inv(t)
    ensures Inv(AddCommentSpec(t, reportId, userId, text, now).after)
  {
  }

  method AddComment(db: Database, reportId: Id, userId: Id, text: string, now: int) returns (res: Response<Comment>)
    requires db.Valid()
    modifies db
    ensures db.Valid()
    ensures Outcome(db.Snapshot(), res) == AddCommentSpec(old(db.Snapshot()), reportId, userId, text, now)
  {
    AddCommentKeepsInv(db.Snapshot(), reportId, userId, text, now);
    if text == "" {
      return Err(400, "Comment text required");
    }
    if FindReport(db.reports, reportId).None? || FindUser(db.users, userId).None? {
      return Err(500, "Failed to add comment");
    }
    var comment := Comment(db.nextId, text, now, reportId, userId);
    db.comments := db.comments + [comment];
    db.nextId := db.nextId + 1;
    res := Ok(201, comment);
  }

  // ---------------------------------------------------------------------------
  // PUT /:id/status

  /** `report.update({ where: { id }, data: { status } })`. */
  function WithStatus(rows: seq<Report>, id: Id, status: Status): (r: seq<Report>)
    ensures |r| == |rows|
    ensures forall i | 0 <= i < |rows| :: r[i] == if rows[i].id == id then rows[i].(status := status) else rows[i]
  {
    seq(|rows|, i requires 0 <= i < |rows| => if rows[i].id == id then rows[i].(status := status) else rows[i])
  }

  /** The status handler: only a member of Status is accepted, only the status of
      the named report changes, and an unknown report is a 500 with no change. */
  function UpdateStatusSpec(t: Tables, reportId: Id, status: string): (o: Outcome<Report>)
    ensures ParseStatus(status).None? ==> o == Outcome(t, Err(400, "Invalid status"))
    ensures o.reply.Ok? <==> ParseStatus(status).Some? && HasReport(t.reports, reportId)
    ensures o.reply.Err? ==> o.after == t
    ensures o.reply.Err? && ParseStatus(status).Some? ==> o.reply == Err(500, "Failed to update status")
    ensures o.reply.Ok? ==>
      && o.reply.status == 200
      && o.after == t.(reports := WithStatus(t.reports, reportId, ParseStatus(status).value))
      && o.reply.body.id == reportId
      && StatusName(o.reply.body.status) == status
      && o.reply.body == o.after.reports[FindReport(t.reports, reportId).value]
  {
    match ParseStatus(status)
    case None => Outcome(t, Err(400, "Invalid status"))
    case Some(s) =>
      match FindReport(t.reports, reportId)
      case None => Outcome(t, Err(500, "Failed to update status"))
      case Some(i) =>
        Outcome(t.(reports := WithStatus(t.reports, reportId, s)), Ok(200, t.reports[i].(status := s)))
  }

  lemma UpdateStatusKeepsInv(t: Tables, reportId: Id, status: string)
    requires Inv(t)
    ensures Inv(UpdateStatusSpec(t, reportId, status).after)
  {
    var o := UpdateStatusSpec(t, reportId, status);
    if o.reply.Ok? {
      var t' := o.after;
      forall id | HasReport(t.reports, id) ensures HasReport(t'.reports, id) {
        var k :| 0 <= k < |t.reports| && t.reports[k].id == id;
        assert t'.reports[k].id == id;
      }
      forall i | 0 <= i < |t'.reports| ensures OwnerValid(t'.users, t'.reports[i]) {
        assert OwnerValid(t.users, t.reports[i]);
      }
    }
  }

  method UpdateStatus(db: Database, reportId: Id, status: string) returns (res: Response<Report>)
    requires db.Valid()
    modifies db
    ensures db.Valid()
    ensures Outcome(db.Snapshot(), res) == UpdateStatusSpec(old(db.Snapshot()), reportId, status)
  {
    UpdateStatusKeepsInv(db.Snapshot(), reportId, status);
    ghost var before := db.Snapshot();
    var parsed := ParseStatus(status);
    if parsed.None? {
      return Err(400, "Invalid status");
    }
    var row := FindReport(db.reports, reportId);
    if row.None? {
      return Err(500, "Failed to update status");
    }
    var i := row.value;
    var updated := db.reports[i].(status := parsed.value);
    db.reports := db.reports[i := updated];
    assert db.reports == WithStatus(before.reports, reportId, parsed.value);
    res := Ok(200, updated);
  }

  /** The status route as mounted: `authenticate`, then `requireAdmin`, then the
      handler. */
  function StatusRoute(t: Tables, authorization: Option<string>, keyring: map<string, Claims>, reportId: Id, status: string): (o: Outcome<Report>)
    ensures o.reply.Ok? ==> AuthenticateAdmin(authorization, keyring, t.users).Pass?
    ensures AuthenticateAdmin(authorization, keyring, t.users).Reject? ==> o.after == t && o.reply.Err?
    ensures AuthenticateAdmin(authorization, keyring, t.users).Pass? ==> o == UpdateStatusSpec(t, reportId, status)
  {
    match AuthenticateAdmin(authorization, keyring, t.users)
    case Reject(code, message) => Outcome(t, Err(code, message))
    case Pass(_, _) => UpdateStatusSpec(t, reportId, status)
  }

  /** A citizen's token never changes a status, whatever the request. */
  lemma CitizenCannotChangeStatus(t: Tables, authorization: Option<string>, keyring: map<string, Claims>, reportId: Id, status: string)
    requires BearerToken(authorization) in keyring && keyring[BearerToken(authorization)].role == Citizen
    ensures StatusRoute(t, authorization, keyring, reportId, status).after == t
    ensures StatusRoute(t, authorization, keyring, reportId, status).reply.Err?
  {
  }
}
