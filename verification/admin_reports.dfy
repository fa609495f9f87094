/** The admin report list page: the loaded reports, the status filter, the
    archived switch and the multi-selection that bulk actions apply to. The
    selection only ever holds ids of loaded reports. */
module AdminReports {
  import opened Common
  import opened Types
  import ReportRoutes

  /** The ids of the loaded reports. */
  function LoadedIds(reports: seq<Report>): set<Id> {
    set i | 0 <= i < |reports| :: reports[i].id
  }

  predicate DistinctIds(reports: seq<Report>) {
    forall i, j | 0 <= i < j < |reports| :: reports[i].id != reports[j].id
  }

  /** With no id twice, there are as many ids as reports. */
  lemma {:induction false} LoadedIdsCount(reports: seq<Report>)
    requires DistinctIds(reports)
    ensures |LoadedIds(reports)| == |reports|
  {
    if reports != [] {
      var rest := reports[1..];
      LoadedIdsCount(rest);
      assert LoadedIds(reports) == LoadedIds(rest) + {reports[0].id} by {
        forall x | x in LoadedIds(reports) ensures x in LoadedIds(rest) + {reports[0].id} {
          var i :| 0 <= i < |reports| && reports[i].id == x;
          if i > 0 { assert rest[i - 1].id == x; }
        }
        forall x | x in LoadedIds(rest) ensures x in LoadedIds(reports) {
          var i :| 0 <= i < |rest| && rest[i].id == x;
          assert reports[i + 1].id == x;
        }
      }
      assert reports[0].id !in LoadedIds(rest) by {
        forall i | 0 <= i < |rest| ensures rest[i].id != reports[0].id {
          assert rest[i] == reports[i + 1];
        }
      }
    }
  }

  /** The new selection after clicking one report's checkbox. */
  function Toggle(selected: set<Id>, id: Id): (r: set<Id>)
    ensures id in r <==> id !in selected
    ensures forall other | other != id :: other in r <==> other in selected
  {
    if id in selected then selected - {id} else selected + {id}
  }

  lemma ToggleTwiceRestores(selected: set<Id>, id: Id)
    ensures Toggle(Toggle(selected, id), id) == selected
  {
  }

  /** The filters `loadReports` sends: a status only when one is chosen, and
      `includeArchived` only when archived reports are shown. */
  datatype AdminFilters = AdminFilters(status: Option<Status>, includeArchived: Option<string>)

  function BuildFilters(filter: Option<Status>, showArchived: bool): (f: AdminFilters)
    ensures f.status == filter
    ensures f.includeArchived.Some? <==> showArchived
    ensures f.includeArchived.Some? ==> f.includeArchived.value == "true"
  {
    AdminFilters(filter, if showArchived then Some("true") else None)
  }

  /** The query string `api.getReports` makes of the admin filters. The API client
      appends only category, status, search and sortBy, so `includeArchived` never
      reaches the server. */
  function AdminQuery(f: AdminFilters): ReportRoutes.ReportQuery {
    ReportRoutes.ReportQuery("", match f.status case Some(st) => StatusName(st) case None => "", "", "")
  }

  /** Whatever the archived switch says, the server receives the same query, and it
      lists every category, filtered by the chosen status only, newest first. */
  lemma ArchivedSwitchNeverReachesServer(filter: Option<Status>, showArchived: bool)
    ensures AdminQuery(BuildFilters(filter, showArchived)) == AdminQuery(BuildFilters(filter, false))
    ensures ReportRoutes.BuildWhere(AdminQuery(BuildFilters(filter, showArchived)))
         == Some(ReportRoutes.Where(None, filter, None))
    ensures AdminQuery(BuildFilters(filter, showArchived)).sortBy != "upvotes"
  {
    var q := AdminQuery(BuildFilters(filter, showArchived));
    if filter.Some? {
      WireNamesAreNonEmpty(Citizen, Roads, filter.value);
      assert ParseStatus(q.status) == Some(filter.value);
    }
  }

  /** `Array.from(selectedReports)`: every selected id exactly once. */
  method SetToSeq(s: set<Id>) returns (xs: seq<Id>)
    ensures |xs| == |s|
    ensures forall i | 0 <= i < |xs| :: xs[i] in s
    ensures forall x | x in s :: x in xs
    ensures Distinct(xs)
  {
    xs := [];
    var rest := s;
    while rest != {}
      invariant rest <= s
      invariant forall i | 0 <= i < |xs| :: xs[i] in s && xs[i] !in rest
      invariant forall x | x in s :: x in xs || x in rest
      invariant Distinct(xs)
      invariant |xs| + |rest| == |s|
      decreases |rest|
    {
      var x :| x in rest;
      xs := xs + [x];
      rest := rest - {x};
    }
  }

  class AdminReportsPage {
    var reports: seq<Report>
    var loading: bool
    /** `None` is the 'all' choice. */
    var filter: Option<Status>
    var selected: set<Id>
    var showArchived: bool
    var bulkAction: Option<BulkAction>

    /** The selection holds only ids of loaded reports. */
    predicate Valid()
      reads this
    {
      selected <= LoadedIds(reports)
    }

    constructor ()
      ensures reports == [] && loading && filter == None && selected == {} && !showArchived && bulkAction == None
      ensures Valid()
    {
      reports, loading, filter, selected, showArchived, bulkAction := [], true, None, {}, false, None;
    }

    /** `loadReports`: sends the filters and, when the list arrives (`Some`),
        replaces the reports and clears the selection; a failed load keeps both. */
    method LoadReports(response: Option<seq<Report>>) returns (sent: AdminFilters)
      modifies this
      ensures sent == BuildFilters(filter, showArchived)
      ensures response.Some? ==> reports == response.value && selected == {}
      ensures response.None? ==> reports == old(reports) && selected == old(selected)
      ensures !loading
      ensures filter == old(filter) && showArchived == old(showArchived) && bulkAction == old(bulkAction)
      ensures old(Valid()) ==> Valid()
    {
      loading := true;
      sent := BuildFilters(filter, showArchived);
      if response.Some? {
        reports := response.value;
        selected := {};
      }
      loading := false;
    }

    /** `toggleReportSelection`; the page calls it only with the id of a listed report. */
    method ToggleReportSelection(id: Id)
      modifies this
      ensures selected == Toggle(old(selected), id)
      ensures reports == old(reports) && filter == old(filter) && showArchived == old(showArchived)
      ensures loading == old(loading) && bulkAction == old(bulkAction)
      ensures old(Valid()) && id in LoadedIds(reports) ==> Valid()
    {
      var newSelection := selected;
      if id in newSelection {
        newSelection := newSelection - {id};
      } else {
        newSelection := newSelection + {id};
      }
      selected := newSelection;
    }

    /** The select-all box is checked when as many ids are selected as there are
        reports, and there is at least one. */
    predicate SelectAllChecked()
      reads this
    {
      AllChecked(selected, reports)
    }

    /** `toggleSelectAll`: clears a selection as large as the list, otherwise selects
        every loaded report. */
    method ToggleSelectAll()
      modifies this
      ensures |old(selected)| == |reports| ==> selected == {}
      ensures |old(selected)| != |reports| ==> selected == LoadedIds(reports)
      ensures old(SelectAllChecked()) ==> selected == {}
      ensures DistinctIds(reports) && reports != [] && !old(SelectAllChecked()) ==> SelectAllChecked()
      ensures reports == old(reports) && filter == old(filter) && showArchived == old(showArchived)
      ensures loading == old(loading) && bulkAction == old(bulkAction)
      ensures Valid()
    {
      if |selected| == |reports| {
        selected := {};
      } else {
        selected := LoadedIds(reports);
        if DistinctIds(reports) {
          LoadedIdsCount(reports);
        }
      }
    }

    /** `handleBulkAction`: refuses an empty selection and sends nothing; otherwise
        sends every selected id with the action. `succeeded` is the server's answer;
        on success the action dialog closes. */
    method HandleBulkAction(action: BulkAction, succeeded: bool) returns (sent: Option<BulkReportActionRequest>)
      modifies this
      ensures selected == {} ==> sent == None && bulkAction == old(bulkAction)
      ensures selected != {} ==> sent.Some? && sent.value.action == action
      ensures sent.Some? ==> |sent.value.reportIds| == |selected| && Distinct(sent.value.reportIds)
      ensures sent.Some? ==> forall x | x in selected :: x in sent.value.reportIds
      ensures sent.Some? ==> forall i | 0 <= i < |sent.value.reportIds| :: sent.value.reportIds[i] in selected
      ensures sent.Some? && succeeded ==> bulkAction == None
      ensures sent.Some? && !succeeded ==> bulkAction == old(bulkAction)
      ensures reports == old(reports) && selected == old(selected) && filter == old(filter)
      ensures showArchived == old(showArchived) && loading == old(loading)
    {
      if selected == {} {
        return None;
      }
      var reportIds := SetToSeq(selected);
      sent := Some(BulkReportActionRequest(reportIds, action));
      if succeeded {
        bulkAction := None;
      }
    }
  }

  lemma ProperSubsetIsSmaller(a: set<Id>, b: set<Id>)
    requires a <= b && a != b
    ensures |a| < |b|
  {
    var x :| x in b && x !in a;
    assert b == a + (b - a);
    assert x in b - a;
  }

  /** The select-all checkbox: as many ids selected as there are reports, and at
      least one report. */
  predicate AllChecked(selected: set<Id>, reports: seq<Report>) {
    |selected| == |reports| && |reports| > 0
  }

  /** When the loaded ids are distinct and the selection is among them, the
      select-all box is checked exactly when every loaded report is selected. */
  lemma SelectAllCheckedMeansAllSelected(selected: set<Id>, reports: seq<Report>)
    requires DistinctIds(reports) && selected <= LoadedIds(reports)
    ensures AllChecked(selected, reports) <==> (selected == LoadedIds(reports) && reports != [])
  {
    LoadedIdsCount(reports);
    if |selected| == |reports| {
      assert selected == LoadedIds(reports) by {
        if selected != LoadedIds(reports) {
          ProperSubsetIsSmaller(selected, LoadedIds(reports));
        }
      }
    }
  }
}
