/** The public feed: the filters sent to the server and the text filter applied
    again on the client to the loaded reports. */
module FeedPage {
  import opened Common
  import opened Types
  import opened Text
  import opened ReportRoutes

  /** `loadReports`' filters: `sortBy` always, a category or status only when one is
      chosen (`None` is 'all'), and the search only when non-empty. */
  function BuildFeedFilters(category: Option<Category>, status: Option<Status>, search: string, sortBy: SortBy): (f: ReportFilters)
    ensures f.sortBy == Some(sortBy)
    ensures f.category == category && f.status == status
    ensures f.search.Some? <==> search != ""
    ensures f.search.Some? ==> f.search.value == search
  {
    ReportFilters(category, status, if search != "" then Some(search) else None, Some(sortBy))
  }

  /** The query string the API client makes of a filter object; an absent
      parameter reads as the empty string on the server. */
  function ToQuery(f: ReportFilters): ReportQuery {
    ReportQuery(
      match f.category case Some(c) => CategoryName(c) case None => "",
      match f.status case Some(s) => StatusName(s) case None => "",
      match f.search case Some(q) => q case None => "",
      match f.sortBy case Some(s) => SortByName(s) case None => "")
  }

  /** The server accepts every query the feed builds, with the same category, status
      and search, and orders by upvotes exactly when the feed asks for it. */
  lemma FeedQueryIsAccepted(category: Option<Category>, status: Option<Status>, search: string, sortBy: SortBy)
    ensures var q := ToQuery(BuildFeedFilters(category, status, search, sortBy));
            && BuildWhere(q) == Some(Where(category, status, if search == "" then None else Some(search)))
            && (q.sortBy == "upvotes" <==> sortBy == Upvotes)
  {
    var q := ToQuery(BuildFeedFilters(category, status, search, sortBy));
    WireNamesAreNonEmpty(Citizen, if category.Some? then category.value else Roads, if status.Some? then status.value else New);
    var w := BuildWhere(q);
    assert w.Some?;
    assert w.value.category == category by {
      if category.Some? {
        assert ParseCategory(q.category) == Some(category.value);
      }
    }
    assert w.value.status == status by {
      if status.Some? {
        assert ParseStatus(q.status) == Some(status.value);
      }
    }
  }

  /** The client-side filter: title or description contains the search text,
      ignoring case. */
  function FilteredReports(reports: seq<Report>, search: string): (r: seq<Report>)
    ensures |r| <= |reports|
    ensures forall i | 0 <= i < |r| :: r[i] in reports && MatchesSearch(r[i].title, r[i].description, search)
    ensures forall i | 0 <= i < |reports| && MatchesSearch(reports[i].title, reports[i].description, search) :: reports[i] in r
    ensures forall x :: multiset(r)[x] == if MatchesSearch(x.title, x.description, search) then multiset(reports)[x] else 0
  {
    Filter(reports, (x: Report) => MatchesSearch(x.title, x.description, search))
  }

  /** The filter keeps the loaded order, keeps everything for an empty search, and
      filtering its own output changes nothing. */
  lemma FilteredReportsProperties(reports: seq<Report>, search: string)
    ensures IsSubsequence(FilteredReports(reports, search), reports)
    ensures FilteredReports(FilteredReports(reports, search), search) == FilteredReports(reports, search)
    ensures search == "" ==> FilteredReports(reports, search) == reports
  {
    var p := (x: Report) => MatchesSearch(x.title, x.description, search);
    FilterIsSubsequence(reports, p);
    FilterIdempotent(reports, p);
    if search == "" {
      forall i | 0 <= i < |reports| ensures p(reports[i]) {
        EmptySearchMatchesEverything(reports[i].title, reports[i].description);
      }
      FilterKeepsAll(reports, p);
    }
  }

  class Feed {
    var reports: seq<Report>
    var loading: bool
    var category: Option<Category>
    var status: Option<Status>
    var search: string
    var sortBy: SortBy

    constructor ()
      ensures reports == [] && loading && category == None && status == None && search == "" && sortBy == Newest
    {
      reports, loading, category, status, search, sortBy := [], true, None, None, "", Newest;
    }

    /** What the page lists. */
    function Visible(): seq<Report>
      reads this
    {
      FilteredReports(reports, search)
    }

    /** `loadReports`: sends the filters and, when the list arrives, shows it; a
        failed load keeps the previous list. */
    method LoadReports(response: Option<seq<Report>>) returns (sent: ReportFilters)
      modifies this
      ensures sent == BuildFeedFilters(category, status, search, sortBy)
      ensures response.Some? ==> reports == response.value
      ensures response.None? ==> reports == old(reports)
      ensures !loading
      ensures category == old(category) && status == old(status) && search == old(search) && sortBy == old(sortBy)
    {
      loading := true;
      sent := ReportFilters(category, status, None, Some(sortBy));
      if search != "" {
        sent := sent.(search := Some(search));
      }
      if response.Some? {
        reports := response.value;
      }
      loading := false;
    }
  }
}
