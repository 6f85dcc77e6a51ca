/**
 * The time-entry page (frontend/src/components/views/TimeEntryManagement.js):
 * the filter record it owns, the query it sends for it, the loaded lists
 * and the create/edit form it opens and closes.
 */
module TimeEntryManagement {
  import opened Wrappers
  import opened Table
  import opened Text
  import opened Http
  import opened TimeEntryModel
  import opened ProjectModel
  import opened TimeEntryRoutes
  import opened TimeEntryTable

  /** The parameter names GET /api/entries reads. */
  const ProjectIdParam: string := "project_id"
  const StartDateParam: string := "start_date"
  const EndDateParam: string := "end_date"
  const IsBillableParam: string := "is_billable"

  /**
   * The params object of `fetchData`: each filter that is set, under its
   * parameter name, and no other key.
   */
  function QueryParams(f: Filters): (p: map<string, string>)
    ensures ProjectIdParam in p <==> f.projectId != ""
    ensures StartDateParam in p <==> f.startDate != ""
    ensures EndDateParam in p <==> f.endDate != ""
    ensures IsBillableParam in p <==> f.isBillable != ""
    ensures ProjectIdParam in p ==> p[ProjectIdParam] == f.projectId
    ensures StartDateParam in p ==> p[StartDateParam] == f.startDate
    ensures EndDateParam in p ==> p[EndDateParam] == f.endDate
    ensures IsBillableParam in p ==> p[IsBillableParam] == f.isBillable
    ensures p.Keys <= {ProjectIdParam, StartDateParam, EndDateParam, IsBillableParam}
  {
    var p0: map<string, string> := map[];
    var p1 := if f.projectId != "" then p0[ProjectIdParam := f.projectId] else p0;
    var p2 := if f.startDate != "" then p1[StartDateParam := f.startDate] else p1;
    var p3 := if f.endDate != "" then p2[EndDateParam := f.endDate] else p2;
    if f.isBillable != "" then p3[IsBillableParam := f.isBillable] else p3
  }

  /** The initial and the cleared filters send no parameter at all. */
  lemma NoFiltersSendNoParams(f: Filters)
    ensures QueryParams(NoFilters) == map[]
    ensures QueryParams(ClearFilters(f)) == map[]
  {
    assert QueryParams(NoFilters).Keys == {};
  }

  /** Without parameters the listing answers with every entry of the user and nothing else. */
  lemma NoFiltersListEverything(entries: map<int, TimeEntry>, userId: int, parse: Parser, f: Filters)
    ensures var r := GetTimeEntries(entries, userId, ArgsToQuery(QueryParams(ClearFilters(f))), parse);
      && r.Success?
      && forall x :: x in r.body <==> x.id in entries && x.value == entries[x.id] && x.value.userId == userId
  {
    NoFiltersSendNoParams(f);
  }

  /** The billable select lists only billable entries for "Billable" and only others for "Non-Billable". */
  lemma BillableSelectFilters(entries: map<int, TimeEntry>, userId: int, parse: Parser, f: Filters)
    requires f.isBillable == "true" || f.isBillable == "false"
    ensures var r := GetTimeEntries(entries, userId, ArgsToQuery(QueryParams(f)), parse);
      r.Success? ==> forall x :: x in r.body ==> x.value.isBillable == (f.isBillable == "true")
  {
    TrueFlagSpelling("true");
    TrueFlagSpelling("false");
  }

  /**
   * With the billable select at "All", the footer under the listing agrees
   * with the summary route for the same parameters: the same number of
   * entries and the same seconds.
   */
  lemma FooterMatchesSummary(entries: map<int, TimeEntry>, userId: int, parse: Parser, f: Filters)
    requires f.isBillable == ""
    ensures var q := ArgsToQuery(QueryParams(f));
      var listing := GetTimeEntries(entries, userId, q, parse);
      var summary := GetSummary(entries, userId, SummaryQuery(q.projectId, q.startDate, q.endDate), parse);
      && (listing.Success? <==> summary.Success?)
      && (listing.Success? ==>
            FooterOf(listing.body) == Footer(summary.body.totalEntries, summary.body.totalSeconds))
  {
    var q := ArgsToQuery(QueryParams(f));
    assert AsEntryQuery(SummaryQuery(q.projectId, q.startDate, q.endDate)) == q;
    var rows := Matching(entries, userId, q, parse);
    MatchingContent(entries, userId, q, parse);
    TotalSecondsSort(rows, StartTime);
  }

  /** Which form the modal shows. */
  datatype FormMode = Closed | Creating | Editing(entry: Row<TimeEntry>)

  /** The page's state, which its handlers update in place. */
  class ManagementView {
    var filters: Filters
    var entries: seq<Row<TimeEntry>>
    var projects: seq<ProjectView>
    var loading: bool
    var showForm: bool
    var editingEntry: Option<Row<TimeEntry>>

    /** A closed form edits nothing. */
    ghost predicate Valid()
      reads this
    {
      !showForm ==> editingEntry.None?
    }

    /** The modal as the page renders it. */
    function Mode(): (m: FormMode)
      reads this
      ensures m.Closed? <==> !showForm
      ensures m.Editing? <==> showForm && editingEntry.Some?
      ensures m.Editing? ==> m.entry == editingEntry.value
      ensures Valid() ==> (m.Editing? <==> editingEntry.Some?)
    {
      if !showForm then Closed
      else match editingEntry
        case None => Creating
        case Some(e) => Editing(e)
    }

    /** The first render: no filters, nothing loaded yet, the form closed. */
    constructor ()
      ensures Valid() && Mode() == Closed
      ensures filters == NoFilters && entries == [] && projects == [] && loading
    {
      filters := NoFilters;
      entries := [];
      projects := [];
      loading := true;
      showForm := false;
      editingEntry := None;
    }

    /** `onFilterChange={setFilters}`: the table hands back the new filter record. */
    method SetFilters(f: Filters)
      requires Valid()
      modifies this
      ensures Valid()
      ensures filters == f
      ensures entries == old(entries) && projects == old(projects) && loading == old(loading)
      ensures showForm == old(showForm) && editingEntry == old(editingEntry)
    {
      filters := f;
    }

    /**
     * `fetchData`: builds the params from the filters key by key, sends both
     * requests, keeps both lists only when both succeed, and stops loading
     * either way. The params it sent are returned.
     */
    method FetchData(entriesReply: Reply<seq<Row<TimeEntry>>>, projectsReply: Reply<seq<ProjectView>>)
      returns (params: map<string, string>)
      requires Valid()
      modifies this
      ensures Valid()
      ensures params == QueryParams(filters)
      ensures !loading
      ensures entriesReply.Ok? && projectsReply.Ok? ==> entries == entriesReply.data && projects == projectsReply.data
      ensures !(entriesReply.Ok? && projectsReply.Ok?) ==> entries == old(entries) && projects == old(projects)
      ensures filters == old(filters) && showForm == old(showForm) && editingEntry == old(editingEntry)
    {
      loading := true;
      params := map[];
      if filters.projectId != "" {
        params := params[ProjectIdParam := filters.projectId];
      }
      if filters.startDate != "" {
        params := params[StartDateParam := filters.startDate];
      }
      if filters.endDate != "" {
        params := params[EndDateParam := filters.endDate];
      }
      if filters.isBillable != "" {
        params := params[IsBillableParam := filters.isBillable];
      }
      if entriesReply.Ok? && projectsReply.Ok? {
        entries := entriesReply.data;
        projects := projectsReply.data;
      }
      loading := false;
    }

    /** `handleCreateEntry`: opens an empty form. */
    method HandleCreateEntry()
      requires Valid()
      modifies this
      ensures Valid() && Mode() == Creating
      ensures filters == old(filters) && entries == old(entries) && projects == old(projects) && loading == old(loading)
    {
      editingEntry := None;
      showForm := true;
    }

    /** `handleEditEntry(entry)`: opens the form on that entry. */
    method HandleEditEntry(entry: Row<TimeEntry>)
      requires Valid()
      modifies this
      ensures Valid() && Mode() == Editing(entry)
      ensures filters == old(filters) && entries == old(entries) && projects == old(projects) && loading == old(loading)
    {
      editingEntry := Some(entry);
      showForm := true;
    }

    /** `handleFormCancel`: closes the form and forgets the entry. */
    method HandleFormCancel()
      requires Valid()
      modifies this
      ensures Valid() && Mode() == Closed && editingEntry.None?
      ensures filters == old(filters) && entries == old(entries) && projects == old(projects) && loading == old(loading)
    {
      showForm := false;
      editingEntry := None;
    }

    /** `handleFormSubmit`: closes the form as a cancel does, then reloads with the same filters. */
    method HandleFormSubmit(entriesReply: Reply<seq<Row<TimeEntry>>>, projectsReply: Reply<seq<ProjectView>>)
      returns (params: map<string, string>)
      requires Valid()
      modifies this
      ensures Valid() && Mode() == Closed && editingEntry.None?
      ensures filters == old(filters) && params == QueryParams(filters) && !loading
      ensures entriesReply.Ok? && projectsReply.Ok? ==> entries == entriesReply.data && projects == projectsReply.data
      ensures !(entriesReply.Ok? && projectsReply.Ok?) ==> entries == old(entries) && projects == old(projects)
    {
      showForm := false;
      editingEntry := None;
      params := FetchData(entriesReply, projectsReply);
    }
  }
}
