/**
 * The `/api/entries` routes (backend/app/routes/time_entries.py). Listing,
 * reading one entry and the summary are queries over the entries table;
 * create, update and delete change the shared tables in place.
 * `datetime.fromisoformat` is the abstract `parse`: seconds, or None where it
 * raises ValueError.
 */
module TimeEntryRoutes {
  import opened Wrappers
  import opened Table
  import opened Text
  import opened Http
  import opened TimeEntryModel
  import opened ProjectModel
  import opened Database

  /** An abstract `datetime.fromisoformat`. */
  type Parser = string -> Option<int>

  /**
   * The query string of GET /api/entries. `projectId` is what
   * `request.args.get('project_id', type=int)` yields: None when it is
   * missing or not an integer.
   */
  datatype EntryQuery = EntryQuery(
    projectId: Option<int>,
    startDate: Option<string>,
    endDate: Option<string>,
    isBillable: Option<string>)

  /**
   * Flask's reading of the query string: `project_id` through
   * `type=int`, which yields None for text that is not an integer, and the
   * other three as the strings sent.
   */
  function ArgsToQuery(args: map<string, string>): (q: EntryQuery)
    ensures "project_id" !in args ==> q.projectId.None?
    ensures "project_id" in args ==> q.projectId == ParseInt(args["project_id"])
    ensures q.startDate == Lookup(args, "start_date")
    ensures q.endDate == Lookup(args, "end_date")
    ensures q.isBillable == Lookup(args, "is_billable")
  {
    EntryQuery(
      if "project_id" in args then ParseInt(args["project_id"]) else None,
      Lookup(args, "start_date"),
      Lookup(args, "end_date"),
      Lookup(args, "is_billable"))
  }

  /** A given date parameter that `fromisoformat` rejects. */
  predicate BadDate(d: Option<string>, parse: Parser) {
    Given(d) && parse(d.value).None?
  }

  /** The listing answers 400 exactly when a given date does not parse. */
  predicate BadQuery(q: EntryQuery, parse: Parser) {
    BadDate(q.startDate, parse) || BadDate(q.endDate, parse)
  }

  /**
   * The chain of filters: the caller's own entries; then the project when
   * `project_id` is non-zero; then start times inside the inclusive window
   * the given dates bound; then the billable flag when present, which
   * selects billable entries exactly when it lower-cases to `true`.
   */
  predicate Selected(q: EntryQuery, parse: Parser, userId: int, e: TimeEntry): (b: bool)
    ensures BadQuery(q, parse) ==> !b
    ensures q == EntryQuery(None, None, None, None) ==> (b <==> e.userId == userId)
    ensures b && Given(q.startDate) && Given(q.endDate) ==>
      parse(q.startDate.value).value <= parse(q.endDate.value).value
  {
    && e.userId == userId
    && (q.projectId.Some? && q.projectId.value != 0 ==> e.projectId == q.projectId.value)
    && (Given(q.startDate) ==> parse(q.startDate.value).Some? && parse(q.startDate.value).value <= e.startTime)
    && (Given(q.endDate) ==> parse(q.endDate.value).Some? && e.startTime <= parse(q.endDate.value).value)
    && (q.isBillable.Some? ==> e.isBillable == IsTrueFlag(q.isBillable.value))
  }

  /** The filter as a function on rows. */
  function SelectedBy(q: EntryQuery, parse: Parser, userId: int): TimeEntry -> bool {
    (e: TimeEntry) => Selected(q, parse, userId, e)
  }

  /** The sort key of the listing. */
  function StartTime(e: TimeEntry): int {
    e.startTime
  }

  /** The filtered rows, in table order: stored rows that pass every filter. */
  function Matching(entries: map<int, TimeEntry>, userId: int, q: EntryQuery, parse: Parser): (r: seq<Row<TimeEntry>>)
    ensures |r| <= |entries|
    ensures forall x :: x in r ==> x.id in entries && x.value == entries[x.id] && Selected(q, parse, userId, x.value)
  {
    SelectContent(Rows(entries), SelectedBy(q, parse, userId));
    RowsSound(entries);
    Select(Rows(entries), SelectedBy(q, parse, userId))
  }

  /** The filtered rows are exactly the selected rows of the table, each once. */
  lemma MatchingContent(entries: map<int, TimeEntry>, userId: int, q: EntryQuery, parse: Parser)
    ensures forall x :: x in Matching(entries, userId, q, parse) <==>
      x.id in entries && x.value == entries[x.id] && Selected(q, parse, userId, x.value)
    ensures UniqueIds(Matching(entries, userId, q, parse))
    ensures |Matching(entries, userId, q, parse)| == |KeysWhere(entries, SelectedBy(q, parse, userId))|
  {
    SelectRows(entries, SelectedBy(q, parse, userId));
  }

  /**
   * GET /api/entries: 400 when a given date does not parse (the start date
   * is checked first); otherwise every selected entry exactly once, newest
   * start time first.
   */
  function GetTimeEntries(entries: map<int, TimeEntry>, userId: int, q: EntryQuery, parse: Parser)
    : (r: Response<seq<Row<TimeEntry>>>)
    ensures r.Failure? <==> BadQuery(q, parse)
    ensures r.Failure? ==> r.status == 400
    ensures r.Failure? ==>
      r.message == (if BadDate(q.startDate, parse) then "Invalid start_date format" else "Invalid end_date format")
    ensures r.Success? ==> r.status == 200
    ensures r.Success? ==> forall x :: x in r.body <==>
      x.id in entries && x.value == entries[x.id] && Selected(q, parse, userId, x.value)
    ensures r.Success? ==> UniqueIds(r.body) && SortedDesc(r.body, StartTime)
  {
    if BadDate(q.startDate, parse) then Failure(400, "Invalid start_date format")
    else if BadDate(q.endDate, parse) then Failure(400, "Invalid end_date format")
    else
      ListingContent(entries, userId, q, parse);
      ListingOrder(entries, userId, q, parse);
      Success(200, SortDesc(Matching(entries, userId, q, parse), StartTime))
  }

  /** The sorted listing holds the filtered rows, each once. */
  lemma ListingContent(entries: map<int, TimeEntry>, userId: int, q: EntryQuery, parse: Parser)
    ensures forall x :: x in SortDesc(Matching(entries, userId, q, parse), StartTime) <==>
      x.id in entries && x.value == entries[x.id] && Selected(q, parse, userId, x.value)
  {
    forall x {
      SortedSelectMember(entries, SelectedBy(q, parse, userId), StartTime, x);
    }
  }

  /** The sorted listing is newest first, with distinct keys. */
  lemma ListingOrder(entries: map<int, TimeEntry>, userId: int, q: EntryQuery, parse: Parser)
    ensures UniqueIds(SortDesc(Matching(entries, userId, q, parse), StartTime))
    ensures SortedDesc(SortDesc(Matching(entries, userId, q, parse), StartTime), StartTime)
  {
    SortedSelectRows(entries, SelectedBy(q, parse, userId), StartTime);
  }

  /** A `project_id` of 0 filters nothing: it lists the same as no `project_id`. */
  lemma ZeroProjectIdIsNoFilter(entries: map<int, TimeEntry>, userId: int, q: EntryQuery, parse: Parser)
    ensures GetTimeEntries(entries, userId, q.(projectId := Some(0)), parse)
         == GetTimeEntries(entries, userId, q.(projectId := None), parse)
  {
    SelectAgree(Rows(entries), SelectedBy(q.(projectId := Some(0)), parse, userId),
                SelectedBy(q.(projectId := None), parse, userId));
  }

  /** Both window bounds are inclusive and both apply to the start time. */
  lemma WindowIsInclusive(entries: map<int, TimeEntry>, userId: int, q: EntryQuery, parse: Parser, k: int)
    requires k in entries && entries[k].userId == userId
    requires q.projectId.None? && q.isBillable.None?
    requires Given(q.startDate) && Given(q.endDate)
    requires parse(q.startDate.value) == Some(entries[k].startTime)
    requires parse(q.endDate.value) == Some(entries[k].startTime)
    ensures GetTimeEntries(entries, userId, q, parse).Success?
    ensures Row(k, entries[k]) in GetTimeEntries(entries, userId, q, parse).body
  {
  }

  /**
   * A present billable flag lists only the entries whose flag says whether
   * the text is a case variant of `true`; in particular `false` and `''`
   * list only non-billable entries.
   */
  lemma BillableFlagSelects(entries: map<int, TimeEntry>, userId: int, q: EntryQuery, parse: Parser)
    requires q.isBillable.Some?
    requires !BadQuery(q, parse)
    ensures var v := q.isBillable.value;
      forall x :: x in GetTimeEntries(entries, userId, q, parse).body ==>
        x.value.isBillable == (|v| == 4 && v[0] in "tT" && v[1] in "rR" && v[2] in "uU" && v[3] in "eE")
    ensures q.isBillable.value in {"false", ""} ==>
      forall x :: x in GetTimeEntries(entries, userId, q, parse).body ==> !x.value.isBillable
  {
    TrueFlagSpelling(q.isBillable.value);
  }

  /** The entry `id` exists and belongs to the caller. */
  predicate Owned(entries: map<int, TimeEntry>, userId: int, id: int) {
    id in entries && entries[id].userId == userId
  }

  /** GET /api/entries/<id>: the caller's own entry, or 404. */
  function GetTimeEntry(entries: map<int, TimeEntry>, userId: int, id: int): (r: Response<Row<TimeEntry>>)
    ensures r.Failure? <==> !Owned(entries, userId, id)
    ensures r.Failure? ==> r.status == 404 && r.message == "Time entry not found"
    ensures r.Success? ==> r.status == 200 && r.body == Row(id, entries[id])
    ensures r.Success? ==> r.body.value.userId == userId
  {
    if Owned(entries, userId, id) then Success(200, Row(id, entries[id]))
    else Failure(404, "Time entry not found")
  }

  /** The JSON body of POST /api/entries; None for a missing key. */
  datatype NewEntry = NewEntry(
    projectId: Option<int>,
    startTime: Option<string>,
    endTime: Option<string>,
    notes: Option<string>,
    isBillable: Option<bool>)

  /** The body names a (non-zero) project and a (non-empty) start time. */
  predicate EntryComplete(req: NewEntry) {
    req.projectId.Some? && req.projectId.value != 0 && Given(req.startTime)
  }

  /** A given start or end time of the body that `fromisoformat` rejects. */
  predicate BadEntryTime(req: NewEntry, parse: Parser) {
    || (Given(req.startTime) && ParseTime(req.startTime.value, parse).None?)
    || (Given(req.endTime) && ParseTime(req.endTime.value, parse).None?)
  }

  /**
   * The entry POST /api/entries would insert, or its error: 400 without a
   * (non-zero) project id or a (non-empty) start time, then 404 for an
   * unknown project, then 400 when a given time does not parse. `is_billable`
   * defaults to true and there is a duration exactly when an end time is given.
   */
  function BuildEntry(projects: map<int, Project>, userId: int, req: NewEntry, parse: Parser): (r: Response<TimeEntry>)
    ensures r.Failure? && r.message == "project_id and start_time are required" <==> !EntryComplete(req)
    ensures r.Failure? && r.status == 404
        <==> EntryComplete(req) && req.projectId.value !in projects
    ensures r.Failure? && r.message == "Invalid datetime format"
        <==> EntryComplete(req) && req.projectId.value in projects && BadEntryTime(req, parse)
    ensures r.Failure? ==> (r.status == 404 <==> r.message == "Project not found")
    ensures r.Failure? ==> r.status in {400, 404}
    ensures r.Success? <==> EntryComplete(req) && req.projectId.value in projects && !BadEntryTime(req, parse)
    ensures r.Success? ==>
      && r.status == 201
      && req.projectId.Some? && r.body.projectId == req.projectId.value && r.body.projectId in projects
      && req.startTime.Some? && ParseTime(req.startTime.value, parse) == Some(r.body.startTime)
      && r.body.userId == userId
      && r.body.notes == req.notes
      && r.body.isBillable == req.isBillable.GetOr(true)
      && (r.body.endTime.Some? <==> Given(req.endTime))
      && (r.body.endTime.Some? ==> ParseTime(req.endTime.value, parse) == r.body.endTime)
      && (r.body.duration.Some? <==> Given(req.endTime))
      && (r.body.duration.Some? ==> r.body.duration.value == r.body.endTime.value - r.body.startTime)
  {
    if !(req.projectId.Some? && req.projectId.value != 0) || !Given(req.startTime) then
      Failure(400, "project_id and start_time are required")
    else if req.projectId.value !in projects then
      Failure(404, "Project not found")
    else
      var start := ParseTime(req.startTime.value, parse);
      var end := if Given(req.endTime) then ParseTime(req.endTime.value, parse) else None;
      if start.None? || (Given(req.endTime) && end.None?) then
        Failure(400, "Invalid datetime format")
      else
        var entry := TimeEntry(userId, req.projectId.value, start.value, end, None, req.notes,
                               req.isBillable.GetOr(true));
        Success(201, if end.Some? then CalculateDuration(entry).entry else entry)
  }

  /** POST /api/entries: inserts the built entry under the key SQLite assigns, or changes nothing. */
  method CreateTimeEntry(db: Tables, userId: int, req: NewEntry, parse: Parser) returns (r: Response<Row<TimeEntry>>)
    requires db.Valid()
    modifies db
    ensures db.Valid()
    ensures db.projects == old(db.projects)
    ensures var built := BuildEntry(old(db.projects), userId, req, parse);
      if built.Failure? then
        && r == Failure(built.status, built.message)
        && db.entries == old(db.entries)
      else
        var id := NextRowId(old(db.entries));
        && r == Success(201, Row(id, built.body))
        && db.entries == old(db.entries)[id := built.body]
  {
    var built := BuildEntry(db.projects, userId, req, parse);
    if built.Failure? {
      return Failure(built.status, built.message);
    }
    var id := NextRowId(db.entries);
    db.entries := db.entries[id := built.body];
    r := Success(201, Row(id, built.body));
  }

  /** The JSON body of PUT /api/entries/<id>: which keys are present, with their values. */
  datatype EntryChanges = EntryChanges(
    projectId: Field<int>,
    startTime: Field<string>,
    endTime: Field<string>,
    notes: Field<Option<string>>,
    isBillable: Field<bool>)

  /** `datetime.fromisoformat(value.replace('Z', '+00:00'))`. */
  function ParseTime(s: string, parse: Parser): (r: Option<int>)
    ensures 'Z' !in s ==> r == parse(s)
    ensures |s| > 0 && s[|s| - 1] == 'Z' && 'Z' !in s[..|s| - 1] ==> r == parse(s[..|s| - 1] + "+00:00")
  {
    if |s| > 0 && s[|s| - 1] == 'Z' && 'Z' !in s[..|s| - 1] then
      assert s == s[..|s| - 1] + "Z";
      ReplaceZAppend(s[..|s| - 1], "Z");
      ReplaceZOfZ();
      parse(ReplaceZ(s))
    else
      parse(ReplaceZ(s))
  }

  /** A present time value that `fromisoformat` rejects. */
  predicate BadTime(t: Field<string>, parse: Parser) {
    t.Present? && ParseTime(t.value, parse).None?
  }

  /** The start time after an update that parsed. */
  function NewStart(e: TimeEntry, c: EntryChanges, parse: Parser): int
    requires !BadTime(c.startTime, parse)
  {
    if c.startTime.Present? then ParseTime(c.startTime.value, parse).value else e.startTime
  }

  /** The end time after an update that parsed. */
  function NewEnd(e: TimeEntry, c: EntryChanges, parse: Parser): Option<int> {
    if c.endTime.Present? then ParseTime(c.endTime.value, parse) else e.endTime
  }

  /**
   * The entry after an update, or its error: 404 when a present project id
   * is unknown, then 400 when a present time does not parse. Every field
   * that is absent keeps its value, every present one takes the new value,
   * and the duration is recomputed whenever the entry then has an end time.
   */
  function ApplyEntryUpdate(projects: map<int, Project>, e: TimeEntry, c: EntryChanges, parse: Parser)
    : (r: Response<TimeEntry>)
    ensures r.Failure? <==>
      (c.projectId.Present? && c.projectId.value !in projects) || BadTime(c.startTime, parse) || BadTime(c.endTime, parse)
    ensures r.Failure? ==> (r.status == 404 <==> c.projectId.Present? && c.projectId.value !in projects)
    ensures r.Failure? ==> r.status == 404 || r.status == 400
    ensures r.Failure? && r.status == 404 ==> r.message == "Project not found"
    ensures r.Failure? && r.message == "Invalid start_time format" <==>
      !(c.projectId.Present? && c.projectId.value !in projects) && BadTime(c.startTime, parse)
    ensures r.Failure? && r.message == "Invalid end_time format" <==>
      !(c.projectId.Present? && c.projectId.value !in projects) && !BadTime(c.startTime, parse) && BadTime(c.endTime, parse)
    ensures r.Success? ==>
      && r.status == 200
      && r.body.userId == e.userId
      && r.body.projectId == c.projectId.Or(e.projectId)
      && r.body.startTime == NewStart(e, c, parse)
      && r.body.endTime == NewEnd(e, c, parse)
      && r.body.notes == c.notes.Or(e.notes)
      && r.body.isBillable == c.isBillable.Or(e.isBillable)
      && r.body.duration == (if r.body.endTime.Some? then Some(r.body.endTime.value - r.body.startTime) else e.duration)
  {
    if c.projectId.Present? && c.projectId.value !in projects then Failure(404, "Project not found")
    else if BadTime(c.startTime, parse) then Failure(400, "Invalid start_time format")
    else if BadTime(c.endTime, parse) then Failure(400, "Invalid end_time format")
    else
      var updated := TimeEntry(e.userId, c.projectId.Or(e.projectId), NewStart(e, c, parse), NewEnd(e, c, parse),
                               e.duration, c.notes.Or(e.notes), c.isBillable.Or(e.isBillable));
      Success(200, CalculateDuration(updated).entry)
  }

  /** PUT /api/entries/<id> as a whole: 404 for an entry the caller does not own, else the update. */
  function UpdateEntry(entries: map<int, TimeEntry>, projects: map<int, Project>, userId: int, id: int,
                       c: EntryChanges, parse: Parser): (r: Response<Row<TimeEntry>>)
    ensures !Owned(entries, userId, id) ==> r == Failure(404, "Time entry not found")
    ensures r.Success? ==> Owned(entries, userId, id) && r.body.id == id
    ensures Owned(entries, userId, id) ==>
      var applied := ApplyEntryUpdate(projects, entries[id], c, parse);
      (r.Success? <==> applied.Success?) && (r.Success? ==> r.body.value == applied.body)
  {
    if !Owned(entries, userId, id) then Failure(404, "Time entry not found")
    else
      match ApplyEntryUpdate(projects, entries[id], c, parse)
      case Failure(status, message) => Failure(status, message)
      case Success(status, updated) => Success(status, Row(id, updated))
  }

  /**
   * The handler's steps on one entry: checks and assigns the present
   * fields one by one, stopping at the first error, then recomputes the
   * duration when there is an end time.
   */
  method AssignChanges(projects: map<int, Project>, e: TimeEntry, c: EntryChanges, parse: Parser)
    returns (r: Response<TimeEntry>)
    ensures r == ApplyEntryUpdate(projects, e, c, parse)
  {
    var entry := e;
    if c.projectId.Present? {
      if c.projectId.value !in projects {
        return Failure(404, "Project not found");
      }
      entry := entry.(projectId := c.projectId.value);
    }
    if c.startTime.Present? {
      var t := ParseTime(c.startTime.value, parse);
      if t.None? {
        return Failure(400, "Invalid start_time format");
      }
      entry := entry.(startTime := t.value);
    }
    if c.endTime.Present? {
      var t := ParseTime(c.endTime.value, parse);
      if t.None? {
        return Failure(400, "Invalid end_time format");
      }
      entry := entry.(endTime := t);
    }
    assert entry == e.(projectId := c.projectId.Or(e.projectId), startTime := NewStart(e, c, parse),
                       endTime := NewEnd(e, c, parse));
    if c.notes.Present? {
      entry := entry.(notes := c.notes.value);
    }
    if c.isBillable.Present? {
      entry := entry.(isBillable := c.isBillable.value);
    }
    if entry.endTime.Some? {
      entry := CalculateDuration(entry).entry;
    }
    r := Success(200, entry);
  }

  /**
   * PUT /api/entries/<id>: 404 for an entry the caller does not own;
   * otherwise the changes are applied and, only when they all succeed,
   * committed. An error return leaves the table as it was.
   */
  method UpdateTimeEntry(db: Tables, userId: int, id: int, c: EntryChanges, parse: Parser)
    returns (r: Response<Row<TimeEntry>>)
    requires db.Valid()
    modifies db
    ensures db.Valid()
    ensures r == UpdateEntry(old(db.entries), old(db.projects), userId, id, c, parse)
    ensures db.entries == if r.Success? then old(db.entries)[id := r.body.value] else old(db.entries)
    ensures db.projects == old(db.projects)
  {
    if !(id in db.entries && db.entries[id].userId == userId) {
      return Failure(404, "Time entry not found");
    }
    var applied := AssignChanges(db.projects, db.entries[id], c, parse);
    if applied.Failure? {
      return Failure(applied.status, applied.message);
    }
    db.entries := db.entries[id := applied.body];
    r := Success(200, Row(id, applied.body));
  }

  /** DELETE /api/entries/<id>: 404 and no change for an entry the caller does not own. */
  method DeleteTimeEntry(db: Tables, userId: int, id: int) returns (r: Response<string>)
    requires db.Valid()
    modifies db
    ensures db.Valid()
    ensures r.Failure? <==> !Owned(old(db.entries), userId, id)
    ensures r.Failure? ==> r == Failure(404, "Time entry not found") && db.entries == old(db.entries)
    ensures r.Success? ==> r == Success(200, "Time entry deleted successfully") && db.entries == old(db.entries) - {id}
    ensures db.projects == old(db.projects)
  {
    if !(id in db.entries && db.entries[id].userId == userId) {
      return Failure(404, "Time entry not found");
    }
    db.entries := db.entries - {id};
    r := Success(200, "Time entry deleted successfully");
  }

  /** The query string of GET /api/entries/summary: no billable flag. */
  datatype SummaryQuery = SummaryQuery(projectId: Option<int>, startDate: Option<string>, endDate: Option<string>)

  /** The summary reuses the listing's filters, without the billable one. */
  function AsEntryQuery(q: SummaryQuery): EntryQuery {
    EntryQuery(q.projectId, q.startDate, q.endDate, None)
  }

  /** The summary's JSON, in seconds, with the hour values derived from them. */
  datatype Summary = Summary(
    totalEntries: nat,
    totalSeconds: int,
    billableSeconds: int,
    nonBillableSeconds: int,
    totalHours: Hours,
    billableHours: Hours,
    nonBillableHours: Hours)

  /**
   * GET /api/entries/summary: 400 for a bad date; otherwise the number of
   * filtered entries, the seconds of those with a duration, of the billable
   * ones, and the rest, which are the seconds of the non-billable entries.
   * The non-billable hours are `0` whenever the total is, as the code tests
   * the total there.
   */
  function GetSummary(entries: map<int, TimeEntry>, userId: int, q: SummaryQuery, parse: Parser)
    : (r: Response<Summary>)
    ensures r.Failure? <==> BadQuery(AsEntryQuery(q), parse)
    ensures r.Failure? ==> r.status == 400
    ensures r.Success? ==>
      var rows := Matching(entries, userId, AsEntryQuery(q), parse);
      && r.status == 200
      && r.body.totalEntries == |KeysWhere(entries, SelectedBy(AsEntryQuery(q), parse, userId))|
      && r.body.totalSeconds == TotalSeconds(rows)
      && r.body.billableSeconds == BillableSeconds(rows)
      && r.body.nonBillableSeconds == NonBillableSeconds(rows)
      && r.body.totalSeconds == r.body.billableSeconds + r.body.nonBillableSeconds
      && r.body.totalHours == HoursOrZero(r.body.totalSeconds)
      && r.body.billableHours == HoursOrZero(r.body.billableSeconds)
      && r.body.nonBillableHours ==
           (if r.body.totalSeconds == 0 then ZeroHours else RoundedHours(r.body.nonBillableSeconds))
  {
    var eq := AsEntryQuery(q);
    if BadDate(eq.startDate, parse) then Failure(400, "Invalid start_date format")
    else if BadDate(eq.endDate, parse) then Failure(400, "Invalid end_date format")
    else
      var rows := Matching(entries, userId, eq, parse);
      MatchingContent(entries, userId, eq, parse);
      TotalSplitsByBillable(rows);
      var total := TotalSeconds(rows);
      var billable := BillableSeconds(rows);
      Success(200, Summary(|rows|, total, billable, total - billable,
                           HoursOrZero(total), HoursOrZero(billable),
                           if total != 0 then RoundedHours(total - billable) else ZeroHours))
  }
}
