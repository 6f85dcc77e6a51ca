/**
 * The filter bar and footer of the time-entry table
 * (frontend/src/components/timeEntries/TimeEntryTable.js). The filter
 * record is the parent's state; the table only hands it back changed.
 */
module TimeEntryTable {
  import opened Table
  import opened TimeEntryModel

  /** The four filter inputs, each a string; `''` means not filtering. */
  datatype Filters = Filters(projectId: string, startDate: string, endDate: string, isBillable: string)

  /** The `name` of the input that changed. */
  datatype FilterKey = ProjectIdKey | StartDateKey | EndDateKey | IsBillableKey

  /** No filter set: the record both the initial state and "Clear Filters" use. */
  const NoFilters: Filters := Filters("", "", "", "")

  /** The value held under one key. */
  function Get(f: Filters, key: FilterKey): string {
    match key
    case ProjectIdKey => f.projectId
    case StartDateKey => f.startDate
    case EndDateKey => f.endDate
    case IsBillableKey => f.isBillable
  }

  /** `{ ...filters, [name]: value }`: replaces one key and keeps the other three. */
  function HandleFilterChange(f: Filters, key: FilterKey, value: string): (r: Filters)
    ensures Get(r, key) == value
    ensures forall k :: k != key ==> Get(r, k) == Get(f, k)
  {
    match key
    case ProjectIdKey => f.(projectId := value)
    case StartDateKey => f.(startDate := value)
    case EndDateKey => f.(endDate := value)
    case IsBillableKey => f.(isBillable := value)
  }

  /** Setting a key to the value it already holds changes nothing. */
  lemma FilterChangeToSameValue(f: Filters, key: FilterKey)
    ensures HandleFilterChange(f, key, Get(f, key)) == f
  {
  }

  /** Changing two different keys gives the same record in either order. */
  lemma FilterChangesCommute(f: Filters, k1: FilterKey, v1: string, k2: FilterKey, v2: string)
    requires k1 != k2
    ensures HandleFilterChange(HandleFilterChange(f, k1, v1), k2, v2)
         == HandleFilterChange(HandleFilterChange(f, k2, v2), k1, v1)
  {
  }

  /** `clearFilters`: every key back to `''`, whatever the filters were. */
  function ClearFilters(f: Filters): (r: Filters)
    ensures forall k :: Get(r, k) == ""
  {
    NoFilters
  }

  /** Clearing twice is clearing once, and clearing any change is clearing. */
  lemma ClearIdempotent(f: Filters, key: FilterKey, value: string)
    ensures ClearFilters(ClearFilters(f)) == ClearFilters(f)
    ensures ClearFilters(HandleFilterChange(f, key, value)) == ClearFilters(f)
  {
  }

  /** The footer: `Total Entries` and the seconds behind `Total Hours`. */
  datatype Footer = Footer(count: nat, seconds: int)

  /**
   * The footer over the entries shown: their number, and the sum of their
   * durations where `duration_hours || 0` counts an entry without one as 0.
   */
  function FooterOf(entries: seq<Row<TimeEntry>>): (r: Footer)
    ensures r.count == |entries|
    ensures r.seconds == TotalSeconds(entries)
    ensures r.count == 0 ==> r.seconds == 0
  {
    Footer(|entries|, TotalSeconds(entries))
  }

  /** The "No time entries found" message shows exactly when the list is empty. */
  predicate ShowsEmptyState(entries: seq<Row<TimeEntry>>) {
    |entries| == 0
  }

  /** With the empty message shown the footer reads zero entries and zero hours. */
  lemma EmptyStateFooter(entries: seq<Row<TimeEntry>>)
    requires ShowsEmptyState(entries)
    ensures FooterOf(entries) == Footer(0, 0)
  {
  }
}
