/**
 * The `time_entries` row (backend/app/models/time_entry.py): duration
 * recomputation and the duration part of its JSON form. Times are integer
 * seconds; the hour values the JSON carries are `round(seconds / 3600, 2)`,
 * kept here as the seconds they are computed from.
 */
module TimeEntryModel {
  import opened Wrappers
  import opened Table

  /** One time entry. `duration` is the stored, computed number of seconds. */
  datatype TimeEntry = TimeEntry(
    userId: int,
    projectId: int,
    startTime: int,
    endTime: Option<int>,
    duration: Option<int>,
    notes: Option<string>,
    isBillable: bool)

  /** A JSON hours value: the integer literal `0`, or `round(seconds / 3600, 2)`. */
  datatype Hours = ZeroHours | RoundedHours(seconds: int)

  /** `round(s / 3600, 2) if s else 0`. */
  function HoursOrZero(s: int): (h: Hours)
    ensures h == ZeroHours <==> s == 0
    ensures h.RoundedHours? ==> h.seconds == s
  {
    if s == 0 then ZeroHours else RoundedHours(s)
  }

  /** What `calculate_duration` leaves in the entry, and what it returns. */
  datatype Calculated = Calculated(entry: TimeEntry, returned: Option<int>)

  /**
   * `TimeEntry.calculate_duration`: with both times present the duration
   * becomes end minus start in whole seconds (negative when the end is
   * earlier: nothing checks the order); otherwise nothing changes. It returns
   * the duration field as it then stands. The start time is never null.
   */
  function CalculateDuration(e: TimeEntry): (r: Calculated)
    ensures e.endTime.Some? ==> r.entry.duration == Some(e.endTime.value - e.startTime)
    ensures e.endTime.None? ==> r.entry == e
    ensures r.entry == e.(duration := r.entry.duration)
    ensures r.returned == r.entry.duration
  {
    match e.endTime
    case Some(end) =>
      var updated := e.(duration := Some(end - e.startTime));
      Calculated(updated, updated.duration)
    case None => Calculated(e, e.duration)
  }

  /** An end before the start is accepted and gives a negative duration. */
  lemma EndBeforeStartIsNegative(e: TimeEntry)
    requires e.endTime.Some? && e.endTime.value < e.startTime
    ensures CalculateDuration(e).entry.duration.value < 0
  {
  }

  /** Recomputing is idempotent: a second call changes nothing. */
  lemma CalculateDurationIdempotent(e: TimeEntry)
    ensures CalculateDuration(CalculateDuration(e).entry) == CalculateDuration(e)
  {
  }

  /** The duration keys of `to_dict`. */
  datatype DurationFields = DurationFields(duration: Option<int>, durationHours: Option<Hours>)

  /** `'duration'` and `'duration_hours'` of `to_dict`: hours are null when the duration is null or zero. */
  function DurationView(e: TimeEntry): (d: DurationFields)
    ensures d.duration == e.duration
    ensures d.durationHours.None? <==> e.duration.None? || e.duration.value == 0
    ensures d.durationHours.Some? ==> d.durationHours.value == RoundedHours(e.duration.value)
  {
    DurationFields(e.duration, if HasDuration(e) then Some(RoundedHours(e.duration.value)) else None)
  }

  /** Python truthiness of the duration column: present and non-zero. */
  predicate HasDuration(e: TimeEntry) {
    e.duration.Some? && e.duration.value != 0
  }

  /** The seconds an entry adds to a `sum(entry.duration for entry in ... if entry.duration)`. */
  function Seconds(e: TimeEntry): int {
    if HasDuration(e) then e.duration.value else 0
  }

  /** `sum(e.duration for e in rows if e.duration)`: seconds of every entry that has a duration. */
  function TotalSeconds(rows: seq<Row<TimeEntry>>): (r: int)
    ensures (forall i :: 0 <= i < |rows| ==> !HasDuration(rows[i].value)) ==> r == 0
    ensures (forall i :: 0 <= i < |rows| ==> Seconds(rows[i].value) >= 0) ==> r >= 0
  {
    if rows == [] then 0 else Seconds(rows[0].value) + TotalSeconds(rows[1..])
  }

  /** `sum(e.duration for e in rows if e.duration and e.is_billable)`. */
  function BillableSeconds(rows: seq<Row<TimeEntry>>): (r: int)
    ensures (forall i :: 0 <= i < |rows| ==> !rows[i].value.isBillable) ==> r == 0
    ensures (forall i :: 0 <= i < |rows| ==> rows[i].value.isBillable) ==> r == TotalSeconds(rows)
    ensures (forall i :: 0 <= i < |rows| ==> Seconds(rows[i].value) >= 0) ==> 0 <= r <= TotalSeconds(rows)
  {
    if rows == [] then 0
    else (if rows[0].value.isBillable then Seconds(rows[0].value) else 0) + BillableSeconds(rows[1..])
  }

  /** The seconds of the non-billable entries that have a duration. */
  function NonBillableSeconds(rows: seq<Row<TimeEntry>>): int {
    if rows == [] then 0
    else (if rows[0].value.isBillable then 0 else Seconds(rows[0].value)) + NonBillableSeconds(rows[1..])
  }

  /** The total splits into the billable and the non-billable seconds. */
  lemma {:induction false} TotalSplitsByBillable(rows: seq<Row<TimeEntry>>)
    ensures TotalSeconds(rows) == BillableSeconds(rows) + NonBillableSeconds(rows)
  {
    if rows != [] {
      TotalSplitsByBillable(rows[1..]);
    }
  }

  /** Totals over a concatenation add up. */
  lemma {:induction false} TotalSecondsAppend(a: seq<Row<TimeEntry>>, b: seq<Row<TimeEntry>>)
    ensures TotalSeconds(a + b) == TotalSeconds(a) + TotalSeconds(b)
  {
    if a == [] {
      assert a + b == b;
    } else {
      assert (a + b)[1..] == a[1..] + b;
      TotalSecondsAppend(a[1..], b);
    }
  }

  /** An entry without a (non-zero) duration adds nothing to a total. */
  lemma TotalSkipsEntryWithoutDuration(rows: seq<Row<TimeEntry>>, x: Row<TimeEntry>)
    requires !HasDuration(x.value)
    ensures TotalSeconds(rows + [x]) == TotalSeconds(rows)
  {
    TotalSecondsAppend(rows, [x]);
  }

  /** Inserting a row into a sorted listing adds exactly its seconds. */
  lemma {:induction false} TotalSecondsInsert(x: Row<TimeEntry>, rows: seq<Row<TimeEntry>>, key: TimeEntry -> int)
    ensures TotalSeconds(InsertDesc(x, rows, key)) == Seconds(x.value) + TotalSeconds(rows)
  {
    if rows != [] && key(x.value) < key(rows[0].value) {
      var r := InsertDesc(x, rows, key);
      assert r[1..] == InsertDesc(x, rows[1..], key);
      TotalSecondsInsert(x, rows[1..], key);
    }
  }

  /** Ordering a listing does not change its total. */
  lemma {:induction false} TotalSecondsSort(rows: seq<Row<TimeEntry>>, key: TimeEntry -> int)
    ensures TotalSeconds(SortDesc(rows, key)) == TotalSeconds(rows)
  {
    if rows != [] {
      TotalSecondsSort(rows[1..], key);
      TotalSecondsInsert(rows[0], SortDesc(rows[1..], key), key);
    }
  }
}
