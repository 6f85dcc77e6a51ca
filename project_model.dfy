/**
 * The `projects` row (backend/app/models/project.py): its JSON form with the
 * optional statistics, and the cascade that removes a project's time entries
 * with it.
 */
module ProjectModel {
  import opened Wrappers
  import opened Table
  import opened TimeEntryModel

  /** Column defaults of the `projects` table. */
  const DefaultStatus: string := "active"
  const DefaultColor: string := "#3B82F6"

  /** One project. `createdAt` is the creation clock reading in seconds. */
  datatype Project = Project(
    name: string,
    description: Option<string>,
    status: string,
    color: string,
    createdAt: int)

  /** The two statistics keys: `total_hours` (from the summed seconds) and `entry_count`. */
  datatype ProjectStats = ProjectStats(totalSeconds: int, totalHours: Hours, entryCount: nat)

  /** `Project.to_dict(include_stats)`; `stats` is None when the two keys are absent. */
  datatype ProjectView = ProjectView(
    id: int,
    name: string,
    description: Option<string>,
    status: string,
    color: string,
    createdAt: int,
    stats: Option<ProjectStats>)

  /** Every time entry points at a project that exists (the foreign key). */
  predicate EntriesReferenceProjects(projects: map<int, Project>, entries: map<int, TimeEntry>) {
    forall k :: k in entries ==> entries[k].projectId in projects
  }

  /** The keys of the entries that belong to project `id`, whoever logged them. */
  function EntryKeysOf(entries: map<int, TimeEntry>, id: int): (keys: set<int>)
    ensures forall k :: k in keys <==> k in entries && entries[k].projectId == id
  {
    KeysWhere(entries, BelongsTo(id))
  }

  /** The relationship's filter: the entry belongs to project `id`. */
  function BelongsTo(id: int): TimeEntry -> bool {
    (e: TimeEntry) => e.projectId == id
  }

  /** `self.time_entries`: the relationship's rows, as the table holds them. */
  function EntriesOf(entries: map<int, TimeEntry>, id: int): (r: seq<Row<TimeEntry>>)
    ensures |r| <= |entries|
    ensures forall x :: x in r ==> x.id in entries && x.value == entries[x.id] && x.value.projectId == id
  {
    SelectContent(Rows(entries), BelongsTo(id));
    RowsSound(entries);
    Select(Rows(entries), BelongsTo(id))
  }

  /** The relationship lists exactly the project's entries. */
  lemma EntriesOfContent(entries: map<int, TimeEntry>, id: int)
    ensures forall x :: x in EntriesOf(entries, id) <==>
      x.id in entries && x.value == entries[x.id] && x.value.projectId == id
  {
    SelectContent(Rows(entries), BelongsTo(id));
    RowsSound(entries);
    RowsComplete(entries);
  }

  /** The relationship has one row per entry key of the project. */
  lemma EntriesOfCount(entries: map<int, TimeEntry>, id: int)
    ensures |EntriesOf(entries, id)| == |EntryKeysOf(entries, id)|
  {
    SelectCount(entries, BelongsTo(id));
  }

  /**
   * The statistics of `to_dict(include_stats=True)`: the seconds of the
   * project's entries that have a non-zero duration, `0` hours when that sum
   * is zero, and the number of all the project's entries, with or without a
   * duration.
   */
  function Stats(entries: map<int, TimeEntry>, id: int): (s: ProjectStats)
    ensures s.totalSeconds == TotalSeconds(EntriesOf(entries, id))
    ensures s.totalHours == ZeroHours <==> s.totalSeconds == 0
    ensures s.totalHours.RoundedHours? ==> s.totalHours.seconds == s.totalSeconds
    ensures s.entryCount == |EntryKeysOf(entries, id)|
  {
    var rows := EntriesOf(entries, id);
    EntriesOfCount(entries, id);
    var total := TotalSeconds(rows);
    ProjectStats(total, HoursOrZero(total), |rows|)
  }

  /** `Project.to_dict(include_stats)`: the columns, plus the statistics exactly when asked. */
  function ToDict(id: int, p: Project, includeStats: bool, entries: map<int, TimeEntry>): (v: ProjectView)
    ensures v.id == id && v.name == p.name && v.description == p.description
    ensures v.status == p.status && v.color == p.color && v.createdAt == p.createdAt
    ensures v.stats.Some? <==> includeStats
    ensures v.stats.Some? ==> v.stats.value == Stats(entries, id)
  {
    ProjectView(id, p.name, p.description, p.status, p.color, p.createdAt,
                if includeStats then Some(Stats(entries, id)) else None)
  }

  /** `cascade='all, delete-orphan'`: the entries left when project `id` is deleted. */
  function CascadeDelete(entries: map<int, TimeEntry>, id: int): (r: map<int, TimeEntry>)
    ensures forall k :: k in r <==> k in entries && entries[k].projectId != id
    ensures forall k :: k in r ==> r[k] == entries[k]
  {
    map k | k in entries && entries[k].projectId != id :: entries[k]
  }

  /** After the cascade the deleted project has no entries left, so its count is zero. */
  lemma CascadeLeavesNoEntries(entries: map<int, TimeEntry>, id: int)
    ensures EntryKeysOf(CascadeDelete(entries, id), id) == {}
    ensures Stats(CascadeDelete(entries, id), id).entryCount == 0
  {
    var rest := CascadeDelete(entries, id);
    forall k | k in rest ensures rest[k].projectId != id {
    }
  }

  /** The cascade keeps every entry pointing at an existing project. */
  lemma CascadeKeepsReferences(projects: map<int, Project>, entries: map<int, TimeEntry>, id: int)
    requires EntriesReferenceProjects(projects, entries)
    ensures EntriesReferenceProjects(projects - {id}, CascadeDelete(entries, id))
  {
  }

  /** The statistics of another project do not change when project `id` is deleted. */
  lemma CascadeKeepsOtherCounts(entries: map<int, TimeEntry>, id: int, other: int)
    requires other != id
    ensures EntryKeysOf(CascadeDelete(entries, id), other) == EntryKeysOf(entries, other)
  {
  }
}
