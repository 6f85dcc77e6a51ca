/**
 * The two tables the project and time-entry routes share, as one object
 * whose fields those routes update in place.
 */
module Database {
  import opened TimeEntryModel
  import opened ProjectModel

  class Tables {
    var projects: map<int, Project>
    var entries: map<int, TimeEntry>

    /**
     * Keys are positive (SQLite numbers the rows of an empty table from 1,
     * see `Table.NextRowId`) and every entry references an existing project.
     */
    ghost predicate Valid()
      reads this
    {
      && (forall id :: id in projects ==> 1 <= id)
      && (forall id :: id in entries ==> 1 <= id)
      && EntriesReferenceProjects(projects, entries)
    }

    /** Empty tables. */
    constructor ()
      ensures Valid()
      ensures projects == map[] && entries == map[]
    {
      projects := map[];
      entries := map[];
    }
  }
}
