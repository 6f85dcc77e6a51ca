/**
 * The `/api/projects` routes (backend/app/routes/projects.py). Projects are
 * shared by every signed-in user; listing and reading are queries, create,
 * update and delete change the shared tables in place.
 */
module ProjectRoutes {
  import opened Wrappers
  import opened Table
  import opened Text
  import opened Http
  import opened TimeEntryModel
  import opened ProjectModel
  import opened Database

  /** `request.args.get('include_stats', 'false').lower() == 'true'`. */
  function IncludeStats(arg: Option<string>): (b: bool)
    ensures arg.None? ==> !b
    ensures b <==> arg.Some? && IsTrueFlag(arg.value)
  {
    IsTrueFlag(arg.GetOr("false"))
  }

  /** The `status` filter: applied only when the argument is given and non-empty. */
  predicate StatusMatches(status: Option<string>, p: Project) {
    Given(status) ==> p.status == status.value
  }

  /** The filter as a function on rows. */
  function StatusFilter(status: Option<string>): Project -> bool {
    (p: Project) => StatusMatches(status, p)
  }

  /** The sort key of the listing. */
  function CreatedAt(p: Project): int {
    p.createdAt
  }

  /** The projects GET /api/projects lists, newest first. */
  function ListedProjects(projects: map<int, Project>, status: Option<string>): (r: seq<Row<Project>>)
    ensures |r| <= |projects|
    ensures forall x :: x in r ==> x.id in projects && x.value == projects[x.id] && StatusMatches(status, x.value)
  {
    SortDescMembers(Select(Rows(projects), StatusFilter(status)), CreatedAt);
    SelectContent(Rows(projects), StatusFilter(status));
    RowsSound(projects);
    SortDesc(Select(Rows(projects), StatusFilter(status)), CreatedAt)
  }

  /** The listing holds every project with the status, each once. */
  lemma ListedProjectsContent(projects: map<int, Project>, status: Option<string>)
    ensures forall x :: x in ListedProjects(projects, status) <==>
      x.id in projects && x.value == projects[x.id] && StatusMatches(status, x.value)
  {
    forall x {
      SortedSelectMember(projects, StatusFilter(status), CreatedAt, x);
    }
  }

  /** The listing is newest first, with one row per matching key. */
  lemma ListedProjectsOrder(projects: map<int, Project>, status: Option<string>)
    ensures UniqueIds(ListedProjects(projects, status))
    ensures SortedDesc(ListedProjects(projects, status), CreatedAt)
    ensures |ListedProjects(projects, status)| == |KeysWhere(projects, StatusFilter(status))|
  {
    SortedSelectRows(projects, StatusFilter(status), CreatedAt);
  }

  /** The JSON form of each row, in order. */
  function Views(rows: seq<Row<Project>>, includeStats: bool, entries: map<int, TimeEntry>): (r: seq<ProjectView>)
    ensures |r| == |rows|
    ensures forall i :: 0 <= i < |r| ==> r[i] == ToDict(rows[i].id, rows[i].value, includeStats, entries)
  {
    seq(|rows|, i requires 0 <= i < |rows| => ToDict(rows[i].id, rows[i].value, includeStats, entries))
  }

  /**
   * GET /api/projects: one view per project with the requested status (all
   * projects when none is given), newest first, with statistics exactly
   * when `include_stats` spells `true`.
   */
  function GetProjects(projects: map<int, Project>, entries: map<int, TimeEntry>,
                       status: Option<string>, includeStatsArg: Option<string>): (r: Response<seq<ProjectView>>)
    ensures r.Success? && r.status == 200
    ensures |r.body| == |KeysWhere(projects, StatusFilter(status))|
    ensures forall i :: 0 <= i < |r.body| ==>
      && r.body[i].id in projects
      && r.body[i] == ToDict(r.body[i].id, projects[r.body[i].id], IncludeStats(includeStatsArg), entries)
      && StatusMatches(status, projects[r.body[i].id])
    ensures forall i, j :: 0 <= i < j < |r.body| ==> r.body[i].id != r.body[j].id
    ensures forall i, j :: 0 <= i < j < |r.body| ==> r.body[i].createdAt >= r.body[j].createdAt
  {
    var listed := ListedProjects(projects, status);
    ListedProjectsContent(projects, status);
    ListedProjectsOrder(projects, status);
    ViewsOfListed(projects, entries, status, IncludeStats(includeStatsArg), listed);
    Success(200, Views(listed, IncludeStats(includeStatsArg), entries))
  }

  /** The views of listed rows carry the listed projects' own keys, columns and order. */
  lemma ViewsOfListed(projects: map<int, Project>, entries: map<int, TimeEntry>, status: Option<string>,
                      includeStats: bool, listed: seq<Row<Project>>)
    requires forall x :: x in listed ==> x.id in projects && x.value == projects[x.id] && StatusMatches(status, x.value)
    requires UniqueIds(listed) && SortedDesc(listed, CreatedAt)
    ensures var r := Views(listed, includeStats, entries);
      && (forall i :: 0 <= i < |r| ==>
            && r[i].id in projects
            && r[i] == ToDict(r[i].id, projects[r[i].id], includeStats, entries)
            && StatusMatches(status, projects[r[i].id]))
      && (forall i, j :: 0 <= i < j < |r| ==> r[i].id != r[j].id)
      && (forall i, j :: 0 <= i < j < |r| ==> r[i].createdAt >= r[j].createdAt)
  {
    var r := Views(listed, includeStats, entries);
    forall i | 0 <= i < |r|
      ensures r[i].id in projects && r[i] == ToDict(r[i].id, projects[r[i].id], includeStats, entries)
      ensures StatusMatches(status, projects[r[i].id])
    {
      assert listed[i] in listed;
    }
    forall i, j | 0 <= i < j < |r| ensures r[i].createdAt >= r[j].createdAt {
      assert CreatedAt(listed[i].value) >= CreatedAt(listed[j].value);
    }
  }

  /** GET /api/projects/<id>: the project's view, or 404. */
  function GetProject(projects: map<int, Project>, entries: map<int, TimeEntry>, id: int,
                      includeStatsArg: Option<string>): (r: Response<ProjectView>)
    ensures r.Failure? <==> id !in projects
    ensures r.Failure? ==> r.status == 404 && r.message == "Project not found"
    ensures r.Success? ==> r.status == 200 && r.body == ToDict(id, projects[id], IncludeStats(includeStatsArg), entries)
  {
    if id !in projects then Failure(404, "Project not found")
    else Success(200, ToDict(id, projects[id], IncludeStats(includeStatsArg), entries))
  }

  /** The JSON body of POST /api/projects; None for a missing key. */
  datatype NewProject = NewProject(
    name: Option<string>,
    description: Option<string>,
    status: Option<string>,
    color: Option<string>)

  /**
   * The project POST /api/projects would insert, or 400 without a
   * (non-empty) name. Status and color take the column defaults when
   * missing; `now` is the clock reading the row is stamped with.
   */
  function BuildProject(req: NewProject, now: int): (r: Response<Project>)
    ensures r.Failure? <==> !Given(req.name)
    ensures r.Failure? ==> r.status == 400 && r.message == "Project name is required"
    ensures r.Success? ==>
      && r.status == 201
      && req.name == Some(r.body.name) && r.body.name != ""
      && r.body.description == req.description
      && (req.status.None? ==> r.body.status == DefaultStatus)
      && (req.status.Some? ==> r.body.status == req.status.value)
      && (req.color.None? ==> r.body.color == DefaultColor)
      && (req.color.Some? ==> r.body.color == req.color.value)
      && r.body.createdAt == now
  {
    if !Given(req.name) then Failure(400, "Project name is required")
    else Success(201, Project(req.name.value, req.description, req.status.GetOr(DefaultStatus),
                              req.color.GetOr(DefaultColor), now))
  }

  /** POST /api/projects: inserts the built project under the key SQLite assigns, or changes nothing. */
  method CreateProject(db: Tables, req: NewProject, now: int) returns (r: Response<ProjectView>)
    requires db.Valid()
    modifies db
    ensures db.Valid()
    ensures db.entries == old(db.entries)
    ensures var built := BuildProject(req, now);
      if built.Failure? then
        && r == Failure(built.status, built.message)
        && db.projects == old(db.projects)
      else
        var id := NextRowId(old(db.projects));
        && r == Success(201, ToDict(id, built.body, false, db.entries))
        && db.projects == old(db.projects)[id := built.body]
  {
    var built := BuildProject(req, now);
    if built.Failure? {
      return Failure(built.status, built.message);
    }
    var id := NextRowId(db.projects);
    db.projects := db.projects[id := built.body];
    r := Success(201, ToDict(id, built.body, false, db.entries));
  }

  /** A fresh project has no entries yet, so its statistics are all zero. */
  lemma NewProjectHasNoEntries(db: Tables, id: int)
    requires db.Valid()
    requires id !in db.projects
    ensures EntryKeysOf(db.entries, id) == {}
    ensures Stats(db.entries, id).entryCount == 0
  {
    forall k | k in db.entries ensures db.entries[k].projectId != id {
      assert db.entries[k].projectId in db.projects;
    }
  }

  /** The JSON body of PUT /api/projects/<id>: which keys are present, with their values. */
  datatype ProjectChanges = ProjectChanges(
    name: Field<string>,
    description: Field<Option<string>>,
    status: Field<string>,
    color: Field<string>)

  /** The project after an update: present keys replace their column, absent ones keep it. */
  function ApplyProjectUpdate(p: Project, c: ProjectChanges): (q: Project)
    ensures c.name.Present? ==> q.name == c.name.value
    ensures c.name.Absent? ==> q.name == p.name
    ensures c.description.Present? ==> q.description == c.description.value
    ensures c.description.Absent? ==> q.description == p.description
    ensures c.status.Present? ==> q.status == c.status.value
    ensures c.status.Absent? ==> q.status == p.status
    ensures c.color.Present? ==> q.color == c.color.value
    ensures c.color.Absent? ==> q.color == p.color
    ensures q.createdAt == p.createdAt
  {
    Project(c.name.Or(p.name), c.description.Or(p.description), c.status.Or(p.status),
            c.color.Or(p.color), p.createdAt)
  }

  /** An update that names no key changes nothing. */
  lemma EmptyUpdateKeepsProject(p: Project)
    ensures ApplyProjectUpdate(p, ProjectChanges(Absent, Absent, Absent, Absent)) == p
  {
  }

  /** Sending the same update twice is the same as sending it once. */
  lemma ProjectUpdateIdempotent(p: Project, c: ProjectChanges)
    ensures ApplyProjectUpdate(ApplyProjectUpdate(p, c), c) == ApplyProjectUpdate(p, c)
  {
  }

  /**
   * PUT /api/projects/<id>: 404 for an unknown project; otherwise the
   * present keys are assigned one by one and the project's view returned.
   */
  method UpdateProject(db: Tables, id: int, c: ProjectChanges) returns (r: Response<ProjectView>)
    requires db.Valid()
    modifies db
    ensures db.Valid()
    ensures r.Failure? <==> id !in old(db.projects)
    ensures r.Failure? ==> r == Failure(404, "Project not found") && db.projects == old(db.projects)
    ensures r.Success? ==>
      && db.projects == old(db.projects)[id := ApplyProjectUpdate(old(db.projects)[id], c)]
      && r == Success(200, ToDict(id, db.projects[id], false, db.entries))
    ensures db.entries == old(db.entries)
  {
    if id !in db.projects {
      return Failure(404, "Project not found");
    }
    var project := db.projects[id];
    if c.name.Present? {
      project := project.(name := c.name.value);
    }
    if c.description.Present? {
      project := project.(description := c.description.value);
    }
    if c.status.Present? {
      project := project.(status := c.status.value);
    }
    if c.color.Present? {
      project := project.(color := c.color.value);
    }
    db.projects := db.projects[id := project];
    r := Success(200, ToDict(id, project, false, db.entries));
  }

  /**
   * DELETE /api/projects/<id>: 404 for an unknown project; otherwise the
   * project goes and, by the cascade, every time entry logged against it.
   */
  method DeleteProject(db: Tables, id: int) returns (r: Response<string>)
    requires db.Valid()
    modifies db
    ensures db.Valid()
    ensures r.Failure? <==> id !in old(db.projects)
    ensures r.Failure? ==>
      (r == Failure(404, "Project not found") && db.projects == old(db.projects) && db.entries == old(db.entries))
    ensures r.Success? ==>
      (&& r == Success(200, "Project deleted successfully")
       && db.projects == old(db.projects) - {id}
       && db.entries == CascadeDelete(old(db.entries), id))
  {
    if id !in db.projects {
      return Failure(404, "Project not found");
    }
    CascadeKeepsReferences(db.projects, db.entries, id);
    db.projects := db.projects - {id};
    db.entries := CascadeDelete(db.entries, id);
    r := Success(200, "Project deleted successfully");
  }
}
