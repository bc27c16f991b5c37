/** GET and POST /api/projects: which projects a user is shown, in which order, and what
    a created project looks like. */
module ProjectsRoute {
  import opened Wrappers
  import opened Store
  import opened Http
  import Seqs
  import Sorting

  /** `searchParams.get("includeArchived") === "true"`: only that exact string counts. */
  predicate IncludeArchived(param: Option<string>) {
    param == Some("true")
  }

  /** The where object of the listing: owner or member, and not archived unless asked. */
  predicate ProjectListed(p: Project, actor: Id, includeArchived: bool) {
    OwnerOrMember(p, actor) && (includeArchived || !p.isArchived)
  }

  /** `orderBy: { createdAt: "desc" }`. */
  predicate NewestFirst(a: Project, b: Project) {
    a.createdAt >= b.createdAt
  }

  lemma NewestFirstIsTotalPreorder()
    ensures Sorting.TotalPreorder(NewestFirst)
  {
  }

  /** GET /api/projects on a snapshot of the database. */
  function GetProjects(st: Store, session: Option<Id>, includeArchivedParam: Option<string>)
    : (r: Result<seq<Project>, HttpError>)
    ensures r.Failure? <==> session.None?
    ensures r.Failure? ==> r.error == Unauthorized
    ensures r.Success? ==>
      var listed := (p: Project) => ProjectListed(p, session.value, IncludeArchived(includeArchivedParam));
      && multiset(r.value) == multiset(Seqs.Filter(st.projects, listed))
      && (forall p :: p in r.value <==>
            p in st.projects && OwnerOrMember(p, session.value)
            && (IncludeArchived(includeArchivedParam) || !p.isArchived))
      && Sorting.SortedBy(r.value, NewestFirst)
  {
    if session.None? then Failure(Unauthorized)
    else
      var listed := (p: Project) => ProjectListed(p, session.value, IncludeArchived(includeArchivedParam));
      var selected := Seqs.Filter(st.projects, listed);
      NewestFirstIsTotalPreorder();
      Sorting.SortedHasFiltered(st.projects, listed, NewestFirst);
      Success(Sorting.InsertionSort(selected, NewestFirst))
  }

  /** The request body of POST /api/projects; `None` is a key the body leaves out. */
  datatype ProjectBody = ProjectBody(
    name: Option<string>,
    description: Option<string>,
    color: Option<string>,
    startDate: Option<string>,
    endDate: Option<string>,
    memberIds: Option<seq<Id>>)

  /** The body once the schema accepted it, defaults filled in and dates converted. */
  datatype ProjectInput = ProjectInput(
    name: string,
    description: Option<string>,
    color: string,
    startDate: Option<int>,
    endDate: Option<int>,
    memberIds: seq<Id>)

  const DefaultColor: string := "#3B82F6"

  /** `createProjectSchema.parse`: the name is required and not empty, the dates must be
      date-times; the color defaults to blue and the member list to empty. A failure is a 400. */
  function ParseProjectBody(b: ProjectBody, parseDate: string -> Option<int>): (r: Result<ProjectInput, HttpError>)
    ensures r.Failure? ==> r.error == BadRequest
    ensures r.Success? <==>
      b.name.Some? && |b.name.value| >= 1 && DateOk(b.startDate, parseDate) && DateOk(b.endDate, parseDate)
    ensures r.Success? ==>
      && r.value.name == b.name.value
      && r.value.description == b.description
      && (b.color.None? ==> r.value.color == DefaultColor)
      && (b.color.Some? ==> r.value.color == b.color.value)
      && (b.memberIds.None? ==> r.value.memberIds == [])
      && (b.memberIds.Some? ==> r.value.memberIds == b.memberIds.value)
      && (b.startDate.None? <==> r.value.startDate.None?)
      && (b.startDate.Some? ==> parseDate(b.startDate.value) == r.value.startDate)
      && (b.endDate.None? <==> r.value.endDate.None?)
      && (b.endDate.Some? ==> parseDate(b.endDate.value) == r.value.endDate)
  {
    if b.name.None? || |b.name.value| < 1 then Failure(BadRequest)
    else if !DateOk(b.startDate, parseDate) || !DateOk(b.endDate, parseDate) then Failure(BadRequest)
    else
      Success(ProjectInput(
        b.name.value,
        b.description,
        b.color.GetOr(DefaultColor),
        ConvertDate(b.startDate, parseDate),
        ConvertDate(b.endDate, parseDate),
        b.memberIds.GetOr([])))
  }

  /** The row `project.create` is given: the actor owns it and is connected as a member
      together with the requested members (its key is assigned by the database). */
  function NewProject(input: ProjectInput, actor: Id, now: int): (p: Project)
    ensures p.ownerId == actor
    ensures p.members == {actor} + (set m | m in input.memberIds)
    ensures OwnerOrMember(p, actor) && actor in p.members
    ensures !p.isArchived
  {
    Project(0, input.name, input.description, input.color, input.startDate, input.endDate,
            actor, {actor} + (set m | m in input.memberIds), false, now)
  }

  /** The log entry written after a project is created; it names no task. */
  function ProjectCreated(actor: Id, p: Project, now: int): (a: Activity)
    ensures a.kind == "created" && a.userId == actor && a.projectId == Some(p.id) && a.taskId.None?
  {
    Activity("created", "Created project \"" + p.name + "\"", actor, None, Some(p.id), now)
  }

  /** POST /api/projects. `now` is the database clock when the rows are inserted. */
  method PostProject(db: Database, session: Option<Id>, body: ProjectBody,
                     parseDate: string -> Option<int>, now: int) returns (res: Result<Project, HttpError>)
    requires db.Valid()
    modifies db
    ensures db.Valid()
    ensures res.Failure? ==> db.Snapshot() == old(db.Snapshot())
    ensures session.None? ==> res == Failure(Unauthorized)
    ensures session.Some? && ParseProjectBody(body, parseDate).Failure? ==> res == Failure(BadRequest)
    ensures session.Some? && ParseProjectBody(body, parseDate).Success? ==>
      && (res.Success? <==>
            ProjectRefsOk(old(db.Snapshot()), NewProject(ParseProjectBody(body, parseDate).value, session.value, now)))
      && (res.Failure? ==> res == Failure(InternalError))
    ensures res.Success? ==>
      && session.Some? && ParseProjectBody(body, parseDate).Success?
      && res.value == NewProject(ParseProjectBody(body, parseDate).value, session.value, now).(id := res.value.id)
      && res.value.id !in ProjectIds(old(db.Snapshot()))
      && db.projects == old(db.projects) + [res.value]
      && db.activities == old(db.activities) + [ProjectCreated(session.value, res.value, now)]
      && db.users == old(db.users) && db.tasks == old(db.tasks)
  {
    if session.None? {
      return Failure(Unauthorized);
    }
    var actor := session.value;
    var parsed := ParseProjectBody(body, parseDate);
    if parsed.Failure? {
      return Failure(parsed.error);
    }
    var created := db.CreateProject(NewProject(parsed.value, actor, now));
    if created.None? {
      return Failure(InternalError);
    }
    var project := created.value;
    var logged := db.CreateActivity(ProjectCreated(actor, project, now));
    // cannot fail: project.create has just checked that the owner exists
    assert logged by {
      assert project in db.projects;
    }
    res := Success(project);
  }

  /** A project its owner has just created is in the owner's default listing. */
  lemma CreatedProjectIsListed(st: Store, input: ProjectInput, actor: Id, now: int, p: Project)
    requires p in st.projects
    requires p == NewProject(input, actor, now).(id := p.id)
    ensures GetProjects(st, Some(actor), None).Success?
    ensures p in GetProjects(st, Some(actor), None).value
  {
  }
}
