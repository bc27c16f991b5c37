/** GET and POST /api/tasks: the filter a task listing is built from, the order it is
    returned in, and task creation with its project-access gate and activity entry. */
module TasksRoute {
  import opened Wrappers
  import opened Store
  import opened Http
  import opened Text
  import Seqs
  import Sorting

  /** The query string of a listing; an id parameter that is absent or empty is `None`. */
  datatype TaskQuery = TaskQuery(
    status: Option<string>,
    priority: Option<string>,
    projectId: Option<Id>,
    assigneeId: Option<Id>,
    search: Option<string>)

  /** The value of the `OR` key of the where object. */
  datatype OrClause =
    | NoOr
    | TitleOrDescription(text: string)  // title or description contains the text, any case
    | Access(actor: Id)                 // creator, assignee, project member, project owner

  /** The where object handed to `task.findMany`; `None` is a key that was never set. */
  datatype TaskWhere = TaskWhere(
    status: Option<string>,
    priority: Option<string>,
    projectId: Option<Id>,
    assigneeId: Option<Id>,
    or: OrClause)

  /** The four clauses of the access `OR`, as the listing writes them. */
  predicate AccessMatches(st: Store, actor: Id, t: Task) {
    || t.creatorId == actor
    || t.assigneeId == Some(actor)
    || (ProjectOf(st, t.projectId).Some? && actor in ProjectOf(st, t.projectId).value.members)
    || (ProjectOf(st, t.projectId).Some? && ProjectOf(st, t.projectId).value.ownerId == actor)
  }

  predicate OrMatches(st: Store, c: OrClause, t: Task) {
    match c
    case NoOr => true
    case TitleOrDescription(text) =>
      ContainsInsensitive(t.title, text)
      || (t.description.Some? && ContainsInsensitive(t.description.value, text))
    case Access(actor) => AccessMatches(st, actor, t)
  }

  /** A row satisfies a where object: each equality key that is set, and the `OR`. */
  predicate Matches(st: Store, w: TaskWhere, t: Task) {
    && (w.status.Some? ==> StatusName(t.status) == w.status.value)
    && (w.priority.Some? ==> PriorityName(t.priority) == w.priority.value)
    && (w.projectId.Some? ==> t.projectId == w.projectId)
    && (w.assigneeId.Some? ==> t.assigneeId == w.assigneeId)
    && OrMatches(st, w.or, t)
  }

  /** The database accepts the enum values of the where object; an unknown name makes
      the query throw. */
  predicate EnumsValid(w: TaskWhere) {
    && (w.status.Some? ==> ParseStatus(w.status.value).Some?)
    && (w.priority.Some? ==> ParsePriority(w.priority.value).Some?)
  }

  /** The enum filters of a query string name real enum values. */
  predicate QueryEnumsValid(q: TaskQuery) {
    && (Given(q.status) ==> ParseStatus(q.status.value).Some?)
    && (Given(q.priority) ==> ParsePriority(q.priority.value).Some?)
  }

  /** What a listing returns: the tasks the actor may see that match every filter given. */
  predicate Listed(st: Store, actor: Id, q: TaskQuery, t: Task) {
    && TaskVisible(st, actor, t)
    && (Given(q.status) ==> StatusName(t.status) == q.status.value)
    && (Given(q.priority) ==> PriorityName(t.priority) == q.priority.value)
    && (q.projectId.Some? ==> t.projectId == q.projectId)
    && (q.assigneeId.Some? ==> t.assigneeId == q.assigneeId)
  }

  /** The access `OR` holds exactly for the creator, the assignee, a member of the task's
      project and the owner of the task's project. */
  lemma AccessIffVisible(st: Store, actor: Id, t: Task)
    ensures AccessMatches(st, actor, t) <==> TaskVisible(st, actor, t)
  {
  }

  /** A task without a project matches the access `OR` only for its creator or assignee. */
  lemma NoProjectAccess(st: Store, actor: Id, t: Task)
    requires t.projectId.None?
    ensures AccessMatches(st, actor, t) <==> t.creatorId == actor || t.assigneeId == Some(actor)
  {
  }

  /** Builds the where object key by key. The search clause is written to `OR` and then
      overwritten by the access clause, so the search text never reaches the query. */
  method BuildTaskWhere(actor: Id, q: TaskQuery) returns (w: TaskWhere)
    ensures w.status == (if Given(q.status) then q.status else None)
    ensures w.priority == (if Given(q.priority) then q.priority else None)
    ensures w.projectId == q.projectId && w.assigneeId == q.assigneeId
    ensures w.or == Access(actor)
    ensures EnumsValid(w) <==> QueryEnumsValid(q)
    ensures forall st, t :: Matches(st, w, t) <==> Listed(st, actor, q, t)
  {
    w := TaskWhere(None, None, None, None, NoOr);
    if Given(q.status) {
      w := w.(status := q.status);
    }
    if Given(q.priority) {
      w := w.(priority := q.priority);
    }
    if q.projectId.Some? {
      w := w.(projectId := q.projectId);
    }
    if q.assigneeId.Some? {
      w := w.(assigneeId := q.assigneeId);
    }
    if Given(q.search) {
      w := w.(or := TitleOrDescription(q.search.value));
    }
    w := w.(or := Access(actor));
  }

  /** A due date no later than another; a missing due date sorts after every date. */
  predicate DueNoLater(x: Option<int>, y: Option<int>) {
    y.None? || (x.Some? && x.value <= y.value)
  }

  /** `orderBy: [{ status: "asc" }, { priority: "desc" }, { dueDate: "asc" }]`. */
  predicate ListingOrder(a: Task, b: Task) {
    || StatusRank(a.status) < StatusRank(b.status)
    || (&& StatusRank(a.status) == StatusRank(b.status)
        && (|| PriorityRank(a.priority) > PriorityRank(b.priority)
            || (PriorityRank(a.priority) == PriorityRank(b.priority) && DueNoLater(a.dueDate, b.dueDate))))
  }

  lemma ListingOrderIsTotalPreorder()
    ensures Sorting.TotalPreorder(ListingOrder)
  {
  }

  /** `task.findMany({ where, orderBy })`: the matching rows, as often as the table holds them, in listing order. */
  function FindTasks(st: Store, w: TaskWhere): (r: seq<Task>)
    ensures multiset(r) == multiset(Seqs.Filter(st.tasks, t => Matches(st, w, t)))
    ensures forall t :: t in r <==> t in st.tasks && Matches(st, w, t)
    ensures Sorting.SortedBy(r, ListingOrder)
  {
    var selected := Seqs.Filter(st.tasks, t => Matches(st, w, t));
    ListingOrderIsTotalPreorder();
    Sorting.SortedHasFiltered(st.tasks, t => Matches(st, w, t), ListingOrder);
    Sorting.InsertionSort(selected, ListingOrder)
  }

  /** GET /api/tasks on a snapshot of the database. */
  method GetTasks(st: Store, session: Option<Id>, q: TaskQuery) returns (res: Result<seq<Task>, HttpError>)
    ensures session.None? ==> res == Failure(Unauthorized)
    ensures session.Some? && !QueryEnumsValid(q) ==> res == Failure(InternalError)
    ensures session.Some? && QueryEnumsValid(q) ==> res.Success?
    ensures res.Success? ==>
      && session.Some?
      && multiset(res.value) == multiset(Seqs.Filter(st.tasks, t => Listed(st, session.value, q, t)))
      && (forall t :: t in res.value <==> t in st.tasks && Listed(st, session.value, q, t))
      && Sorting.SortedBy(res.value, ListingOrder)
  {
    if session.None? {
      return Failure(Unauthorized);
    }
    var actor := session.value;
    var w := BuildTaskWhere(actor, q);
    if !EnumsValid(w) {
      return Failure(InternalError);
    }
    Seqs.FilterExt(st.tasks, t => Matches(st, w, t), t => Listed(st, actor, q, t));
    res := Success(FindTasks(st, w));
  }

  /** The listing does not depend on the search parameter. */
  lemma SearchIgnored(st: Store, actor: Id, q: TaskQuery, search: Option<string>)
    ensures Seqs.Filter(st.tasks, t => Listed(st, actor, q, t))
         == Seqs.Filter(st.tasks, t => Listed(st, actor, q.(search := search), t))
  {
    Seqs.FilterExt(st.tasks, t => Listed(st, actor, q, t), t => Listed(st, actor, q.(search := search), t));
  }

  /** The request body of POST /api/tasks; `None` is a key the body leaves out. */
  datatype TaskBody = TaskBody(
    title: Option<string>,
    description: Option<string>,
    status: Option<string>,
    priority: Option<string>,
    projectId: Option<Id>,
    assigneeId: Option<Id>,
    dueDate: Option<string>,
    startDate: Option<string>,
    estimatedHours: Option<real>,
    tags: Option<seq<string>>)

  /** The body once the schema accepted it, defaults filled in and dates converted. */
  datatype TaskInput = TaskInput(
    title: string,
    description: Option<string>,
    status: Status,
    priority: Priority,
    projectId: Option<Id>,
    assigneeId: Option<Id>,
    dueDate: Option<int>,
    startDate: Option<int>,
    estimatedHours: Option<real>,
    tags: seq<string>)


  /** `createTaskSchema.parse`: the title is required and not empty, status and priority
      must name enum values, the dates must be date-times. A failure is a 400. */
  function ParseTaskBody(b: TaskBody, parseDate: string -> Option<int>): (r: Result<TaskInput, HttpError>)
    ensures r.Failure? ==> r.error == BadRequest
    ensures r.Success? <==>
      && b.title.Some? && |b.title.value| >= 1
      && (b.status.Some? ==> ParseStatus(b.status.value).Some?)
      && (b.priority.Some? ==> ParsePriority(b.priority.value).Some?)
      && DateOk(b.dueDate, parseDate) && DateOk(b.startDate, parseDate)
    ensures r.Success? ==>
      && r.value.title == b.title.value
      && (b.status.None? ==> r.value.status == TODO)
      && (b.status.Some? ==> StatusName(r.value.status) == b.status.value)
      && (b.priority.None? ==> r.value.priority == MEDIUM)
      && (b.priority.Some? ==> PriorityName(r.value.priority) == b.priority.value)
      && (b.tags.None? ==> r.value.tags == [])
      && (b.tags.Some? ==> r.value.tags == b.tags.value)
      && (b.dueDate.None? <==> r.value.dueDate.None?)
      && (b.dueDate.Some? ==> parseDate(b.dueDate.value) == r.value.dueDate)
      && (b.startDate.None? <==> r.value.startDate.None?)
      && (b.startDate.Some? ==> parseDate(b.startDate.value) == r.value.startDate)
      && r.value.description == b.description
      && r.value.projectId == b.projectId && r.value.assigneeId == b.assigneeId
      && r.value.estimatedHours == b.estimatedHours
  {
    if b.title.None? || |b.title.value| < 1 then Failure(BadRequest)
    else if b.status.Some? && ParseStatus(b.status.value).None? then Failure(BadRequest)
    else if b.priority.Some? && ParsePriority(b.priority.value).None? then Failure(BadRequest)
    else if !DateOk(b.dueDate, parseDate) || !DateOk(b.startDate, parseDate) then Failure(BadRequest)
    else
      Success(TaskInput(
        b.title.value,
        b.description,
        if b.status.None? then TODO else ParseStatus(b.status.value).value,
        if b.priority.None? then MEDIUM else ParsePriority(b.priority.value).value,
        b.projectId,
        b.assigneeId,
        ConvertDate(b.dueDate, parseDate),
        ConvertDate(b.startDate, parseDate),
        b.estimatedHours,
        b.tags.GetOr([])))
  }

  /** The `project.findFirst` of the gate: a project with that key the actor owns or belongs to. */
  predicate ProjectAccessible(st: Store, pid: Id, actor: Id) {
    exists p :: p in st.projects && p.id == pid && OwnerOrMember(p, actor)
  }

  /** On a table with unique keys the gate is the project the key names, owned or joined
      by the actor; a key that names no project fails it. */
  lemma ProjectAccessibleIffFound(st: Store, pid: Id, actor: Id)
    requires UniqueKeys(st)
    ensures ProjectAccessible(st, pid, actor) <==>
              FindProject(st.projects, pid).Some? && OwnerOrMember(FindProject(st.projects, pid).value, actor)
  {
    if ProjectAccessible(st, pid, actor) {
      var p :| p in st.projects && p.id == pid && OwnerOrMember(p, actor);
      FindProjectUnique(st, p);
    }
  }

  /** The row `task.create` is given (its key is assigned by the database). */
  function NewTask(input: TaskInput, actor: Id): (t: Task)
    ensures t.creatorId == actor
  {
    Task(0, input.title, input.description, input.status, input.priority, input.projectId,
         input.assigneeId, actor, input.dueDate, input.startDate, input.estimatedHours, input.tags)
  }

  /** The log entry written after a task is created. */
  function TaskCreated(actor: Id, t: Task, now: int): (a: Activity)
    ensures a.kind == "created" && a.userId == actor
    ensures a.taskId == Some(t.id) && a.projectId == t.projectId
  {
    Activity("created", "Created task \"" + t.title + "\"", actor, Some(t.id), t.projectId, now)
  }

  /** POST /api/tasks. `now` is the database clock when the activity row is inserted. */
  method PostTask(db: Database, session: Option<Id>, body: TaskBody,
                  parseDate: string -> Option<int>, now: int) returns (res: Result<Task, HttpError>)
    requires db.Valid()
    modifies db
    ensures db.Valid()
    ensures res.Failure? ==> db.Snapshot() == old(db.Snapshot())
    ensures session.None? ==> res == Failure(Unauthorized)
    ensures session.Some? && ParseTaskBody(body, parseDate).Failure? ==> res == Failure(BadRequest)
    ensures session.Some? && ParseTaskBody(body, parseDate).Success? ==>
      var input := ParseTaskBody(body, parseDate).value;
      && ((input.projectId.Some? && !ProjectAccessible(old(db.Snapshot()), input.projectId.value, session.value))
          ==> res == Failure(Forbidden))
      && (((input.projectId.Some? ==> ProjectAccessible(old(db.Snapshot()), input.projectId.value, session.value))
           && res.Failure?) ==> res == Failure(InternalError))
      && (res.Success? <==>
            (input.projectId.Some? ==> ProjectAccessible(old(db.Snapshot()), input.projectId.value, session.value))
            && TaskRefsOk(old(db.Snapshot()), NewTask(input, session.value)))
    ensures res.Success? ==>
      && session.Some? && ParseTaskBody(body, parseDate).Success?
      && res.value == NewTask(ParseTaskBody(body, parseDate).value, session.value).(id := res.value.id)
      && res.value.creatorId == session.value
      && (body.status.None? ==> res.value.status == TODO)
      && (body.priority.None? ==> res.value.priority == MEDIUM)
      && (body.tags.None? ==> res.value.tags == [])
      && (body.dueDate.None? ==> res.value.dueDate.None?)
      && (body.startDate.None? ==> res.value.startDate.None?)
      && res.value.id !in TaskIds(old(db.Snapshot()))
      && db.tasks == old(db.tasks) + [res.value]
      && db.activities == old(db.activities) + [TaskCreated(session.value, res.value, now)]
      && db.users == old(db.users) && db.projects == old(db.projects)
  {
    if session.None? {
      return Failure(Unauthorized);
    }
    var actor := session.value;
    var parsed := ParseTaskBody(body, parseDate);
    if parsed.Failure? {
      return Failure(parsed.error);
    }
    var input := parsed.value;
    if input.projectId.Some? && !ProjectAccessible(db.Snapshot(), input.projectId.value, actor) {
      return Failure(Forbidden);
    }
    var created := db.CreateTask(NewTask(input, actor));
    if created.None? {
      return Failure(InternalError);
    }
    var task := created.value;
    var logged := db.CreateActivity(TaskCreated(actor, task, now));
    // cannot fail: task.create has just checked every key the entry refers to
    assert logged by {
      assert task in db.tasks;
      assert task.projectId.Some? ==> task.projectId.value in ProjectIds(db.Snapshot());
    }
    res := Success(task);
  }
}
