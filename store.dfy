/** The database the routes read and write: users, projects, tasks and the append-only
    activity log, with the integrity the database enforces (unique keys, foreign keys).
    Timestamps are integer milliseconds; record ids are naturals handed out by a counter. */
module Store {
  import opened Wrappers

  type Id = nat

  datatype Role = USER | MANAGER | ADMIN

  datatype Status = TODO | IN_PROGRESS | IN_REVIEW | COMPLETED | CANCELLED

  datatype Priority = LOW | MEDIUM | HIGH | URGENT

  /** The statuses and priorities in declaration order, the order the database sorts them in. */
  const AllStatuses: seq<Status> := [TODO, IN_PROGRESS, IN_REVIEW, COMPLETED, CANCELLED]
  const AllPriorities: seq<Priority> := [LOW, MEDIUM, HIGH, URGENT]

  function StatusName(s: Status): string {
    match s
    case TODO => "TODO"
    case IN_PROGRESS => "IN_PROGRESS"
    case IN_REVIEW => "IN_REVIEW"
    case COMPLETED => "COMPLETED"
    case CANCELLED => "CANCELLED"
  }

  /** The status a string names, if any (the enum check of the schema and of the database). */
  function ParseStatus(name: string): (r: Option<Status>)
    ensures r.Some? ==> StatusName(r.value) == name
    ensures r.None? ==> forall s :: StatusName(s) != name
  {
    if name == "TODO" then Some(TODO)
    else if name == "IN_PROGRESS" then Some(IN_PROGRESS)
    else if name == "IN_REVIEW" then Some(IN_REVIEW)
    else if name == "COMPLETED" then Some(COMPLETED)
    else if name == "CANCELLED" then Some(CANCELLED)
    else None
  }

  function PriorityName(p: Priority): string {
    match p
    case LOW => "LOW"
    case MEDIUM => "MEDIUM"
    case HIGH => "HIGH"
    case URGENT => "URGENT"
  }

  /** The priority a string names, if any. */
  function ParsePriority(name: string): (r: Option<Priority>)
    ensures r.Some? ==> PriorityName(r.value) == name
    ensures r.None? ==> forall p :: PriorityName(p) != name
  {
    if name == "LOW" then Some(LOW)
    else if name == "MEDIUM" then Some(MEDIUM)
    else if name == "HIGH" then Some(HIGH)
    else if name == "URGENT" then Some(URGENT)
    else None
  }

  /** Each enum value is named by exactly one string, and parsing that string gives it back. */
  lemma NamesRoundTrip(s: Status, p: Priority)
    ensures ParseStatus(StatusName(s)) == Some(s)
    ensures ParsePriority(PriorityName(p)) == Some(p)
  {
  }

  /** Position of a status in declaration order. */
  function StatusRank(s: Status): (n: nat)
    ensures n < |AllStatuses| && AllStatuses[n] == s
  {
    match s
    case TODO => 0
    case IN_PROGRESS => 1
    case IN_REVIEW => 2
    case COMPLETED => 3
    case CANCELLED => 4
  }

  /** Position of a priority in declaration order. */
  function PriorityRank(p: Priority): (n: nat)
    ensures n < |AllPriorities| && AllPriorities[n] == p
  {
    match p
    case LOW => 0
    case MEDIUM => 1
    case HIGH => 2
    case URGENT => 3
  }

  datatype User = User(
    id: Id,
    email: string,
    name: string,
    password: Option<string>,  // the stored bcrypt hash; null for accounts without one
    role: Role,
    avatar: Option<string>,
    jobTitle: Option<string>,
    department: Option<string>)

  datatype Project = Project(
    id: Id,
    name: string,
    description: Option<string>,
    color: string,
    startDate: Option<int>,
    endDate: Option<int>,
    ownerId: Id,
    members: set<Id>,
    isArchived: bool,
    createdAt: int)

  datatype Task = Task(
    id: Id,
    title: string,
    description: Option<string>,
    status: Status,
    priority: Priority,
    projectId: Option<Id>,
    assigneeId: Option<Id>,
    creatorId: Id,
    dueDate: Option<int>,
    startDate: Option<int>,
    estimatedHours: Option<real>,
    tags: seq<string>)

  /** One entry of the audit log; `kind` is the log's `type` column. */
  datatype Activity = Activity(
    kind: string,
    content: string,
    userId: Id,
    taskId: Option<Id>,
    projectId: Option<Id>,
    createdAt: int)

  /** A snapshot of the tables, in the order the database returns unordered rows. */
  datatype Store = Store(
    users: seq<User>,
    projects: seq<Project>,
    tasks: seq<Task>,
    activities: seq<Activity>)

  /** An optional date string: absent, or an ISO date-time (`parseDate` is the
      `.datetime()` check together with `new Date`). */
  predicate DateOk(d: Option<string>, parseDate: string -> Option<int>) {
    d.None? || parseDate(d.value).Some?
  }

  function ConvertDate(d: Option<string>, parseDate: string -> Option<int>): (r: Option<int>)
    requires DateOk(d, parseDate)
    ensures d.None? ==> r.None?
    ensures d.Some? ==> parseDate(d.value) == r
  {
    if d.None? then None else parseDate(d.value)
  }
  function UserIds(st: Store): set<Id> {
    set u | u in st.users :: u.id
  }

  function ProjectIds(st: Store): set<Id> {
    set p | p in st.projects :: p.id
  }

  function TaskIds(st: Store): set<Id> {
    set t | t in st.tasks :: t.id
  }

  /** The project with primary key `id`, if the table holds one. */
  function FindProject(ps: seq<Project>, id: Id): (r: Option<Project>)
    ensures r.Some? ==> r.value in ps && r.value.id == id
    ensures r.None? ==> forall p :: p in ps ==> p.id != id
  {
    if ps == [] then None
    else if ps[0].id == id then Some(ps[0])
    else FindProject(ps[1..], id)
  }

  /** The project referenced by a nullable foreign key, as a relation filter sees it:
      a null key or a dangling one has no project. */
  function ProjectOf(st: Store, id: Option<Id>): Option<Project> {
    if id.None? then None else FindProject(st.projects, id.value)
  }

  /** The `OR: [{ ownerId }, { members: { some: { id } } }]` clause on a project. */
  predicate OwnerOrMember(p: Project, actor: Id) {
    p.ownerId == actor || actor in p.members
  }

  /** Who may see a task: its creator, its assignee, and the owner and members of its
      project. A task without a project has only the first two. */
  predicate TaskVisible(st: Store, actor: Id, t: Task) {
    || t.creatorId == actor
    || t.assigneeId == Some(actor)
    || (var p := ProjectOf(st, t.projectId); p.Some? && OwnerOrMember(p.value, actor))
  }

  ghost predicate UniqueKeys(st: Store) {
    && (forall i, j :: 0 <= i < j < |st.users| ==> st.users[i].id != st.users[j].id)
    && (forall i, j :: 0 <= i < j < |st.users| ==> st.users[i].email != st.users[j].email)
    && (forall i, j :: 0 <= i < j < |st.projects| ==> st.projects[i].id != st.projects[j].id)
    && (forall i, j :: 0 <= i < j < |st.tasks| ==> st.tasks[i].id != st.tasks[j].id)
  }

  /** The foreign keys of a task row point at existing rows. */
  predicate TaskRefsOk(st: Store, t: Task) {
    && t.creatorId in UserIds(st)
    && (t.assigneeId.Some? ==> t.assigneeId.value in UserIds(st))
    && (t.projectId.Some? ==> t.projectId.value in ProjectIds(st))
  }

  /** The foreign keys of a project row (owner, member join rows) point at existing users. */
  predicate ProjectRefsOk(st: Store, p: Project) {
    p.ownerId in UserIds(st) && p.members <= UserIds(st)
  }

  /** The foreign keys of an activity row point at existing rows. */
  predicate ActivityRefsOk(st: Store, a: Activity) {
    && a.userId in UserIds(st)
    && (a.taskId.Some? ==> a.taskId.value in TaskIds(st))
    && (a.projectId.Some? ==> a.projectId.value in ProjectIds(st))
  }

  ghost predicate ForeignKeys(st: Store) {
    && (forall p :: p in st.projects ==> ProjectRefsOk(st, p))
    && (forall t :: t in st.tasks ==> TaskRefsOk(st, t))
    && (forall a :: a in st.activities ==> ActivityRefsOk(st, a))
  }

  /** What the database's constraints guarantee of every snapshot. */
  ghost predicate Consistent(st: Store) {
    UniqueKeys(st) && ForeignKeys(st)
  }

  /** In a consistent snapshot the project a key names is the only one with that key. */
  lemma {:induction false} FindProjectUnique(st: Store, p: Project)
    requires UniqueKeys(st)
    requires p in st.projects
    ensures FindProject(st.projects, p.id) == Some(p)
  {
    var i :| 0 <= i < |st.projects| && st.projects[i] == p;
    FindProjectAt(st.projects, i);
  }

  /** With unique keys, looking up the key of row `i` finds row `i`. */
  lemma {:induction false} FindProjectAt(ps: seq<Project>, i: nat)
    requires i < |ps|
    requires forall a, b :: 0 <= a < b < |ps| ==> ps[a].id != ps[b].id
    ensures FindProject(ps, ps[i].id) == Some(ps[i])
  {
    if i > 0 {
      assert ps[0].id != ps[i].id;
      FindProjectAt(ps[1..], i - 1);
    }
  }

  /** The project table after `connect: { id: uid }` on the members of project `pid`. */
  function Connect(ps: seq<Project>, pid: Id, uid: Id): (r: seq<Project>)
    ensures |r| == |ps|
    ensures forall i :: 0 <= i < |ps| ==>
      r[i] == if ps[i].id == pid then ps[i].(members := ps[i].members + {uid}) else ps[i]
  {
    if ps == [] then []
    else
      var p := ps[0];
      [if p.id == pid then p.(members := p.members + {uid}) else p] + Connect(ps[1..], pid, uid)
  }

  /** Connecting keeps the key of every row, so the set of keys. */
  lemma ConnectKeepsKeys(ps: seq<Project>, pid: Id, uid: Id)
    ensures (set q | q in Connect(ps, pid, uid) :: q.id) == (set p | p in ps :: p.id)
  {
    var r := Connect(ps, pid, uid);
    forall p | p in ps ensures p.id in (set q | q in r :: q.id) {
      var i :| 0 <= i < |ps| && ps[i] == p;
      assert r[i] in r;
    }
    forall q | q in r ensures q.id in (set p | p in ps :: p.id) {
      var i :| 0 <= i < |r| && r[i] == q;
      assert ps[i] in ps;
    }
  }

  /** Every connected row is some row of the table, possibly with one more member. */
  lemma ConnectRow(ps: seq<Project>, pid: Id, uid: Id, q: Project) returns (p: Project)
    requires q in Connect(ps, pid, uid)
    ensures p in ps && q.id == p.id && q.ownerId == p.ownerId && q.members <= p.members + {uid}
  {
    var r := Connect(ps, pid, uid);
    var i :| 0 <= i < |r| && r[i] == q;
    p := ps[i];
  }

  /** Connecting keeps the keys of the table distinct. */
  lemma ConnectKeepsUnique(ps: seq<Project>, pid: Id, uid: Id)
    requires forall i, j :: 0 <= i < j < |ps| ==> ps[i].id != ps[j].id
    ensures var r := Connect(ps, pid, uid);
      forall i, j :: 0 <= i < j < |r| ==> r[i].id != r[j].id
  {
  }

  /** Connecting an existing user keeps the owner and member references and the key bound. */
  lemma ConnectKeepsRefs(st: Store, pid: Id, uid: Id, bound: Id)
    requires forall p :: p in st.projects ==> ProjectRefsOk(st, p) && p.id < bound
    requires uid in UserIds(st)
    ensures forall q :: q in Connect(st.projects, pid, uid) ==> ProjectRefsOk(st, q) && q.id < bound
  {
    forall q | q in Connect(st.projects, pid, uid) ensures ProjectRefsOk(st, q) && q.id < bound {
      var p := ConnectRow(st.projects, pid, uid, q);
    }
  }

  /** Connecting an existing user keeps every key and every constraint of the snapshot. */
  lemma ConnectKeepsConsistent(st: Store, pid: Id, uid: Id, bound: Id)
    requires Consistent(st)
    requires uid in UserIds(st)
    requires forall p :: p in st.projects ==> p.id < bound
    ensures var st' := st.(projects := Connect(st.projects, pid, uid));
      && Consistent(st')
      && ProjectIds(st') == ProjectIds(st)
      && forall p :: p in st'.projects ==> p.id < bound
  {
    var st' := st.(projects := Connect(st.projects, pid, uid));
    ConnectKeepsKeys(st.projects, pid, uid);
    ConnectKeepsUnique(st.projects, pid, uid);
    ConnectKeepsRefs(st, pid, uid, bound);
    assert UserIds(st') == UserIds(st) && TaskIds(st') == TaskIds(st);
    assert ProjectIds(st') == ProjectIds(st);
  }

  /** The tables, updated in place by the create and update calls. */
  class Database {
    var users: seq<User>
    var projects: seq<Project>
    var tasks: seq<Task>
    var activities: seq<Activity>
    var nextId: Id  // the key the next created task or project receives

    function Snapshot(): Store
      reads this
    {
      Store(users, projects, tasks, activities)
    }

    ghost predicate Valid()
      reads this
    {
      && Consistent(Snapshot())
      && (forall p :: p in projects ==> p.id < nextId)
      && (forall t :: t in tasks ==> t.id < nextId)
    }

    /** A database holding the registered users and nothing else. */
    constructor (registered: seq<User>)
      requires UniqueKeys(Store(registered, [], [], []))
      ensures Valid()
      ensures Snapshot() == Store(registered, [], [], [])
    {
      users, projects, tasks, activities := registered, [], [], [];
      nextId := 0;
    }

    /** `task.create`: inserts `t` under a fresh key, or fails on a dangling foreign key. */
    method CreateTask(t: Task) returns (created: Option<Task>)
      requires Valid()
      modifies this
      ensures Valid()
      ensures created.Some? <==> TaskRefsOk(old(Snapshot()), t)
      ensures created.Some? ==>
        && created.value == t.(id := old(nextId))
        && created.value.id !in TaskIds(old(Snapshot()))
        && tasks == old(tasks) + [created.value]
        && users == old(users) && projects == old(projects) && activities == old(activities)
      ensures created.None? ==> Snapshot() == old(Snapshot())
    {
      if !TaskRefsOk(Snapshot(), t) {
        return None;
      }
      var row := t.(id := nextId);
      ghost var before := Snapshot();
      tasks := tasks + [row];
      nextId := nextId + 1;
      assert forall u :: u in before.tasks ==> u in tasks;
      assert UserIds(Snapshot()) == UserIds(before) && ProjectIds(Snapshot()) == ProjectIds(before);
      assert TaskIds(before) <= TaskIds(Snapshot());
      created := Some(row);
    }

    /** `project.create`: inserts `p` under a fresh key, or fails on a dangling foreign key. */
    method CreateProject(p: Project) returns (created: Option<Project>)
      requires Valid()
      modifies this
      ensures Valid()
      ensures created.Some? <==> ProjectRefsOk(old(Snapshot()), p)
      ensures created.Some? ==>
        && created.value == p.(id := old(nextId))
        && created.value.id !in ProjectIds(old(Snapshot()))
        && projects == old(projects) + [created.value]
        && users == old(users) && tasks == old(tasks) && activities == old(activities)
      ensures created.None? ==> Snapshot() == old(Snapshot())
    {
      if !ProjectRefsOk(Snapshot(), p) {
        return None;
      }
      var row := p.(id := nextId);
      ghost var before := Snapshot();
      projects := projects + [row];
      nextId := nextId + 1;
      assert forall q :: q in before.projects ==> q in projects;
      assert UserIds(Snapshot()) == UserIds(before) && TaskIds(Snapshot()) == TaskIds(before);
      assert ProjectIds(before) <= ProjectIds(Snapshot());
      created := Some(row);
    }

    /** `activity.create`: appends `a` to the log, or fails on a dangling foreign key. */
    method CreateActivity(a: Activity) returns (ok: bool)
      requires Valid()
      modifies this
      ensures Valid()
      ensures ok <==> ActivityRefsOk(old(Snapshot()), a)
      ensures ok ==> activities == old(activities) + [a]
      ensures users == old(users) && projects == old(projects) && tasks == old(tasks)
      ensures nextId == old(nextId)
      ensures !ok ==> activities == old(activities)
    {
      ok := ActivityRefsOk(Snapshot(), a);
      if ok {
        activities := activities + [a];
      }
    }

    /** `project.update` with `members: { connect: { id: uid } }`; fails when either key
        names no row. */
    method ConnectMember(pid: Id, uid: Id) returns (ok: bool)
      requires Valid()
      modifies this
      ensures Valid()
      ensures ok <==> pid in ProjectIds(old(Snapshot())) && uid in UserIds(old(Snapshot()))
      ensures projects == if ok then Connect(old(projects), pid, uid) else old(projects)
      ensures users == old(users) && tasks == old(tasks) && activities == old(activities)
      ensures nextId == old(nextId)
    {
      ok := pid in ProjectIds(Snapshot()) && uid in UserIds(Snapshot());
      if ok {
        ConnectKeepsConsistent(Snapshot(), pid, uid, nextId);
        projects := Connect(projects, pid, uid);
      }
    }
  }
}
