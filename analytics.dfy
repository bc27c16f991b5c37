/** GET /api/analytics: the dashboard's counts, groups and short lists, all computed from
    one snapshot of the database for one user at one instant `now`. */
module AnalyticsRoute {
  import opened Wrappers
  import opened Store
  import opened Http
  import Seqs
  import Sorting
  import TasksRoute
  import ProjectsRoute

  /** `7 * 24 * 60 * 60 * 1000`: the upcoming window, in milliseconds. */
  const Week: int := 604800000

  /** `userTasksWhere`, the route's own copy of the task access disjunction. */
  predicate UserTasksWhere(st: Store, actor: Id, t: Task) {
    || t.creatorId == actor
    || t.assigneeId == Some(actor)
    || (ProjectOf(st, t.projectId).Some? && actor in ProjectOf(st, t.projectId).value.members)
    || (ProjectOf(st, t.projectId).Some? && ProjectOf(st, t.projectId).value.ownerId == actor)
  }

  function Involved(st: Store, actor: Id): Task -> bool {
    (t: Task) => UserTasksWhere(st, actor, t)
  }

  function InvolvedWithStatus(st: Store, actor: Id, s: Status): Task -> bool {
    (t: Task) => UserTasksWhere(st, actor, t) && t.status == s
  }

  function InvolvedOpen(st: Store, actor: Id): Task -> bool {
    (t: Task) => UserTasksWhere(st, actor, t) && t.status != COMPLETED
  }

  /** `dueDate: { lt: now }, status: { not: "COMPLETED" }`; a null due date is never overdue. */
  function Overdue(st: Store, actor: Id, now: int): Task -> bool {
    (t: Task) => UserTasksWhere(st, actor, t) && t.dueDate.Some? && t.dueDate.value < now && t.status != COMPLETED
  }

  /** The `myTasks` condition: assigned to the actor and not completed, with no access clause. */
  function AssignedOpen(actor: Id): Task -> bool {
    (t: Task) => t.assigneeId == Some(actor) && t.status != COMPLETED
  }

  /** The upcoming window: due between `now` and a week later, both ends included. */
  function Upcoming(st: Store, actor: Id, now: int): Task -> bool {
    (t: Task) => && UserTasksWhere(st, actor, t)
         && t.dueDate.Some? && now <= t.dueDate.value <= now + Week
         && t.status != COMPLETED
  }

  /** Activity visibility: the actor's own entries and entries of projects the actor
      belongs to or owns. */
  predicate ActivityVisible(st: Store, actor: Id, a: Activity) {
    || a.userId == actor
    || (ProjectOf(st, a.projectId).Some? && actor in ProjectOf(st, a.projectId).value.members)
    || (ProjectOf(st, a.projectId).Some? && ProjectOf(st, a.projectId).value.ownerId == actor)
  }

  function SeesActivity(st: Store, actor: Id): Activity -> bool {
    (a: Activity) => ActivityVisible(st, actor, a)
  }

  /** The `totalProjects` condition: owner or member, and not archived. */
  function ActiveProjectOf(actor: Id): Project -> bool {
    (p: Project) => OwnerOrMember(p, actor) && !p.isArchived
  }

  /** `orderBy: { createdAt: "desc" }` on the log. */
  predicate NewerFirst(a: Activity, b: Activity) {
    a.createdAt >= b.createdAt
  }

  /** `orderBy: { dueDate: "asc" }`. */
  predicate EarlierDue(a: Task, b: Task) {
    TasksRoute.DueNoLater(a.dueDate, b.dueDate)
  }

  lemma OrdersAreTotalPreorders()
    ensures Sorting.TotalPreorder(NewerFirst)
    ensures Sorting.TotalPreorder(EarlierDue)
  {
  }

  /** `Math.round(completed / total * 100)` when there are tasks, else 0, in exact
      arithmetic: the nearest integer to the percentage, halves rounded up. */
  function CompletionRate(completed: nat, total: nat): (rate: nat)
    ensures total == 0 ==> rate == 0
    ensures total > 0 ==> RoundedPercent(completed, total, rate)
    ensures completed <= total ==> rate <= 100
  {
    if total > 0 then
      RoundingFacts(completed, total);
      (200 * completed + total) / (2 * total)
    else 0
  }

  /** `rate` is 100 * completed / total rounded to the nearest integer, halves up. */
  predicate RoundedPercent(completed: nat, total: nat, rate: nat) {
    2 * total * rate <= 200 * completed + total < 2 * total * (rate + 1)
  }

  /** The quotient brackets the doubled percentage, and stays within 100. */
  lemma RoundingFacts(c: nat, t: nat)
    requires t > 0
    ensures var q := (200 * c + t) / (2 * t);
      && 2 * t * q <= 200 * c + t < 2 * t * (q + 1)
      && (c <= t ==> q <= 100)
  {
    var n, d := 200 * c + t, 2 * t;
    var q := n / d;
    assert n == d * q + n % d;
    assert d * (q + 1) == d * q + d;
    if c <= t && q > 100 {
      MulMonotone(d, 101, q);
      assert false;
    }
  }

  datatype Summary = Summary(
    totalTasks: nat,
    completedTasks: nat,
    overdueTasks: nat,
    myTasks: nat,
    totalProjects: nat,
    completionRate: nat)

  datatype Dashboard = Dashboard(
    summary: Summary,
    tasksByStatus: seq<(Status, nat)>,
    tasksByPriority: seq<(Priority, nat)>,
    recentActivities: seq<Activity>,
    upcomingTasks: seq<Task>)

  /** The ten newest entries of the log the actor may see. */
  function RecentActivities(st: Store, actor: Id): (r: seq<Activity>)
    ensures |r| <= 10
    ensures forall a :: a in r ==> a in st.activities && ActivityVisible(st, actor, a)
  {
    OrdersAreTotalPreorders();
    var sorted := Sorting.InsertionSort(Seqs.Filter(st.activities, SeesActivity(st, actor)), NewerFirst);
    Sorting.SortedHasFiltered(st.activities, SeesActivity(st, actor), NewerFirst);
    Sorting.TakeOfSorted(sorted, NewerFirst, 10);
    Seqs.Take(sorted, 10)
  }

  /** The five open tasks of the actor due soonest within the coming week. */
  function UpcomingTasks(st: Store, actor: Id, now: int): (r: seq<Task>)
    ensures |r| <= 5
    ensures forall t :: t in r ==> t in st.tasks && Upcoming(st, actor, now)(t)
  {
    OrdersAreTotalPreorders();
    var sorted := Sorting.InsertionSort(Seqs.Filter(st.tasks, Upcoming(st, actor, now)), EarlierDue);
    Sorting.SortedHasFiltered(st.tasks, Upcoming(st, actor, now), EarlierDue);
    Sorting.TakeOfSorted(sorted, EarlierDue, 5);
    Seqs.Take(sorted, 5)
  }

  /** The dashboard of `actor`. */
  function Analytics(st: Store, actor: Id, now: int): (d: Dashboard)
    ensures d.summary.completedTasks <= d.summary.totalTasks
    ensures d.summary.completionRate <= 100
    ensures |d.recentActivities| <= 10 && |d.upcomingTasks| <= 5
  {
    var total := Seqs.Count(st.tasks, Involved(st, actor));
    var completed := Seqs.Count(st.tasks, InvolvedWithStatus(st, actor, COMPLETED));
    Seqs.CountMono(st.tasks, InvolvedWithStatus(st, actor, COMPLETED), Involved(st, actor));
    Dashboard(
      Summary(
        total,
        completed,
        Seqs.Count(st.tasks, Overdue(st, actor, now)),
        Seqs.Count(st.tasks, AssignedOpen(actor)),
        Seqs.Count(st.projects, ActiveProjectOf(actor)),
        CompletionRate(completed, total)),
      Seqs.GroupCounts(Seqs.Filter(st.tasks, Involved(st, actor)), (t: Task) => t.status, AllStatuses),
      Seqs.GroupCounts(Seqs.Filter(st.tasks, Involved(st, actor)), (t: Task) => t.priority, AllPriorities),
      RecentActivities(st, actor),
      UpcomingTasks(st, actor, now))
  }

  /** GET /api/analytics. */
  function GetAnalytics(st: Store, session: Option<Id>, now: int): (r: Result<Dashboard, HttpError>)
    ensures r.Failure? <==> session.None?
    ensures r.Failure? ==> r.error == Unauthorized
    ensures r.Success? ==> r.value == Analytics(st, session.value, now)
  {
    if session.None? then Failure(Unauthorized) else Success(Analytics(st, session.value, now))
  }

  /** `userTasksWhere` is the listing's access disjunction. */
  lemma UserTasksWhereIsListingAccess(st: Store, actor: Id, t: Task)
    ensures UserTasksWhere(st, actor, t) <==> TasksRoute.AccessMatches(st, actor, t)
    ensures UserTasksWhere(st, actor, t) <==> TaskVisible(st, actor, t)
  {
  }

  /** `totalTasks` is the length of the actor's unfiltered task listing. */
  lemma TotalTasksIsListingLength(st: Store, actor: Id, now: int)
    ensures Analytics(st, actor, now).summary.totalTasks
         == |Seqs.Filter(st.tasks, t => TasksRoute.Listed(st, actor, TasksRoute.TaskQuery(None, None, None, None, None), t))|
  {
    Seqs.FilterExt(st.tasks, Involved(st, actor),
                   t => TasksRoute.Listed(st, actor, TasksRoute.TaskQuery(None, None, None, None, None), t));
  }

  /** Completed and overdue tasks are among the actor's tasks; so are the open tasks
      assigned to the actor, although `myTasks` is counted without the access clause. */
  lemma {:induction false} CountsBounded(st: Store, actor: Id, now: int)
    ensures var s := Analytics(st, actor, now).summary;
      && s.completedTasks <= s.totalTasks
      && s.overdueTasks <= s.totalTasks
      && s.myTasks <= s.totalTasks - s.completedTasks
  {
    var s := Analytics(st, actor, now).summary;
    Seqs.CountMono(st.tasks, InvolvedWithStatus(st, actor, COMPLETED), Involved(st, actor));
    Seqs.CountMono(st.tasks, Overdue(st, actor, now), Involved(st, actor));
    Seqs.CountSplit(st.tasks, Involved(st, actor), InvolvedWithStatus(st, actor, COMPLETED), InvolvedOpen(st, actor));
    Seqs.CountMono(st.tasks, AssignedOpen(actor), InvolvedOpen(st, actor));
  }

  /** The rate is 0 without tasks, lies in 0..100, and is the percentage rounded to the
      nearest integer. */
  lemma CompletionRateRounds(st: Store, actor: Id, now: int)
    ensures var s := Analytics(st, actor, now).summary;
      && (s.totalTasks == 0 ==> s.completionRate == 0)
      && 0 <= s.completionRate <= 100
      && (s.totalTasks > 0 ==> RoundedPercent(s.completedTasks, s.totalTasks, s.completionRate))
  {
    CountsBounded(st, actor, now);
  }

  lemma MulMonotone(d: nat, a: nat, b: nat)
    requires a <= b
    ensures d * a <= d * b
  {
    assert d * b == d * a + d * (b - a);
  }

  /** The status groups, and the priority groups, add up to `totalTasks`. */
  lemma GroupsSumToTotal(st: Store, actor: Id, now: int)
    ensures var d := Analytics(st, actor, now);
      && Seqs.SumCounts(d.tasksByStatus) == d.summary.totalTasks
      && Seqs.SumCounts(d.tasksByPriority) == d.summary.totalTasks
  {
    var involved := Seqs.Filter(st.tasks, Involved(st, actor));
    assert Seqs.Distinct(AllStatuses);
    assert Seqs.Distinct(AllPriorities);
    forall t | t in involved ensures t.status in AllStatuses && t.priority in AllPriorities {
      var i, j := StatusRank(t.status), PriorityRank(t.priority);
    }
    Seqs.GroupCountsTotal(involved, (t: Task) => t.status, AllStatuses);
    Seqs.GroupCountsTotal(involved, (t: Task) => t.priority, AllPriorities);
  }

  /** At most ten entries, all visible to the actor, newest first, and no visible entry
      left out is newer than one shown. */
  lemma RecentActivitiesNewest(st: Store, actor: Id, now: int)
    ensures var r := Analytics(st, actor, now).recentActivities;
      && |r| <= 10
      && (forall a :: a in r ==> a in st.activities && ActivityVisible(st, actor, a))
      && Sorting.SortedBy(r, NewerFirst)
      && (forall a :: a in st.activities && ActivityVisible(st, actor, a) && a !in r ==>
            |r| == 10 && forall b :: b in r ==> b.createdAt >= a.createdAt)
  {
    OrdersAreTotalPreorders();
    var sorted := Sorting.InsertionSort(Seqs.Filter(st.activities, SeesActivity(st, actor)), NewerFirst);
    Sorting.SortedHasFiltered(st.activities, SeesActivity(st, actor), NewerFirst);
    Sorting.TakeOfSorted(sorted, NewerFirst, 10);
  }


  /** At most five tasks, each one the actor's, open and due within the week, earliest due
      first, and no qualifying task left out is due before one shown. */
  lemma UpcomingTasksInWindow(st: Store, actor: Id, now: int)
    ensures var u := Analytics(st, actor, now).upcomingTasks;
      && |u| <= 5
      && (forall t :: t in u ==>
            && t in st.tasks && TaskVisible(st, actor, t) && t.status != COMPLETED
            && t.dueDate.Some? && now <= t.dueDate.value <= now + Week)
      && Sorting.SortedBy(u, EarlierDue)
      && (forall t :: t in st.tasks && Upcoming(st, actor, now)(t) && t !in u ==>
            |u| == 5 && forall v :: v in u ==> v.dueDate.value <= t.dueDate.value)
  {
    OrdersAreTotalPreorders();
    var sorted := Sorting.InsertionSort(Seqs.Filter(st.tasks, Upcoming(st, actor, now)), EarlierDue);
    Sorting.SortedHasFiltered(st.tasks, Upcoming(st, actor, now), EarlierDue);
    Sorting.TakeOfSorted(sorted, EarlierDue, 5);
    var u := Seqs.Take(sorted, 5);
    forall t | t in u ensures TaskVisible(st, actor, t) {
      UserTasksWhereIsListingAccess(st, actor, t);
    }
  }

  /** `totalProjects` is the length of the actor's default project listing. */
  lemma TotalProjectsIsListingLength(st: Store, actor: Id, now: int)
    ensures ProjectsRoute.GetProjects(st, Some(actor), None).Success?
    ensures Analytics(st, actor, now).summary.totalProjects
         == |ProjectsRoute.GetProjects(st, Some(actor), None).value|
  {
    var listed := (p: Project) => ProjectsRoute.ProjectListed(p, actor, ProjectsRoute.IncludeArchived(None));
    var r := ProjectsRoute.GetProjects(st, Some(actor), None).value;
    assert |r| == |multiset(r)| == |multiset(Seqs.Filter(st.projects, listed))| == |Seqs.Filter(st.projects, listed)|;
    Seqs.FilterExt(st.projects, ActiveProjectOf(actor), listed);
  }
}
