# TaskFlow access rules, in Dafny

TaskFlow is a Next.js task and project tracker. This project models the server-side
rules that decide who sees what and what a write stores. Those rules live in the API
routes for tasks, projects, team attach, analytics and user search, in the route guard,
and in the credentials sign-in.

The database is modelled abstractly (`store.dfy`). It holds users, projects, tasks and
an append-only activity log. A project has an owner, a set of members and an archived
flag. Timestamps are integer milliseconds and record keys are naturals. The database
enforces unique keys and foreign keys; a write that breaks one fails and changes nothing.

The read routes (GET) are functions or methods over one snapshot `Store`. The write
routes (POST) are methods on a `Database` object that update its tables in place.
`Database.Valid()` is the integrity invariant that every write keeps.

Modules, one per file:

- `Wrappers`: `Option`, `Result`, and the JavaScript truthiness of an optional query value.
- `Http`: the error outcomes and their status codes.
- `Text`: `startsWith`, the case-insensitive `contains`, and JavaScript's UTF-16 `length`.
- `Seqs`: `where` filters, counts, `take` and `groupBy` counts over table rows.
- `Sorting`: `orderBy` as a sort under a total preorder, and `take` after it.
- `Store`: the tables, the enums, the related-row lookups and the `Database` class.
- `TasksRoute`: GET and POST `/api/tasks`.
- `ProjectsRoute`: GET and POST `/api/projects`.
- `TeamRoute`: POST `/api/team/add-to-projects`.
- `AnalyticsRoute`: GET `/api/analytics`.
- `UsersRoute`: GET `/api/users`.
- `Middleware`: the route guard.
- `AuthConfig`: `authorize` and the `jwt` and `session` callbacks.

Some modelling choices follow the code's behaviour rather than its surface:

- A query parameter counts as given only when it is present and not empty, because the code tests it with `if (x)`.
- A status or priority filter that names no enum value makes the database query throw. The route then answers 500.
- A relation filter on a task's project (`project: { ownerId }`, `project: { members: ... }`) is false for a task with no project. It is also false when the key names no project.
- Enum columns sort in declaration order. A null due date sorts after every date in ascending order.
- `Math.round(completed / total * 100)` is computed in exact integers: the nearest integer, with halves rounded up.
- The `search` parameter of the task listing is modelled as written. Its title/description clause is stored in `where.OR` and then overwritten by the access clause. `TasksRoute.BuildTaskWhere` states that no key of the where object carries it, and `TasksRoute.SearchIgnored` that the listing is the same whatever the search is.

The routes share no access check. Each route writes its own `OR` clause and answers
401, 400, 403 or 500 as its own code decides. The model keeps the clauses per route and
proves where they agree: `AnalyticsRoute.UserTasksWhereIsListingAccess`,
`AnalyticsRoute.TotalProjectsIsListingLength`.

## Model

| member | source | states |
|---|---|---|
| Http.Code | src/app/api/tasks/route.ts:122-211 | each error outcome has a status in 400..599, and only an internal error is 500 |
| Store.ParseStatus | src/app/api/tasks/route.ts:9 | a string parses to a status exactly when that status has that name; otherwise no status has it |
| Store.ParsePriority | src/app/api/tasks/route.ts:10 | a string parses to a priority exactly when that priority has that name; otherwise no priority has it |
| Store.NamesRoundTrip | src/app/api/tasks/route.ts:9-10 | parsing an enum value's name gives that value back |
| Store.StatusRank | src/app/api/tasks/route.ts:105 | a status's sort position is its index in declaration order |
| Store.PriorityRank | src/app/api/tasks/route.ts:106 | a priority's sort position is its index in declaration order |
| Store.FindProject | src/app/api/tasks/route.ts:68-69 | the related project carries the key; none is found only when no row has that key |
| Store.FindProjectUnique | src/app/api/tasks/route.ts:68-69 | with unique keys, a project's key finds that very project |
| Store.Connect | src/app/api/team/add-to-projects/route.ts:28-35 | the project with that key gains the user as a member; every other row is unchanged |
| Store.ConnectKeepsConsistent | src/app/api/team/add-to-projects/route.ts:28-35 | connecting an existing user keeps keys unique, foreign keys valid and the key set the same |
| Store.Database.CreateTask | src/app/api/tasks/route.ts:152-165 | the insert succeeds iff every foreign key of the row exists; the row gets a fresh key and is appended; nothing else changes; on failure nothing changes |
| Store.Database.CreateProject | src/app/api/projects/route.ts:83-97 | the insert succeeds iff the owner and each member exist; the row gets a fresh key and is appended; on failure nothing changes |
| Store.Database.CreateActivity | src/app/api/tasks/route.ts:186-194 | the entry is appended iff its user, task and project exist; no other table changes |
| Store.Database.ConnectMember | src/app/api/team/add-to-projects/route.ts:28-35 | the update succeeds iff the project and the user exist; then the projects are `Connect` of the old ones, otherwise unchanged; integrity is kept |
| Seqs.Filter | src/app/api/users/route.ts:25-26 | the selection keeps exactly the rows satisfying the condition, each as often as in the table, and is no longer than the table |
| Seqs.FilterExt | src/app/api/tasks/route.ts:72-73 | two conditions that agree on every row select the same rows |
| Seqs.GroupCounts | src/app/api/analytics/route.ts:24-35 | the `groupBy` result lists exactly those of the given keys that some row has: every listed group is a key with its exact, nonzero row count, and every key with a nonzero count is listed with that count |
| Seqs.CountSplit | src/app/api/analytics/route.ts:38-48 | a condition that is the disjoint union of two others counts their sum |
| Seqs.GroupCountsSum | src/app/api/analytics/route.ts:24-28 | over distinct keys, the group counts add up to the number of rows whose key is among them |
| Seqs.GroupCountsTotal | src/app/api/analytics/route.ts:24-35 | when every row's key is among the distinct keys, the group counts add up to the number of rows |
| Sorting.InsertionSort | src/app/api/tasks/route.ts:104-108 | the sorted rows are a permutation of the input, ordered under the comparison |
| Sorting.SortedHasFiltered | src/app/api/tasks/route.ts:72-109 | a `findMany` with `where` and `orderBy` holds exactly the table rows that satisfy the condition |
| Sorting.PrefixComesFirst | src/app/api/analytics/route.ts:103-106 | in a sorted sequence, a row outside the first n comes after every row among them |
| Sorting.TakeOfSorted | src/app/api/analytics/route.ts:103-106 | `take` after `orderBy` keeps at most n rows, in order, from the input; a row left out comes after every row kept, and then n rows were kept |
| TasksRoute.AccessIffVisible | src/app/api/tasks/route.ts:65-70 | the access clause holds iff the actor is the task's creator, its assignee, a member of its project or its project's owner |
| TasksRoute.AccessMatches | src/app/api/tasks/route.ts:65-70 | the listing's access `OR`: the actor is the creator or the assignee, or the task's project exists and lists the actor as a member or as its owner |
| TasksRoute.NoProjectAccess | src/app/api/tasks/route.ts:65-70 | a task without a project passes the access clause only for its creator or its assignee |
| TasksRoute.BuildTaskWhere | src/app/api/tasks/route.ts:34-70 | the status and priority keys are set only when given and non-empty, the project and assignee keys when given, and `OR` ends as the access clause, so no key carries the search; its enum values are valid iff the query's are; a task matches it iff it is visible and equals every given status, priority, project and assignee |
| TasksRoute.ListingOrderIsTotalPreorder | src/app/api/tasks/route.ts:104-108 | status ascending, then priority descending, then due date ascending with nulls last, is a total preorder |
| TasksRoute.FindTasks | src/app/api/tasks/route.ts:72-109 | the result holds each matching task as often as the table does, and is sorted in listing order |
| TasksRoute.GetTasks | src/app/api/tasks/route.ts:20-119 | 401 without a session; 500 on an unknown status or priority; otherwise the visible tasks matching every filter, each as often as the table holds it, in listing order |
| TasksRoute.SearchIgnored | src/app/api/tasks/route.ts:57-70 | the listing is the same whatever the search parameter is |
| TasksRoute.ParseTaskBody | src/app/api/tasks/route.ts:6-17 | the body is accepted iff the title is non-empty, each enum value is valid and each date parses; then status defaults to TODO, priority to MEDIUM and tags to empty; an absent date becomes null and a present one its parsed instant; a rejection is 400 |
| TasksRoute.NewTask | src/app/api/tasks/route.ts:152-165 | the created row's creator is the actor |
| TasksRoute.ProjectAccessible | src/app/api/tasks/route.ts:133-142 | the gate's lookup: some project has the key and the actor owns it or is a member |
| TasksRoute.ProjectAccessibleIffFound | src/app/api/tasks/route.ts:133-149 | with unique keys, the gate passes iff the project the key names exists and the actor owns it or belongs to it |
| TasksRoute.TaskCreated | src/app/api/tasks/route.ts:186-194 | the entry is of kind "created", names the actor, the new task and the task's project |
| TasksRoute.PostTask | src/app/api/tasks/route.ts:122-211 | 401 without a session; 400 on a rejected body; 403 when the named project is not the actor's; once the body and the gate pass, any failure is 500. Any failure stores nothing. Success appends exactly the new task, created by the actor with the TODO, MEDIUM, no-tags and null-date defaults, and exactly one "created" entry naming the actor, the task and its project |
| ProjectsRoute.NewestFirstIsTotalPreorder | src/app/api/projects/route.ts:57-59 | newest creation time first is a total preorder |
| ProjectsRoute.ProjectListed | src/app/api/projects/route.ts:27-32 | the listing's where object: owner or member, and not archived unless archived projects were asked for |
| ProjectsRoute.GetProjects | src/app/api/projects/route.ts:16-70 | 401 without a session; otherwise exactly the projects the actor owns or belongs to, archived ones only when the parameter is exactly "true", each as often as the table holds it, newest first |
| ProjectsRoute.ParseProjectBody | src/app/api/projects/route.ts:6-13 | the body is accepted iff the name is non-empty and each date parses; then color defaults to "#3B82F6" and the member list to empty; an absent date becomes null and a present one its parsed instant; a rejection is 400 |
| ProjectsRoute.NewProject | src/app/api/projects/route.ts:83-97 | the actor is the owner, the members are the actor plus the requested ids, and the project is not archived |
| ProjectsRoute.ProjectCreated | src/app/api/projects/route.ts:124-131 | the entry is of kind "created", names the actor and the project, and no task |
| ProjectsRoute.PostProject | src/app/api/projects/route.ts:73-148 | 401 without a session; 400 on a rejected body; once the body passes, success iff every referenced user exists, and any failure is 500. Any failure stores nothing. Success appends exactly the new project and one "created" entry for it |
| ProjectsRoute.CreatedProjectIsListed | src/app/api/projects/route.ts:90-96 | a project just created by the actor is in the actor's default listing |
| TeamRoute.OwnedProjectIds | src/app/api/team/add-to-projects/route.ts:20-23 | the keys read are those of the projects the actor owns, one per owned row |
| TeamRoute.Attached | src/app/api/team/add-to-projects/route.ts:20-37 | the attach keeps every row, in place, with its key and its owner |
| TeamRoute.AttachedAt | src/app/api/team/add-to-projects/route.ts:26-37 | after the attach, an owned project has the user added to its members and any other project is unchanged |
| TeamRoute.AttachedGrantsMembership | src/app/api/team/add-to-projects/route.ts:26-37 | after the attach, the user is a member of every project the actor owns |
| TeamRoute.AttachedChangesOnlyOwned | src/app/api/team/add-to-projects/route.ts:20-37 | projects the actor does not own are unchanged; owned ones change only in their members, which keep everyone and gain at most the user |
| TeamRoute.FindProjectAttached | src/app/api/team/add-to-projects/route.ts:20-37 | after the attach, a key finds a row iff it found one before, with the same owner and members that only grow, by the user when the actor owns it |
| TeamRoute.VisibleMonotone | src/app/api/team/add-to-projects/route.ts:26-37 | the attach only grows membership, so every task visible to anyone before stays visible to them after |
| TeamRoute.AttachGrantsTaskVisibility | src/app/api/team/add-to-projects/route.ts:26-37 | after the attach, the user sees every task of every project the actor owns |
| TeamRoute.AttachedIdempotent | src/app/api/team/add-to-projects/route.ts:31-33 | attaching twice yields the same table as attaching once |
| TeamRoute.AttachedToOwned | src/app/api/team/add-to-projects/route.ts:20-37 | with unique keys, connecting the user to every key read is the attach |
| TeamRoute.ConnectEach | src/app/api/team/add-to-projects/route.ts:26-37 | the updates, one key after another, connect the user to exactly the projects with those keys, change no other table and keep integrity |
| TeamRoute.AddToProjects | src/app/api/team/add-to-projects/route.ts:5-50 | 401 without a session; 400 without a user id; once both are given, success iff the user exists or there is nothing to update, and any failure is 500 with nothing changed. On success the count is the number of owned projects, the projects are the attach, and no other table changes |
| AnalyticsRoute.OrdersAreTotalPreorders | src/app/api/analytics/route.ts:103-105 | newest first, and earliest due date first, are total preorders |
| AnalyticsRoute.GetAnalytics | src/app/api/analytics/route.ts:6-181 | 401 exactly when there is no session; otherwise the actor's dashboard |
| AnalyticsRoute.Analytics | src/app/api/analytics/route.ts:14-173 | completed tasks never exceed the total, the rate is at most 100, at most 10 recent entries and at most 5 upcoming tasks are shown |
| AnalyticsRoute.RecentActivities | src/app/api/analytics/route.ts:74-107 | at most 10 entries, each from the log and the actor's own or from a project the actor owns or belongs to |
| AnalyticsRoute.UpcomingTasks | src/app/api/analytics/route.ts:120-152 | at most 5 tasks, each from the table, the actor's, not completed and due within the coming week |
| AnalyticsRoute.UserTasksWhereIsListingAccess | src/app/api/analytics/route.ts:14-21 | the dashboard's task condition is the task listing's access clause, and so the visibility rule |
| AnalyticsRoute.TotalTasksIsListingLength | src/app/api/analytics/route.ts:37-40 | the total is the length of the actor's task listing without filters |
| AnalyticsRoute.CountsBounded | src/app/api/analytics/route.ts:42-71 | completed ≤ total, overdue ≤ total, and open tasks assigned to the actor ≤ total − completed |
| AnalyticsRoute.CompletionRateRounds | src/app/api/analytics/route.ts:161 | the rate is 0 without tasks, lies in 0..100, and is the percentage rounded to the nearest integer |
| AnalyticsRoute.CompletionRate | src/app/api/analytics/route.ts:161 | 0 without tasks; otherwise 100 * completed / total rounded to the nearest integer, halves up, and at most 100 when completed ≤ total |
| AnalyticsRoute.GroupsSumToTotal | src/app/api/analytics/route.ts:23-40 | the status groups add up to the total, and so do the priority groups |
| AnalyticsRoute.RecentActivitiesNewest | src/app/api/analytics/route.ts:74-107 | at most 10 entries, each the actor's own or from a project the actor owns or belongs to, newest first; a visible entry left out is no newer than any shown, and then 10 are shown |
| AnalyticsRoute.UpcomingTasksInWindow | src/app/api/analytics/route.ts:120-152 | at most 5 tasks, each visible, not completed and due within [now, now + one week], earliest first; a qualifying task left out is due no earlier than any shown, and then 5 are shown |
| AnalyticsRoute.TotalProjectsIsListingLength | src/app/api/analytics/route.ts:109-118 | the project count is the length of the actor's default project listing: owned or joined, not archived |
| UsersRoute.BuildUserWhere | src/app/api/users/route.ts:16-23 | the name/e-mail clause is set iff a non-empty search is given; a user matches iff there is no search or the name or e-mail contains it, ignoring case |
| UsersRoute.GetUsers | src/app/api/users/route.ts:6-47 | 401 exactly when there is no session; otherwise the first 20 matching users, in their selected columns |
| UsersRoute.FindUsers | src/app/api/users/route.ts:25-37 | the page has min(20, number of matching users) entries |
| UsersRoute.Select | src/app/api/users/route.ts:27-35 | the selected columns: id, name, e-mail, avatar, job title, department and role, and no password |
| UsersRoute.FindUsersSound | src/app/api/users/route.ts:18-37 | at most 20 entries, each the selected columns of a user that matches the search |
| UsersRoute.FindUsersComplete | src/app/api/users/route.ts:25-37 | when fewer than 20 are returned, every matching user is among them |
| UsersRoute.NoSearchTakesFirstUsers | src/app/api/users/route.ts:16-37 | without a search, the result is the first min(20, count) users of the table |
| UsersRoute.SummaryOmitsPassword | src/app/api/users/route.ts:26-35 | the returned record does not depend on the stored password |
| Text.LowerStringIdempotent | src/app/api/users/route.ts:20-21 | lowering case twice is lowering it once |
| Text.ContainsInsensitiveIgnoresCase | src/app/api/users/route.ts:20-21 | the insensitive `contains` ignores the case of both the text and the search |
| Text.ContainsSubstring | src/app/api/users/route.ts:20-21 | a text contains each of its substrings, in any case |
| Text.Utf16Length | src/lib/auth/config.ts:9 | JavaScript's string length: between the number of characters and twice it, and equal to it exactly when no character lies outside the Basic Multilingual Plane |
| Text.Utf16LengthOfEmoji | src/lib/auth/config.ts:9 | a witness for `Text.Utf16Length`: three emoji have length six, not three |
| Middleware.Route | src/middleware.ts:4-28 | pass iff the path is under /api/auth, or the user is logged in and not on an auth page, or logged out on a public page; /dashboard iff logged in on an auth page outside /api/auth; /login iff logged out off the public pages outside /api/auth |
| Middleware.ApiAuthPasses | src/middleware.ts:10-15 | any path under /api/auth passes, logged in or not |
| Middleware.RootPasses | src/middleware.ts:9-27 | "/" passes, logged in or not |
| Middleware.NoRedirectLoop | src/middleware.ts:8-27 | the target of a redirect, requested in the same login state, passes |
| AuthConfig.FindUserByEmail | src/lib/auth/config.ts:24-36 | the user found has that e-mail; none is found only when no user has it |
| AuthConfig.FindUserByEmailUnique | src/lib/auth/config.ts:24-36 | with unique e-mails, a user's e-mail finds that user |
| AuthConfig.SchemaAccepts | src/lib/auth/config.ts:7-10 | the login schema: both fields present, the e-mail valid, and the password at least six UTF-16 code units long |
| AuthConfig.Authorize | src/lib/auth/config.ts:20-60 | sign-in succeeds iff the schema accepts the credentials, a user has the e-mail, has a non-empty stored hash, and the password matches it; the result is that user's fields without the hash |
| AuthConfig.AuthorizeSucceedsIff | src/lib/auth/config.ts:24-56 | for the user with the given e-mail, sign-in succeeds iff that user has a stored hash the password matches, and it returns that user's fields |
| AuthConfig.ShortPasswordRejected | src/lib/auth/config.ts:7-10 | a password shorter than six UTF-16 code units never signs in |
| AuthConfig.EmojiPasswordPassesSchema | src/lib/auth/config.ts:9 | a witness for `AuthConfig.SchemaAccepts` counting UTF-16 units: a password of three emoji, three characters but six units, passes the schema with a valid e-mail; the general bound is `AuthConfig.ShortPasswordRejected` |
| AuthConfig.Jwt | src/lib/auth/config.ts:69-78 | with a user, the token gets its id, role, avatar, job title and department; without one the token is unchanged |
| AuthConfig.SessionCallback | src/lib/auth/config.ts:79-88 | when the session has a user, it gets the token's five claims |
| AuthConfig.SignIn | src/lib/auth/config.ts:20-88 | after `authorize`, `jwt` and `session`, the session user's id and role are the signed-in user's |

## Left out

- The UI components, the pages, the disabled AI route and the build configuration are not part of this model. They render or call foreign code.
- JSON and HTTP are not modelled. A route's response is a `Result`: the value it returns, or the error class its status code stands for. The included relations and `_count` columns of responses are left out.
- The `matcher` pattern of the route guard is left out. The guard is modelled for every path, as if every path matched.
- The task detail, update, delete and comment routes are not part of this model, so neither is agreement between detail and list visibility.
- The clock is a parameter `now`. Analytics reads the clock three times: `new Date()` at line 55, `new Date()` at line 125 and `Date.now()` at line 126. All three are the same `now`, so the upcoming window is exactly one week. With distinct reads the window would run from the second read to one week after the third.
- Record keys are naturals, so the empty-string key of a JSON body or query string is not represented. An empty `userId` or query parameter is modelled as absent.
- Zod's `.email()` and `.datetime()`, and `bcrypt.compare`, are parameters (`isEmail`, `parseDate`, `passwordMatches`). `parseDate` includes the `new Date` conversion.
- The case-insensitive `contains` lowers ASCII letters only. The database's Unicode case folding is not modelled.
- AnalyticsRoute.CompletionRate: computed in exact integers. A floating-point ratio exactly at a half can round differently in JavaScript.
- `estimatedHours` is a `real`; floating-point behaviour is not modelled.
- The order of rows that tie under an `orderBy` is fixed by the model's sort; the database leaves it unspecified. The `groupBy` output is in enum declaration order and keeps only nonzero groups; the database does not specify that order.
- The user listing without `orderBy` returns users in table order.
- `Promise.all` in the team attach is modelled as a sequential loop. With a missing user every update fails, so the model changes nothing. Interleavings with other requests are not modelled.
- Failures of the database itself (a lost connection, a thrown query) are left out, apart from the key, enum and foreign-key failures modelled above. Those are the 500 branches of each `catch`, and in `authorize` they return null.
- In the tasks and projects POST routes the activity write comes after the create. That write cannot fail in the model, because its references were just checked, so the partial state the code would leave is never reached.
- The `jwt` and `session` callbacks return the object they were given. The model keeps only the fields they set. Next-auth's own token claims (name, email, sub) are left out.
