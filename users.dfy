/** GET /api/users: the directory used to pick team members, searched by name or e-mail. */
module UsersRoute {
  import opened Wrappers
  import opened Store
  import opened Http
  import opened Text
  import Seqs

  /** `take: 20`. */
  const PageSize: nat := 20

  /** The columns the query selects; the password hash is not among them. */
  datatype UserSummary = UserSummary(
    id: Id,
    name: string,
    email: string,
    avatar: Option<string>,
    jobTitle: Option<string>,
    department: Option<string>,
    role: Role)

  function Select(u: User): UserSummary {
    UserSummary(u.id, u.name, u.email, u.avatar, u.jobTitle, u.department, u.role)
  }

  /** The `where` object: empty, or the name/e-mail disjunction. */
  datatype UserWhere = AllUsers | NameOrEmail(text: string)

  predicate UserMatches(w: UserWhere, u: User) {
    match w
    case AllUsers => true
    case NameOrEmail(text) => ContainsInsensitive(u.name, text) || ContainsInsensitive(u.email, text)
  }

  /** What the `search` parameter asks for: without a (non-empty) search every user,
      otherwise the users whose name or e-mail contains it, ignoring case. */
  predicate SearchedFor(search: Option<string>, u: User) {
    Given(search) ==> ContainsInsensitive(u.name, search.value) || ContainsInsensitive(u.email, search.value)
  }

  function Searched(search: Option<string>): User -> bool {
    (u: User) => SearchedFor(search, u)
  }

  /** The `where` object built by conditional assignment. */
  method BuildUserWhere(search: Option<string>) returns (w: UserWhere)
    ensures w.NameOrEmail? <==> Given(search)
    ensures forall u :: UserMatches(w, u) <==> SearchedFor(search, u)
  {
    w := AllUsers;
    if search.Some? && search.value != "" {
      w := NameOrEmail(search.value);
    }
  }

  /** `user.findMany({ where, select, take: 20 })`: the selected columns of the first
      twenty matching users, in table order. */
  function FindUsers(users: seq<User>, p: User -> bool): (r: seq<UserSummary>)
    ensures |r| == if Seqs.Count(users, p) <= PageSize then Seqs.Count(users, p) else PageSize
  {
    var hits := Seqs.Take(Seqs.Filter(users, p), PageSize);
    seq(|hits|, i requires 0 <= i < |hits| => Select(hits[i]))
  }

  /** GET /api/users: 401 without a session, otherwise the search result. */
  method GetUsers(st: Store, session: Option<Id>, search: Option<string>)
    returns (res: Result<seq<UserSummary>, HttpError>)
    ensures res.Failure? <==> session.None?
    ensures res.Failure? ==> res.error == Unauthorized
    ensures res.Success? ==> res.value == FindUsers(st.users, Searched(search))
  {
    if session.None? {
      return Failure(Unauthorized);
    }
    var w := BuildUserWhere(search);
    Seqs.FilterExt(st.users, (u: User) => UserMatches(w, u), Searched(search));
    res := Success(FindUsers(st.users, (u: User) => UserMatches(w, u)));
  }

  /** At most twenty entries, each the selected columns of a user the search matches. */
  lemma FindUsersSound(users: seq<User>, search: Option<string>)
    ensures var r := FindUsers(users, Searched(search));
      && |r| <= PageSize
      && forall x :: x in r ==> exists u :: u in users && SearchedFor(search, u) && x == Select(u)
  {
    var hits := Seqs.Take(Seqs.Filter(users, Searched(search)), PageSize);
    var r := FindUsers(users, Searched(search));
    forall x | x in r ensures exists u :: u in users && SearchedFor(search, u) && x == Select(u) {
      var i :| 0 <= i < |r| && r[i] == x;
      assert hits[i] in Seqs.Filter(users, Searched(search));
    }
  }

  /** A page with room left holds every matching user. */
  lemma FindUsersComplete(users: seq<User>, search: Option<string>, u: User)
    requires u in users && SearchedFor(search, u)
    requires |FindUsers(users, Searched(search))| < PageSize
    ensures Select(u) in FindUsers(users, Searched(search))
  {
    var sel := Seqs.Filter(users, Searched(search));
    var hits := Seqs.Take(sel, PageSize);
    assert hits == sel;
    var i :| 0 <= i < |sel| && sel[i] == u;
    assert FindUsers(users, Searched(search))[i] == Select(u);
  }

  /** Without a search the page is the first twenty users of the table. */
  lemma NoSearchTakesFirstUsers(users: seq<User>, search: Option<string>)
    requires !Given(search)
    ensures var r := FindUsers(users, Searched(search));
      && |r| == (if |users| <= PageSize then |users| else PageSize)
      && forall i :: 0 <= i < |r| ==> r[i] == Select(users[i])
  {
    Seqs.FilterAll(users, Searched(search));
  }

  /** The summary is blind to the stored password hash. */
  lemma SummaryOmitsPassword(u: User, password: Option<string>)
    ensures Select(u.(password := password)) == Select(u)
  {
  }
}
