/** POST /api/team/add-to-projects: connects a user to the members of every project the
    acting user owns. */
module TeamRoute {
  import opened Wrappers
  import opened Store
  import opened Http
  import Seqs

  /** The `where: { ownerId }` condition. */
  function OwnedBy(actor: Id): Project -> bool {
    (p: Project) => p.ownerId == actor
  }

  /** `project.findMany({ where: { ownerId }, select: { id } })`. */
  function OwnedProjectIds(ps: seq<Project>, actor: Id): (ids: seq<Id>)
    ensures |ids| == Seqs.Count(ps, OwnedBy(actor))
    ensures forall p :: p in ps && p.ownerId == actor ==> p.id in ids
    ensures forall k :: 0 <= k < |ids| ==> exists p :: p in ps && p.ownerId == actor && p.id == ids[k]
  {
    var owned := Seqs.Filter(ps, OwnedBy(actor));
    var ids := seq(|owned|, k requires 0 <= k < |owned| => owned[k].id);
    assert forall p :: p in ps && p.ownerId == actor ==> p.id in ids by {
      forall p | p in ps && p.ownerId == actor ensures p.id in ids {
        assert p in owned;
        var k :| 0 <= k < |owned| && owned[k] == p;
        assert ids[k] == p.id;
      }
    }
    assert forall k :: 0 <= k < |ids| ==> owned[k] in owned;
    ids
  }

  /** The project table once `uid` is connected to every project `actor` owns. */
  function Attached(ps: seq<Project>, actor: Id, uid: Id): (r: seq<Project>)
    ensures |r| == |ps|
    ensures forall i :: 0 <= i < |ps| ==> r[i].id == ps[i].id && r[i].ownerId == ps[i].ownerId
  {
    if ps == [] then []
    else
      var p := ps[0];
      [if p.ownerId == actor then p.(members := p.members + {uid}) else p] + Attached(ps[1..], actor, uid)
  }

  /** Row by row: an owned project gains `uid`, every other row is unchanged. */
  lemma {:induction false} AttachedAt(ps: seq<Project>, actor: Id, uid: Id, i: nat)
    requires i < |ps|
    ensures Attached(ps, actor, uid)[i] ==
      if ps[i].ownerId == actor then ps[i].(members := ps[i].members + {uid}) else ps[i]
  {
    if i > 0 {
      AttachedAt(ps[1..], actor, uid, i - 1);
    }
  }

  /** After the attach, `uid` is a member of every project `actor` owns. */
  lemma AttachedGrantsMembership(ps: seq<Project>, actor: Id, uid: Id, i: nat)
    requires i < |ps| && ps[i].ownerId == actor
    ensures uid in Attached(ps, actor, uid)[i].members
  {
    AttachedAt(ps, actor, uid, i);
  }

  /** Projects the actor does not own are unchanged, and owned ones change only in their
      members, which keep everyone they had. */
  lemma AttachedChangesOnlyOwned(ps: seq<Project>, actor: Id, uid: Id, i: nat)
    requires i < |ps|
    ensures var q := Attached(ps, actor, uid)[i];
      && (ps[i].ownerId != actor ==> q == ps[i])
      && q.(members := ps[i].members) == ps[i]
      && ps[i].members <= q.members
      && q.members <= ps[i].members + {uid}
  {
    AttachedAt(ps, actor, uid, i);
  }

  /** The by-key lookup after the attach finds the row it found before, with the same
      owner and with members that only grow, by `uid` when the actor owns the row. */
  lemma {:induction false} FindProjectAttached(ps: seq<Project>, actor: Id, uid: Id, id: Id)
    ensures var before, after := FindProject(ps, id), FindProject(Attached(ps, actor, uid), id);
      && (before.Some? <==> after.Some?)
      && (before.Some? ==>
            && after.value.ownerId == before.value.ownerId
            && before.value.members <= after.value.members
            && (before.value.ownerId == actor ==> uid in after.value.members))
  {
    if ps != [] {
      var r := Attached(ps, actor, uid);
      assert r[1..] == Attached(ps[1..], actor, uid);
      FindProjectAttached(ps[1..], actor, uid, id);
    }
  }

  /** The attach only grows membership, so whoever could see a task still can. */
  lemma VisibleMonotone(st: Store, actor: Id, uid: Id, a: Id, t: Task)
    requires TaskVisible(st, a, t)
    ensures TaskVisible(st.(projects := Attached(st.projects, actor, uid)), a, t)
  {
    if t.projectId.Some? {
      FindProjectAttached(st.projects, actor, uid, t.projectId.value);
    }
  }

  /** After the attach, the user sees every task of every project the actor owns. */
  lemma AttachGrantsTaskVisibility(st: Store, actor: Id, uid: Id, t: Task)
    requires t.projectId.Some?
    requires var p := FindProject(st.projects, t.projectId.value); p.Some? && p.value.ownerId == actor
    ensures TaskVisible(st.(projects := Attached(st.projects, actor, uid)), uid, t)
  {
    FindProjectAttached(st.projects, actor, uid, t.projectId.value);
  }

  /** Attaching twice gives the table attaching once gives. */
  lemma {:induction false} AttachedIdempotent(ps: seq<Project>, actor: Id, uid: Id)
    ensures Attached(Attached(ps, actor, uid), actor, uid) == Attached(ps, actor, uid)
  {
    if ps != [] {
      AttachedIdempotent(ps[1..], actor, uid);
      var p := ps[0];
      if p.ownerId == actor {
        assert p.members + {uid} + {uid} == p.members + {uid};
      }
    }
  }

  /** With unique keys, a row's key is among the owned keys exactly when the row is owned. */
  lemma OwnedKeyIffOwned(ps: seq<Project>, actor: Id, i: nat)
    requires forall a, b :: 0 <= a < b < |ps| ==> ps[a].id != ps[b].id
    requires i < |ps|
    ensures ps[i].id in OwnedProjectIds(ps, actor) <==> ps[i].ownerId == actor
  {
    var ids := OwnedProjectIds(ps, actor);
    if ps[i].id in ids {
      var k :| 0 <= k < |ids| && ids[k] == ps[i].id;
      var p :| p in ps && p.ownerId == actor && p.id == ids[k];
      var j :| 0 <= j < |ps| && ps[j] == p;
      assert i == j;
    }
  }

  /** The project table once `uid` is connected to the projects whose key is in `keys`:
      the state of the table part way through the updates. */
  function AttachedTo(ps: seq<Project>, keys: seq<Id>, uid: Id): (r: seq<Project>)
    ensures |r| == |ps|
    ensures forall j :: 0 <= j < |ps| ==> r[j].id == ps[j].id
  {
    seq(|ps|, j requires 0 <= j < |ps| =>
      if ps[j].id in keys then ps[j].(members := ps[j].members + {uid}) else ps[j])
  }

  /** One more update connects `uid` to the projects with one more key. */
  lemma ConnectExtends(ps: seq<Project>, owned: seq<Id>, i: nat, uid: Id)
    requires i < |owned|
    ensures Connect(AttachedTo(ps, owned[..i], uid), owned[i], uid) == AttachedTo(ps, owned[..i + 1], uid)
  {
    var keys, pid := owned[..i], owned[i];
    assert owned[..i + 1] == keys + [pid];
    var cur := AttachedTo(ps, keys, uid);
    var next := Connect(cur, pid, uid);
    var want := AttachedTo(ps, keys + [pid], uid);
    forall j | 0 <= j < |ps| ensures next[j] == want[j] {
      assert ps[j].id in keys + [pid] <==> ps[j].id in keys || ps[j].id == pid;
      if ps[j].id in keys && ps[j].id == pid {
        assert ps[j].members + {uid} + {uid} == ps[j].members + {uid};
      }
    }
  }

  /** With unique keys, connecting to every owned key is the attach. */
  lemma AttachedToOwned(ps: seq<Project>, actor: Id, uid: Id)
    requires forall a, b :: 0 <= a < b < |ps| ==> ps[a].id != ps[b].id
    ensures AttachedTo(ps, OwnedProjectIds(ps, actor), uid) == Attached(ps, actor, uid)
  {
    var r := AttachedTo(ps, OwnedProjectIds(ps, actor), uid);
    forall j | 0 <= j < |ps| ensures r[j] == Attached(ps, actor, uid)[j] {
      OwnedKeyIffOwned(ps, actor, j);
      AttachedAt(ps, actor, uid, j);
    }
  }

  /** The updates, one project key after another (the source starts them all at once
      and waits for every one). */
  method ConnectEach(db: Database, keys: seq<Id>, uid: Id)
    requires db.Valid()
    requires forall k :: k in keys ==> k in ProjectIds(db.Snapshot())
    requires keys != [] ==> uid in UserIds(db.Snapshot())
    modifies db
    ensures db.Valid()
    ensures db.projects == AttachedTo(old(db.projects), keys, uid)
    ensures db.users == old(db.users) && db.tasks == old(db.tasks) && db.activities == old(db.activities)
  {
    ghost var before := db.projects;
    assert AttachedTo(before, [], uid) == before;
    var i := 0;
    while i < |keys|
      invariant 0 <= i <= |keys|
      invariant db.Valid()
      invariant db.users == old(db.users) && db.tasks == old(db.tasks) && db.activities == old(db.activities)
      invariant db.projects == AttachedTo(before, keys[..i], uid)
    {
      assert keys[i] in ProjectIds(db.Snapshot()) by {
        assert keys[i] in ProjectIds(old(db.Snapshot()));
        var j :| 0 <= j < |before| && before[j].id == keys[i];
        assert db.projects[j] in db.projects;
      }
      var ok := db.ConnectMember(keys[i], uid);
      // cannot fail: the key was read from the table and the user exists
      assert ok;
      ConnectExtends(before, keys, i, uid);
      i := i + 1;
    }
    assert keys[..i] == keys;
  }

  /** POST /api/team/add-to-projects; the success value is `projectsCount`. The updates
      run one after another. When `userId` names no user every update is refused and no
      project changes. */
  method AddToProjects(db: Database, session: Option<Id>, userId: Option<Id>)
    returns (res: Result<nat, HttpError>)
    requires db.Valid()
    modifies db
    ensures db.Valid()
    ensures res.Failure? ==> db.Snapshot() == old(db.Snapshot())
    ensures session.None? ==> res == Failure(Unauthorized)
    ensures session.Some? && userId.None? ==> res == Failure(BadRequest)
    ensures session.Some? && userId.Some? ==>
      && (res.Success? <==>
            userId.value in UserIds(old(db.Snapshot())) || Seqs.Count(old(db.projects), OwnedBy(session.value)) == 0)
      && (res.Failure? ==> res == Failure(InternalError))
    ensures res.Success? ==>
      && session.Some? && userId.Some?
      && res.value == Seqs.Count(old(db.projects), OwnedBy(session.value))
      && db.projects == Attached(old(db.projects), session.value, userId.value)
      && db.users == old(db.users) && db.tasks == old(db.tasks) && db.activities == old(db.activities)
  {
    if session.None? {
      return Failure(Unauthorized);
    }
    if userId.None? {
      return Failure(BadRequest);
    }
    var actor, uid := session.value, userId.value;
    var owned := OwnedProjectIds(db.projects, actor);
    if |owned| > 0 && uid !in UserIds(db.Snapshot()) {
      return Failure(InternalError);
    }
    assert forall k :: k in owned ==> k in ProjectIds(db.Snapshot()) by {
      forall k | k in owned ensures k in ProjectIds(db.Snapshot()) {
        var n :| 0 <= n < |owned| && owned[n] == k;
      }
    }
    ghost var before := db.projects;
    ConnectEach(db, owned, uid);
    AttachedToOwned(before, actor, uid);
    res := Success(|owned|);
  }
}
