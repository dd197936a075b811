/**
 Projects and their members: the endpoints that create and delete projects and add and
 remove members, and `verify_project_access`, for any number of requests whose statements
 interleave freely.
 */
module Members {
  import opened Wrappers

  datatype Role = Owner | Editor | Viewer

  datatype Project = Project(ownerId: string, deleted: bool)

  datatype Tables = Tables(
    users: set<string>,
    ids: set<string>,                        // every project id ever used; ids are random
    projects: map<string, Project>,
    members: map<(string, string), Role>)    // primary key: project and user

  /** What an endpoint asks for. */
  datatype Ask = Add(target: string, role: Role) | Remove(target: string) | Delete

  /** The statement a request is about to run, or the HTTP status it ended with. */
  datatype Phase = Verify | CheckCaller | CheckTarget | Act | Done(status: nat)

  datatype Request = Request(caller: string, admin: bool, project: string, ask: Ask, phase: Phase)

  datatype State = State(db: Tables, reqs: map<nat, Request>)

  const INIT := State(Tables({}, {}, map[], map[]), map[])

  datatype Action =
    | NewUser(user: string)
    | Create(project: string, caller: string)     // project and owner membership in one transaction
    | Cascade(project: string)                    // the controller deletes the row
    | Receive(r: nat, caller: string, admin: bool, project: string, ask: Ask)
    | Step(r: nat)
    | Fail(r: nat, applied: bool)                 // an error: 500; a commit may have taken effect all the same

  /** `verify_project_access` lets the caller in. */
  predicate Admits(db: Tables, caller: string, admin: bool, project: string) {
    && project in db.projects && !db.projects[project].deleted
    && (admin || (project, caller) in db.members)
  }

  predicate IsOwner(db: Tables, user: string, project: string) {
    (project, user) in db.members && db.members[(project, user)] == Owner
  }

  /** What the next statement of a request makes of its phase. */
  function Next(db: Tables, q: Request): Phase {
    match q.phase
    case Verify =>
      if !Admits(db, q.caller, q.admin, q.project) then Done(if q.admin then 404 else 403)
      else if q.ask == Remove(q.caller) then Done(403)
      else CheckCaller
    case CheckCaller => if q.admin || IsOwner(db, q.caller, q.project) then CheckTarget else Done(403)
    case CheckTarget =>
      (match q.ask
       case Add(target, _) => if target in db.users then Act else Done(404)
       case Remove(target) =>
         if (q.project, target) !in db.members then Done(404)
         else if IsOwner(db, target, q.project) then Done(403)
         else Act
       case Delete => Act)
    case Act =>
      (match q.ask
       case Add(target, _) =>
         if q.project !in db.projects then Done(500)  // the foreign key fails
         else if (q.project, target) in db.members then Done(409)
         else Done(201)
       case Remove(_) => Done(200)
       case Delete => Done(202))
    case Done(status) => Done(status)
  }

  /** What it makes of the tables: only the last statement writes. */
  function Effect(db: Tables, q: Request): Tables {
    if q.phase != Act then db
    else match q.ask
      case Add(target, role) =>
        if Next(db, q) == Done(201) then db.(members := db.members[(q.project, target) := role]) else db
      case Remove(target) => db.(members := db.members - {(q.project, target)})
      case Delete =>
        if q.project in db.projects
        then db.(projects := db.projects[q.project := db.projects[q.project].(deleted := true)]) else db
  }

  predicate Enabled(s: State, a: Action) {
    match a
    case NewUser(_) => true
    case Create(p, caller) => p !in s.db.ids && caller in s.db.users
    case Cascade(p) => p in s.db.projects
    case Receive(r, _, _, _, ask) => r !in s.reqs && (ask.Add? ==> ask.role != Owner)
    case Step(r) => r in s.reqs && !s.reqs[r].phase.Done?
    case Fail(r, _) => r in s.reqs && !s.reqs[r].phase.Done?
  }

  function Apply(s: State, a: Action): State
    requires Enabled(s, a)
  {
    match a
    case NewUser(u) => s.(db := s.db.(users := s.db.users + {u}))
    case Create(p, caller) =>
      s.(db := s.db.(ids := s.db.ids + {p},
                     projects := s.db.projects[p := Project(caller, false)],
                     members := s.db.members[(p, caller) := Owner]))
    case Cascade(p) =>
      s.(db := s.db.(projects := s.db.projects - {p},
                     members := map k | k in s.db.members && k.0 != p :: s.db.members[k]))
    case Receive(r, caller, admin, p, ask) => s.(reqs := s.reqs[r := Request(caller, admin, p, ask, Verify)])
    case Step(r) =>
      var q := s.reqs[r];
      State(Effect(s.db, q), s.reqs[r := q.(phase := Next(s.db, q))])
    case Fail(r, applied) =>
      State(if applied then Effect(s.db, s.reqs[r]) else s.db, s.reqs[r := s.reqs[r].(phase := Done(500))])
  }

  function Exec(acts: seq<Action>): Option<State> {
    if acts == [] then Some(INIT)
    else
      var s := Exec(acts[..|acts| - 1]);
      if s.Some? && Enabled(s.value, acts[|acts| - 1]) then Some(Apply(s.value, acts[|acts| - 1])) else None
  }

  // ---------------------------------------------------------------- one owner each

  /** The memberships of existing projects, with the owner's as the one `Owner` among them. */
  ghost predicate Owned(db: Tables) {
    && db.projects.Keys <= db.ids
    && (forall k | k in db.members :: k.0 in db.projects)
    && (forall p | p in db.projects :: IsOwner(db, db.projects[p].ownerId, p))
    && (forall p, u | p in db.projects && IsOwner(db, u, p) :: u == db.projects[p].ownerId)
  }

  /** What a request has learned stays true: owners and ids do not change. */
  ghost predicate Informed(db: Tables, q: Request) {
    && (q.ask.Add? ==> q.ask.role != Owner)
    && (q.phase != Verify && !q.phase.Done? ==> q.project in db.ids)
    && (q.phase in {CheckTarget, Act} && !q.admin && q.project in db.projects ==>
          db.projects[q.project].ownerId == q.caller)
    && (q.phase == Act && q.ask.Remove? && q.project in db.projects ==>
          db.projects[q.project].ownerId != q.ask.target)
  }

  ghost predicate MembersInv(s: State) {
    Owned(s.db) && forall r | r in s.reqs :: Informed(s.db, s.reqs[r])
  }

  lemma OwnedStep(s: State, a: Action)
    requires MembersInv(s) && Enabled(s, a)
    ensures Owned(Apply(s, a).db)
  {
    if a.Step? || a.Fail? { assert Informed(s.db, s.reqs[a.r]); }
    var e := Apply(s, a).db;
    forall p | p in e.projects
      ensures IsOwner(e, e.projects[p].ownerId, p)
      ensures forall u | IsOwner(e, u, p) :: u == e.projects[p].ownerId
    {
      if p in s.db.projects {
        assert e.projects[p].ownerId == s.db.projects[p].ownerId && IsOwner(s.db, s.db.projects[p].ownerId, p);
        forall u | IsOwner(e, u, p) ensures u == e.projects[p].ownerId { assert IsOwner(s.db, u, p); }
      }
    }
  }

  lemma InformedStep(s: State, a: Action, r: nat)
    requires MembersInv(s) && Enabled(s, a) && r in Apply(s, a).reqs
    ensures Informed(Apply(s, a).db, Apply(s, a).reqs[r])
  {
    if r in s.reqs { assert Informed(s.db, s.reqs[r]); }
  }

  lemma {:induction false} Reachable(acts: seq<Action>, s: State)
    requires Exec(acts) == Some(s)
    ensures MembersInv(s)
  {
    if acts != [] {
      var a := acts[|acts| - 1];
      var before := Exec(acts[..|acts| - 1]).value;
      Reachable(acts[..|acts| - 1], before);
      OwnedStep(before, a);
      forall r | r in s.reqs ensures Informed(s.db, s.reqs[r]) { InformedStep(before, a, r); }
    }
  }

  /** In every run, each project has exactly one `Owner` membership: its `owner_id`'s. */
  lemma OneOwnerEach(acts: seq<Action>, s: State, project: string, user: string)
    requires Exec(acts) == Some(s) && project in s.db.projects
    ensures IsOwner(s.db, user, project) <==> user == s.db.projects[project].ownerId
  {
    Reachable(acts, s);
  }

  /** The owner of an undeleted project is always let in, whatever requests are under way. */
  lemma OwnerAlwaysAdmitted(acts: seq<Action>, s: State, project: string, admin: bool)
    requires Exec(acts) == Some(s) && project in s.db.projects
    ensures Admits(s.db, s.db.projects[project].ownerId, admin, project) <==> !s.db.projects[project].deleted
  {
    Reachable(acts, s);
  }

  /** A write by someone who is no admin is the owner's, although the check was made one
      or two statements earlier. */
  lemma OnlyTheOwnerWrites(acts: seq<Action>, s: State, r: nat)
    requires Exec(acts) == Some(s) && r in s.reqs && s.reqs[r].phase == Act && !s.reqs[r].admin
    requires Effect(s.db, s.reqs[r]) != s.db
    ensures s.reqs[r].project in s.db.projects
    ensures s.db.projects[s.reqs[r].project].ownerId == s.reqs[r].caller
  {
    Reachable(acts, s);
    var q := s.reqs[r];
    assert Informed(s.db, q);
  }

  /** No request takes the owner's membership away, not even an admin's whose check of the
      target is already out of date. */
  lemma OwnerStays(acts: seq<Action>, s: State, r: nat, project: string)
    requires Exec(acts) == Some(s) && r in s.reqs && project in s.db.projects
    ensures IsOwner(Effect(s.db, s.reqs[r]), s.db.projects[project].ownerId, project)
  {
    Reachable(acts, s);
    assert Informed(s.db, s.reqs[r]);
    assert IsOwner(s.db, s.db.projects[project].ownerId, project);
  }

  /** A new project admits its creator, as its owner, and apart from admins nobody else; a
      cascade takes a project away with its memberships, and nothing else. */
  lemma CreateAndCascade(acts: seq<Action>, s: State, a: Action)
    requires Exec(acts) == Some(s) && Enabled(s, a)
    ensures a.Create? ==>
              var db := Apply(s, a).db;
              && a.project !in s.db.projects && db.projects == s.db.projects[a.project := Project(a.caller, false)]
              && IsOwner(db, a.caller, a.project)
              && forall u :: Admits(db, u, false, a.project) <==> u == a.caller
    ensures a.Cascade? ==>
              var db := Apply(s, a).db;
              && (forall p :: p in db.projects <==> p in s.db.projects && p != a.project)
              && (forall p | p in db.projects :: db.projects[p] == s.db.projects[p])
              && (forall k :: k in db.members <==> k in s.db.members && k.0 != a.project)
              && (forall k | k in db.members :: db.members[k] == s.db.members[k])
  {
    Reachable(acts, s);
  }

  /** A request that ends with an error has had its statement's effect, or none. */
  lemma ErrorsMayTakeEffect(s: State, r: nat)
    requires Enabled(s, Step(r))
    ensures Apply(s, Fail(r, true)).db == Apply(s, Step(r)).db && Apply(s, Fail(r, false)).db == s.db
    ensures forall applied :: Apply(s, Fail(r, applied)).reqs == s.reqs[r := s.reqs[r].(phase := Done(500))]
  {
  }

  // ---------------------------------------------------------------- the code

  class Database {
    var s: State
    ghost var log: seq<Action>

    ghost predicate Valid()
      reads this
    {
      Exec(log) == Some(s)
    }

    method Do(a: Action)
      requires Valid() && Enabled(s, a)
      modifies this
      ensures Valid() && s == Apply(old(s), a) && log == old(log) + [a]
    {
      assert (log + [a])[..|log|] == log;
      s, log := Apply(s, a), log + [a];
    }

    /** Whatever else happens before request `r` gets its turn. */
    method OthersRun(r: nat)
      requires Valid() && r in s.reqs
      modifies this
      ensures Valid() && r in s.reqs && s.reqs[r] == old(s.reqs[r])
    {
      var turns: nat := *;
      while turns > 0
        invariant Valid() && r in s.reqs && s.reqs[r] == old(s.reqs[r])
      {
        var a: Action := *;
        if Enabled(s, a) && a != Step(r) && !(a.Fail? && a.r == r) { Do(a); }
        turns := turns - 1;
      }
    }

    /** One statement of request `r`, after whatever the others did unless it is alone. */
    method Statement(r: nat, alone: bool, fails: bool)
      requires Valid() && r in s.reqs && !s.reqs[r].phase.Done?
      modifies this
      ensures Valid() && r in s.reqs && s.reqs[r] == old(s.reqs[r]).(phase := s.reqs[r].phase)
      ensures if fails then s.reqs[r].phase == Done(500) else Moved(s.db, old(s.reqs[r]), s.reqs[r].phase)
      ensures alone && !fails ==>
                s.reqs[r].phase == Next(old(s.db), old(s.reqs[r])) && s.db == Effect(old(s.db), old(s.reqs[r]))
    {
      if !alone { OthersRun(r); }
      var applied: bool := *;
      Do(if fails then Fail(r, applied) else Step(r));
    }

    /**
     The endpoints, from the access check to the status they answer with; `errors` are the
     statements that raise: 0 for the access check, 1 and 2 for the checks of caller and
     target, 3 for the write.  A member reported removed is gone and was not the owner; one
     reported added is there with the role asked for; a project reported deleted admits
     nobody any more.  A request that meets no error and nobody else is answered, and
     carried out, as the tables it finds ask for.
     */
    method Serve(r: nat, caller: string, admin: bool, project: string, ask: Ask, alone: bool, errors: set<nat>)
      returns (status: nat)
      requires Valid() && r !in s.reqs && (ask.Add? ==> ask.role != Owner)
      modifies this
      ensures Valid() && r in s.reqs && s.reqs[r] == Request(caller, admin, project, ask, Done(status))
      ensures status in {200, 201, 202, 403, 404, 409, 500}
      ensures status == 201 ==>
                ask.Add? && (project, ask.target) in s.db.members && s.db.members[(project, ask.target)] == ask.role
      ensures status == 409 ==> ask.Add? && (project, ask.target) in s.db.members
      ensures ask == Remove(caller) ==> status in {403, 404, 500}
      ensures status == 200 ==> ask.Remove? && (project, ask.target) !in s.db.members
      ensures status == 202 ==> ask.Delete? && forall u, any :: !Admits(s.db, u, any, project)
      ensures status == 500 ==> errors != {} || (ask.Add? && project !in s.db.projects)
      ensures Owned(s.db)
      ensures alone && errors == {} ==> Answered(old(s.db), s.db, caller, admin, project, ask, status)
    {
      hide Exec, Next, Effect, Owned, Answered, Admits;
      Do(Receive(r, caller, admin, project, ask));
      ghost var was, q := s.db, s.reqs[r];
      Statement(r, alone, 0 in errors);
      ghost var ph1, db1 := s.reqs[r].phase, s.db;
      if !s.reqs[r].phase.Done? { Statement(r, alone, 1 in errors); }
      ghost var ph2, db2 := s.reqs[r].phase, s.db;
      if !s.reqs[r].phase.Done? { Statement(r, alone, 2 in errors); }
      ghost var ph3, db3 := s.reqs[r].phase, s.db;
      if !s.reqs[r].phase.Done? { Statement(r, alone, 3 in errors); }
      status := s.reqs[r].phase.status;
      if alone && errors == {} {
        OneAfterTheOther(was, q, [ph1, ph2, ph3, s.reqs[r].phase], [db1, db2, db3, s.db]);
      }
      Reachable(log, s);
    }
  }

  /** Four statements without anything between them answer the request. */
  lemma OneAfterTheOther(was: Tables, q: Request, phs: seq<Phase>, dbs: seq<Tables>)
    requires q.phase == Verify && |phs| == |dbs| == 4
    requires phs[0] == Next(was, q) && dbs[0] == Effect(was, q)
    requires forall k | 0 <= k < 3 ::
               if phs[k].Done? then phs[k + 1] == phs[k] && dbs[k + 1] == dbs[k]
               else phs[k + 1] == Next(dbs[k], q.(phase := phs[k])) && dbs[k + 1] == Effect(dbs[k], q.(phase := phs[k]))
    ensures phs[3].Done? ==> Answered(was, dbs[3], q.caller, q.admin, q.project, q.ask, phs[3].status)
  {
    assert phs[1] == if phs[0].Done? then phs[0] else Next(was, q.(phase := phs[0]));
    assert phs[2] == if phs[1].Done? then phs[1] else Next(was, q.(phase := phs[1]));
  }

  /** The answer to a request that finds the tables `was` and leaves them `now`, from the data alone. */
  ghost predicate Answered(was: Tables, now: Tables, caller: string, admin: bool, project: string, ask: Ask,
      status: nat) {
    var admitted := && project in was.projects && !was.projects[project].deleted
                    && (admin || (project, caller) in was.members);
    var manages := admin || ((project, caller) in was.members && was.members[(project, caller)] == Owner);
    if !admitted then status == (if admin then 404 else 403) && now == was
    else if ask == Remove(caller) || !manages then status == 403 && now == was
    else match ask
      case Add(target, role) =>
        if target !in was.users then status == 404 && now == was
        else if (project, target) in was.members then status == 409 && now == was
        else status == 201 && now == was.(members := was.members[(project, target) := role])
      case Remove(target) =>
        if (project, target) !in was.members then status == 404 && now == was
        else if was.members[(project, target)] == Owner then status == 403 && now == was
        else status == 200 && now == was.(members := was.members - {(project, target)})
      case Delete =>
        status == 202 && now == was.(projects := was.projects[project := was.projects[project].(deleted := true)])
  }

  /** What a request's statement can have made of its phase, given the tables it left. */
  ghost predicate Moved(db: Tables, q: Request, ph: Phase) {
    match q.phase
    case Verify =>
      || (ph == CheckCaller && Admits(db, q.caller, q.admin, q.project) && q.ask != Remove(q.caller))
      || (ph == Done(403) && (q.ask == Remove(q.caller) || (!q.admin && !Admits(db, q.caller, q.admin, q.project))))
      || (ph == Done(404) && q.admin && !Admits(db, q.caller, q.admin, q.project))
    case CheckCaller => ph in {Done(403), CheckTarget}
    case CheckTarget => ph in {Done(403), Done(404), Act}
    case Act =>
      (match q.ask
       case Add(target, role) =>
         || (ph == Done(409) && (q.project, target) in db.members)
         || (ph == Done(500) && q.project !in db.projects)
         || (ph == Done(201) && (q.project, target) in db.members && db.members[(q.project, target)] == role)
       case Remove(target) => ph == Done(200) && (q.project, target) !in db.members
       case Delete => ph == Done(202) && forall u, any :: !Admits(db, u, any, q.project))
    case Done(_) => ph == q.phase
  }
}
