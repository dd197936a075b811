/**
 One project's deployments and their cluster objects: what a controller tick makes of
 them, and the fixpoint that ticks reach.
 */
module Reconciler {
  import opened Protocol
  import opened ProtocolImages

  /**
   The rows, the objects in the project's namespace, and the controller's counters.  A
   deployment `d` names its objects `d`, `d-svc` and `d-route`; a set of objects holds
   the deployments they are named after.
   */
  datatype Cluster = Cluster(
    rows: map<string, RowState>,
    deps: set<string>,
    svcs: set<string>,
    routes: set<string>,
    drift: nat,
    successes: nat,
    active: nat)

  predicate Complete(c: Cluster, d: string) {
    d in c.deps && d in c.svcs && d in c.routes
  }

  /** The rows whose objects must exist. */
  predicate Wanted(c: Cluster, d: string) { d in c.rows && Served(c.rows[d]) }

  function Missing(c: Cluster): set<string> { set d | d in c.rows && Wanted(c, d) && !Complete(c, d) }

  function Failing(c: Cluster, ready: string -> nat): set<string> {
    set d | d in c.rows && c.rows[d] == Running && Complete(c, d) && ready(d) == 0
  }

  function Starting(c: Cluster, ready: string -> nat): set<string> {
    set d | d in c.rows && c.rows[d] in {Deploying, Verifying} && Complete(c, d) && ready(d) > 0
  }

  function Orphans(c: Cluster): set<string> { set k | k in c.deps && !Wanted(c, k) }

  function Counted(c: Cluster, ready: string -> nat): set<string> {
    set d | d in c.rows && c.rows[d] == Running && d in c.deps && ready(d) > 0
  }

  function NewState(c: Cluster, ready: string -> nat, d: string): RowState
    requires d in c.rows
  {
    if d in Failing(c, ready) then Failed else if d in Starting(c, ready) then Running else c.rows[d]
  }

  /** The orphans whose route goes too: deleting a missing Service raises and skips the route. */
  function Cleaned(c: Cluster): set<string> {
    set k | k in Orphans(c) && k in c.svcs
  }

  /** One tick without Kubernetes or database errors.  All decisions look at the rows and
      objects as they were when the tick began. */
  function Tick(c: Cluster, ready: string -> nat): Cluster {
    Cluster(
      map d | d in c.rows :: NewState(c, ready, d),
      c.deps + Missing(c) - Orphans(c),
      c.svcs + Missing(c) - Orphans(c),
      c.routes + Missing(c) - Cleaned(c),
      c.drift + |Missing(c)| + |Failing(c, ready)| + |Orphans(c)|,
      c.successes + |Starting(c, ready)|,
      |Counted(c, ready)|)
  }

  // ---------------------------------------------------------------- the way to the fixpoint

  /** What was wanted has all its objects after a tick, and nothing else has a Deployment. */
  lemma AfterTick(c: Cluster, ready: string -> nat)
    ensures var t := Tick(c, ready);
            && (forall d | Wanted(c, d) :: Complete(t, d))
            && (forall d | d in t.deps :: Wanted(c, d))
            && (forall d | Wanted(t, d) :: Wanted(c, d))
  {
  }

  /**
   The same tick, row by row and object by object, from the data alone.  A row is Running
   afterwards if it was about to be and its objects and replicas are there, or if it was and
   they do not show that it failed; it is Failed if it was, or if they do.
   */
  lemma TickExactly(c: Cluster, ready: string -> nat, d: string)
    ensures var t := Tick(c, ready);
            var whole := d in c.deps && d in c.svcs && d in c.routes;
            var wanted := d in c.rows && c.rows[d] in {Deploying, Verifying, Running};
            && (d in t.rows <==> d in c.rows)
            && (d in c.rows ==>
                  && (t.rows[d] == Running <==> (c.rows[d] in {Deploying, Verifying} && whole && ready(d) > 0)
                                                || (c.rows[d] == Running && !(whole && ready(d) == 0)))
                  && (t.rows[d] == Failed <==> c.rows[d] == Failed || (c.rows[d] == Running && whole && ready(d) == 0))
                  && (t.rows[d] == c.rows[d] || t.rows[d] in {Running, Failed}))
            && (d in t.deps <==> wanted)
            && (d in t.svcs <==> wanted || (d in c.svcs && d !in c.deps))
            && (d in t.routes <==> wanted || (d in c.routes && !(d in c.deps && d in c.svcs)))
  {
  }

  /** And its counters: corrections, promotions, and ready Running rows with a Deployment. */
  lemma TickCounts(c: Cluster, ready: string -> nat, missing: set<string>, failing: set<string>,
      starting: set<string>, orphans: set<string>, counted: set<string>)
    requires forall d :: d in missing <==>
               d in c.rows && c.rows[d] in {Deploying, Verifying, Running}
               && !(d in c.deps && d in c.svcs && d in c.routes)
    requires forall d :: d in failing <==>
               d in c.rows && c.rows[d] == Running && d in c.deps && d in c.svcs && d in c.routes && ready(d) == 0
    requires forall d :: d in starting <==>
               d in c.rows && c.rows[d] in {Deploying, Verifying}
               && d in c.deps && d in c.svcs && d in c.routes && ready(d) > 0
    requires forall d :: d in orphans <==>
               d in c.deps && !(d in c.rows && c.rows[d] in {Deploying, Verifying, Running})
    requires forall d :: d in counted <==> d in c.rows && c.rows[d] == Running && d in c.deps && ready(d) > 0
    ensures var t := Tick(c, ready);
            && t.drift == c.drift + |missing| + |failing| + |orphans|
            && t.successes == c.successes + |starting| && t.active == |counted|
  {
    assert missing == Missing(c) by { hide Failing, Starting, Orphans, Counted, Tick; }
    assert failing == Failing(c, ready) by { hide Missing, Starting, Orphans, Counted, Tick; }
    assert starting == Starting(c, ready) by { hide Missing, Failing, Orphans, Counted, Tick; }
    assert orphans == Orphans(c) by { hide Missing, Failing, Starting, Counted, Tick; }
    assert counted == Counted(c, ready) by { hide Missing, Failing, Starting, Orphans, Tick; }
    hide Missing, Failing, Starting, Orphans, Counted, Cleaned, NewState;
  }

  ghost predicate NoneMissing(c: Cluster) { forall d | Wanted(c, d) :: Complete(c, d) }

  ghost predicate NoneMoving(c: Cluster, ready: string -> nat) {
    Failing(c, ready) == {} && Starting(c, ready) == {}
  }

  /** Exactly the wanted rows have a Deployment, each with its Service and route. */
  ghost predicate Settled(c: Cluster) {
    && (forall d :: d in c.deps <==> Wanted(c, d))
    && (forall d | d in c.deps :: d in c.svcs && d in c.routes)
  }

  lemma FirstTick(c: Cluster, ready: string -> nat)
    ensures NoneMissing(Tick(c, ready))
  {
    AfterTick(c, ready);
  }

  lemma SecondTick(c: Cluster, ready: string -> nat)
    requires NoneMissing(c)
    ensures NoneMissing(Tick(c, ready)) && NoneMoving(Tick(c, ready), ready)
  {
    AfterTick(c, ready);
    var t := Tick(c, ready);
    forall d | d in t.rows ensures d !in Failing(t, ready) && d !in Starting(t, ready) {
      assert t.rows[d] == NewState(c, ready, d);
      assert Wanted(c, d) ==> Complete(c, d);
    }
  }

  lemma ThirdTick(c: Cluster, ready: string -> nat)
    requires NoneMissing(c) && NoneMoving(c, ready)
    ensures Settled(Tick(c, ready)) && NoneMoving(Tick(c, ready), ready)
    ensures Counted(Tick(c, ready), ready) == Counted(c, ready)
  {
    RowsStand(c, ready);
    SettledThen(c, ready);
    CountedStand(c, ready);
    hide Tick, Settled, Counted, Missing, Orphans, Cleaned;
    MovingStand(c, ready);
  }

  lemma RowsStand(c: Cluster, ready: string -> nat)
    requires NoneMoving(c, ready)
    ensures Tick(c, ready).rows == c.rows
  {
  }

  lemma SettledThen(c: Cluster, ready: string -> nat)
    requires NoneMissing(c) && Tick(c, ready).rows == c.rows
    ensures Settled(Tick(c, ready))
  {
    AfterTick(c, ready);
  }

  lemma CountedStand(c: Cluster, ready: string -> nat)
    requires NoneMissing(c) && Tick(c, ready).rows == c.rows
    ensures Counted(Tick(c, ready), ready) == Counted(c, ready)
  {
    AfterTick(c, ready);
    hide Missing, Failing, Starting, Cleaned;
  }

  lemma MovingStand(c: Cluster, ready: string -> nat)
    requires NoneMissing(c) && NoneMoving(c, ready) && Tick(c, ready).rows == c.rows
    ensures NoneMoving(Tick(c, ready), ready)
  {
    AfterTick(c, ready);
    forall d ensures d !in Failing(Tick(c, ready), ready) && d !in Starting(Tick(c, ready), ready) {
      assert d !in Failing(c, ready) && d !in Starting(c, ready);
      hide Tick, Missing, Orphans, Cleaned, Counted;
    }
  }

  /** A settled cluster in which nothing moves is left as it is. */
  lemma Fixpoint(c: Cluster, ready: string -> nat)
    requires Settled(c) && NoneMoving(c, ready)
    ensures Tick(c, ready) == c.(active := |Counted(c, ready)|)
  {
    assert Missing(c) == {} && Orphans(c) == {} && Cleaned(c) == {};
    assert Tick(c, ready).rows == c.rows;
    hide Missing, Failing, Starting, Orphans, Cleaned, Counted, Complete, Settled, NewState;
  }

  /** The state after `n` ticks. */
  function Ticks(c: Cluster, ready: string -> nat, n: nat): Cluster {
    if n == 0 then c else Tick(Ticks(c, ready, n - 1), ready)
  }

  lemma ThreeTicks(c: Cluster, ready: string -> nat)
    ensures Settled(Ticks(c, ready, 3)) && Tick(Ticks(c, ready, 3), ready) == Ticks(c, ready, 3)
  {
    hide Tick, Settled, NoneMissing, NoneMoving, Counted;
    var c1, c2, c3 := Ticks(c, ready, 1), Ticks(c, ready, 2), Ticks(c, ready, 3);
    assert Ticks(c, ready, 0) == c;
    assert c1 == Tick(c, ready) && c2 == Tick(c1, ready) && c3 == Tick(c2, ready);
    FirstTick(c, ready);
    SecondTick(c1, ready);
    ThirdTick(c2, ready);
    Fixpoint(c3, ready);
    CountedShown(c2, ready);
  }

  lemma CountedShown(c: Cluster, ready: string -> nat)
    ensures Tick(c, ready).active == |Counted(c, ready)|
  {
  }

  /**
   From any rows and any objects, three ticks reach a state where exactly the wanted
   rows have a Deployment, each with its Service and route; every later tick writes
   nothing and leaves the counters and the gauge alone.
   */
  lemma {:induction false} ThreeTicksSettle(c: Cluster, ready: string -> nat, n: nat)
    requires n >= 3
    ensures Settled(Ticks(c, ready, n)) && Ticks(c, ready, n) == Ticks(c, ready, 3)
  {
    hide Tick, Settled;
    ThreeTicks(c, ready);
    if n > 3 { ThreeTicksSettle(c, ready, n - 1); }
  }

  /** A row recreated by one tick and failed by the next still has its Deployment. */
  lemma FailedKeepsDeployment(c: Cluster, ready: string -> nat, d: string)
    requires d in Failing(c, ready)
    ensures d in Tick(c, ready).deps && !Wanted(Tick(c, ready), d)
  {
  }

  /** A Running row that has lost its objects and does not become ready: it is recreated,
      then failed, and its Deployment is removed only by the third tick. */
  predicate NeedsThird(c: Cluster, ready: string -> nat, d: string) {
    d in c.rows && c.rows[d] == Running && !Complete(c, d) && ready(d) == 0
  }

  /** What moves in the second tick and is no longer wanted after it. */
  lemma FailsSecond(c: Cluster, ready: string -> nat, d: string)
    ensures d in Failing(Tick(c, ready), ready) <==> NeedsThird(c, ready, d)
  {
    AfterTick(c, ready);
    if d in c.rows { assert Tick(c, ready).rows[d] == NewState(c, ready, d); }
  }

  /** Without a failing row a tick on a cluster with nothing missing settles it. */
  lemma SettlesUnlessFailing(c: Cluster, ready: string -> nat)
    requires NoneMissing(c)
    ensures Settled(Tick(c, ready)) <==> Failing(c, ready) == {}
  {
    AfterTick(c, ready);
    if d :| d in Failing(c, ready) { FailedKeepsDeployment(c, ready, d); }
    forall d | d in c.rows && d !in Failing(c, ready) && Wanted(c, d) ensures Wanted(Tick(c, ready), d) {
      assert Tick(c, ready).rows[d] == NewState(c, ready, d);
    }
  }

  /** Two ticks settle exactly the clusters without such a row. */
  lemma TwoTicksSettle(c: Cluster, ready: string -> nat)
    ensures Settled(Ticks(c, ready, 2)) <==> forall d :: !NeedsThird(c, ready, d)
  {
    assert Ticks(c, ready, 0) == c && Ticks(c, ready, 1) == Tick(c, ready);
    FirstTick(c, ready);
    SettlesUnlessFailing(Tick(c, ready), ready);
    assert Ticks(c, ready, 2) == Tick(Tick(c, ready), ready);
    hide Tick, Ticks, Failing, Settled, NeedsThird;
    if d :| NeedsThird(c, ready, d) {
      FailsSecond(c, ready, d);
    } else {
      forall d ensures d !in Failing(Tick(c, ready), ready) { FailsSecond(c, ready, d); }
    }
  }

  // ---------------------------------------------------------------- the code

  /** What the environment makes fail during one tick.  A call that fails may have taken
      effect all the same: an object that was made although its call failed is not among
      those whose `Apply` failed, and for rows and deletions the effect is told apart. */
  datatype Faults = Faults(
    listing: bool,            // listing Deployments or Services raises, or listing routes anything but an ApiException
    routeListing: bool,       // listing routes raises an ApiException: no routes are seen
    render: set<string>,      // rendering or parsing the manifests of this row raises
    depApply: set<string>,    // creating or patching this Deployment fails, with a warning
    svcApply: set<string>,
    routeApply: set<string>,
    update: set<string>,      // the UPDATE of this row raises
    lost: set<string>,        // the UPDATE of this row takes effect and raises
    delete: set<string>,      // deleting this Deployment raises
    deleteTook: set<string>,  // and took effect
    svcDelete: set<string>,   // deleting this Service raises an ApiException
    svcBreak: set<string>,    // deleting this Service raises anything else
    svcTook: set<string>,     // and, in either case, took effect
    routeDelete: set<string>,
    routeBreak: set<string>,
    routeTook: set<string>)
  {
    /** Rows whose objects are not made, and objects that stay. */
    ghost function NoDeployment(): set<string> { render + depApply }

    ghost function NoService(): set<string> { render + svcApply }

    ghost function NoRoute(): set<string> { render + routeApply }

    ghost function KeepsDeployment(): set<string> { delete - deleteTook }

    ghost function KeepsService(): set<string> { svcDelete + svcBreak - svcTook }

    ghost function KeepsRoute(): set<string> { routeDelete + routeBreak - routeTook }

    /** Orphans whose Service's deletion raises. */
    ghost function ServiceRaises(): set<string> { svcDelete + svcBreak }

    /** Rows whose promotion is not counted. */
    ghost function NoPromotion(): set<string> { update + lost }
  }

  const NO_FAULTS := Faults(false, false, {}, {}, {}, {}, {}, {}, {}, {}, {}, {}, {}, {}, {}, {})

  ghost predicate Moves(seen: Cluster, ready: string -> nat, d: string) {
    d in Failing(seen, ready) || d in Starting(seen, ready)
  }

  /** The row's turn ends the tick. */
  ghost predicate RowRaises(seen: Cluster, ready: string -> nat, f: Faults, d: string) {
    (Moves(seen, ready, d) && d in f.update + f.lost) || (d in Missing(seen) && d in f.render)
  }

  /** The effect of phase 1 on one row, given what the tick saw. */
  ghost predicate RowRepaired(b: Cluster, e: Cluster, seen: Cluster, ready: string -> nat, f: Faults,
      d: string, aborted: bool) {
    && (aborted <==> RowRaises(seen, ready, f, d))
    && d in b.rows
    && e.rows == (
         if !Moves(seen, ready, d) || d in f.update then b.rows
         else b.rows[d := if d in Failing(seen, ready) then Failed else Running])
    && (if d in Missing(seen) then
          && e.deps == b.deps + ({d} - f.NoDeployment())
          && e.svcs == b.svcs + ({d} - f.NoService())
          && e.routes == b.routes + ({d} - f.NoRoute())
        else e.deps == b.deps && e.svcs == b.svcs && e.routes == b.routes)
    && e.drift == b.drift + (if d in Missing(seen) || d in Failing(seen, ready) then 1 else 0)
    && e.successes == b.successes + (if d in Starting(seen, ready) && !aborted then 1 else 0)
    && e.active == b.active
  }

  /** The rows after phase 1 has gone through those in `done`. */
  ghost function RowsAfter(seen: Cluster, ready: string -> nat, f: Faults, done: set<string>): map<string, RowState> {
    map d | d in seen.rows ::
      if d in done && d in Failing(seen, ready) && d !in f.update then Failed
      else if d in done && d in Starting(seen, ready) && d !in f.update then Running
      else seen.rows[d]
  }

  ghost predicate ObjectsRepaired(v: Cluster, c: Cluster, seen: Cluster, f: Faults, done: set<string>) {
    && v.deps == c.deps + (Missing(seen) * done - f.NoDeployment())
    && v.svcs == c.svcs + (Missing(seen) * done - f.NoService())
    && v.routes == c.routes + (Missing(seen) * done - f.NoRoute())
  }

  ghost predicate Counts(v: Cluster, c: Cluster, seen: Cluster, ready: string -> nat, f: Faults, done: set<string>) {
    && v.drift == c.drift + |Missing(seen) * done| + |Failing(seen, ready) * done|
    && v.successes == c.successes + |Starting(seen, ready) * done - f.NoPromotion()|
    && v.active == c.active
  }

  /** What phase 1 has made of `c` once it has gone through the rows in `done`. */
  ghost predicate PhaseOne(v: Cluster, c: Cluster, seen: Cluster, ready: string -> nat, f: Faults, done: set<string>) {
    && v.rows == RowsAfter(seen, ready, f, done)
    && ObjectsRepaired(v, c, seen, f, done)
    && Counts(v, c, seen, ready, f, done)
  }

  lemma RowsStep(b: Cluster, e: Cluster, seen: Cluster, ready: string -> nat, f: Faults, done: set<string>,
      d: string, aborted: bool)
    requires d in seen.rows && d !in done && b.rows == RowsAfter(seen, ready, f, done)
    requires RowRepaired(b, e, seen, ready, f, d, aborted)
    ensures e.rows == RowsAfter(seen, ready, f, done + {d})
  {
  }

  lemma ObjectsStep(b: Cluster, e: Cluster, c: Cluster, seen: Cluster, ready: string -> nat, f: Faults,
      done: set<string>, d: string, aborted: bool)
    requires d !in done && ObjectsRepaired(b, c, seen, f, done) && RowRepaired(b, e, seen, ready, f, d, aborted)
    ensures ObjectsRepaired(e, c, seen, f, done + {d})
  {
    var m := Missing(seen);
    if d in m {
      assert m * (done + {d}) == m * done + {d};
      assert m * (done + {d}) - f.NoDeployment() == (m * done - f.NoDeployment()) + ({d} - f.NoDeployment());
      assert m * (done + {d}) - f.NoService() == (m * done - f.NoService()) + ({d} - f.NoService());
      assert m * (done + {d}) - f.NoRoute() == (m * done - f.NoRoute()) + ({d} - f.NoRoute());
    } else {
      assert m * (done + {d}) == m * done;
    }
  }

  lemma NoneOf(s: set<string>)
    ensures s * {} == {}
  {
  }

  /** One more row counts once in each set it is in. */
  lemma OneMore(s: set<string>, done: set<string>, d: string)
    requires d !in done
    ensures |s * (done + {d})| == |s * done| + (if d in s then 1 else 0)
  {
    assert s * (done + {d}) == s * done + (if d in s then {d} else {});
  }

  lemma CountsStep(b: Cluster, e: Cluster, c: Cluster, seen: Cluster, ready: string -> nat, f: Faults,
      done: set<string>, d: string, aborted: bool)
    requires d !in done && Counts(b, c, seen, ready, f, done) && RowRepaired(b, e, seen, ready, f, d, aborted)
    ensures Counts(e, c, seen, ready, f, done + {d})
  {
    OneMore(Missing(seen), done, d);
    OneMore(Failing(seen, ready), done, d);
    var s, u := Starting(seen, ready), f.NoPromotion();
    OneMore(s - u, done, d);
    assert s * done - u == (s - u) * done && s * (done + {d}) - u == (s - u) * (done + {d});
  }

  /** Some row gone through had its manifests, or its UPDATE, raise. */
  ghost predicate Raised(seen: Cluster, ready: string -> nat, f: Faults, done: set<string>) {
    exists d | d in done :: RowRaises(seen, ready, f, d)
  }

  lemma PhaseOneStart(c: Cluster, seen: Cluster, ready: string -> nat, f: Faults)
    requires c.rows == seen.rows
    ensures PhaseOne(c, c, seen, ready, f, {})
  {
    assert c.rows == RowsAfter(seen, ready, f, {});
    hide Missing, Failing, Starting, RowsAfter;
    NoneOf(Missing(seen));
    NoneOf(Failing(seen, ready));
    NoneOf(Starting(seen, ready));
  }

  lemma PhaseOneStep(b: Cluster, e: Cluster, c: Cluster, seen: Cluster, ready: string -> nat, f: Faults,
      done: set<string>, d: string, aborted: bool)
    requires d in seen.rows && d !in done && PhaseOne(b, c, seen, ready, f, done) && !Raised(seen, ready, f, done)
    requires RowRepaired(b, e, seen, ready, f, d, aborted)
    ensures PhaseOne(e, c, seen, ready, f, done + {d})
    ensures Raised(seen, ready, f, done + {d}) <==> aborted
  {
    RowsStep(b, e, seen, ready, f, done, d, aborted);
    ObjectsStep(b, e, c, seen, ready, f, done, d, aborted);
    CountsStep(b, e, c, seen, ready, f, done, d, aborted);
  }

  /** What phase 2 has made of `b` once it has gone through the Deployments in `gone`. */
  ghost predicate PhaseTwo(v: Cluster, b: Cluster, seen: Cluster, f: Faults, gone: set<string>) {
    var orphans := Orphans(seen) * gone;
    var deleted := orphans - f.delete;
    && v.rows == b.rows && v.successes == b.successes && v.active == b.active
    && v.deps == b.deps - (orphans - f.KeepsDeployment())
    && v.svcs == b.svcs - (deleted - f.KeepsService())
    && v.routes == b.routes - ((deleted - f.ServiceRaises()) * b.svcs - f.KeepsRoute())
    && v.drift == b.drift + |orphans|
  }

  lemma PhaseTwoStart(b: Cluster, seen: Cluster, f: Faults)
    ensures PhaseTwo(b, b, seen, f, {})
  {
    NoneOf(Orphans(seen));
  }

  /** One orphan gone: its Deployment, then its Service, and its route only if the Service
      was there and its deletion returned. */
  ghost predicate OrphanRemoved(v: Cluster, w: Cluster, f: Faults, k: string) {
    var routed := k !in f.delete && k in v.svcs && k !in f.ServiceRaises();
    && w.rows == v.rows && w.successes == v.successes && w.active == v.active
    && w.deps == v.deps - ({k} - f.KeepsDeployment())
    && w.svcs == v.svcs - (if k !in f.delete && k !in f.KeepsService() then {k} else {})
    && w.routes == v.routes - (if routed && k !in f.KeepsRoute() then {k} else {})
    && w.drift == v.drift + 1
  }

  /** The orphan's turn ends the tick. */
  ghost predicate OrphanRaises(v: Cluster, f: Faults, k: string) {
    k in f.delete || k in f.svcBreak || (k in v.svcs && k !in f.svcDelete && k in f.routeBreak)
  }

  lemma PhaseTwoStep(v: Cluster, w: Cluster, b: Cluster, seen: Cluster, f: Faults, gone: set<string>, k: string)
    requires k in seen.deps && k !in gone && PhaseTwo(v, b, seen, f, gone)
    requires if k in Orphans(seen) then OrphanRemoved(v, w, f, k) else w == v
    ensures PhaseTwo(w, b, seen, f, gone + {k})
  {
    OneMore(Orphans(seen), gone, k);
    hide Orphans;
    var was, now := Orphans(seen) * gone, Orphans(seen) * (gone + {k});
    assert now == was + (if k in Orphans(seen) then {k} else {});
  }

  /** What a tick's faults leave undone, seen from the whole run of the two phases. */
  ghost predicate OnlyDecided(v: Cluster, c: Cluster, seen: Cluster, ready: string -> nat) {
    && v.rows.Keys == c.rows.Keys
    && (forall d | d in v.rows && v.rows[d] != c.rows[d] ::
          if v.rows[d] == Running then d in Starting(seen, ready) else v.rows[d] == Failed && d in Failing(seen, ready))
  }

  /** The rows that became `Running`. */
  ghost function Promoted(v: Cluster, c: Cluster): set<string> {
    set d | d in c.rows && d in v.rows && v.rows[d] == Running && c.rows[d] != Running
  }

  lemma PhaseOneDecides(v: Cluster, c: Cluster, seen: Cluster, ready: string -> nat, f: Faults, done: set<string>)
    requires c.rows == seen.rows && v.rows == RowsAfter(seen, ready, f, done)
    ensures OnlyDecided(v, c, seen, ready)
    ensures Promoted(v, c) == Starting(seen, ready) * done - f.update
  {
  }

  /** A row counted in the gauge is not one the tick fails. */
  lemma CountedStayRunning(v: Cluster, seen: Cluster, ready: string -> nat, f: Faults, done: set<string>)
    requires v.rows == RowsAfter(seen, ready, f, done)
    ensures forall d | d in Counted(seen, ready) :: d in v.rows && v.rows[d] == Running
  {
  }

  lemma RowsWithoutFaults(c: Cluster, ready: string -> nat)
    ensures RowsAfter(c, ready, NO_FAULTS, c.rows.Keys) == Tick(c, ready).rows
  {
  }

  /** What the two phases leave, whatever failed, in the terms the tick reports. */
  ghost predicate Reported(w: Cluster, c: Cluster, seen: Cluster, ready: string -> nat, f: Faults,
      done: set<string>, gone: set<string>) {
    && OnlyDecided(w, c, seen, ready)
    && w.successes == c.successes + |Promoted(w, c) - f.lost|
    && w.drift == c.drift + |Missing(seen) * done| + |Failing(seen, ready) * done| + |Orphans(seen) * gone|
    && w.active == c.active
    && (forall d | d in Counted(seen, ready) :: d in w.rows && w.rows[d] == Running)
  }

  lemma NothingReported(c: Cluster, seen: Cluster, ready: string -> nat, f: Faults)
    requires c.rows == seen.rows
    ensures Reported(c, c, seen, ready, f, {}, {})
  {
    assert Promoted(c, c) == {};
    assert forall d | d in Counted(seen, ready) :: d in c.rows && c.rows[d] == Running;
    hide Missing, Failing, Starting, Orphans, Counted, Promoted;
    NoneOf(Missing(seen));
    NoneOf(Failing(seen, ready));
    NoneOf(Orphans(seen));
  }

  lemma PhaseOneReported(v: Cluster, c: Cluster, seen: Cluster, ready: string -> nat, f: Faults, done: set<string>)
    requires c.rows == seen.rows && PhaseOne(v, c, seen, ready, f, done)
    ensures Reported(v, c, seen, ready, f, done, {})
  {
    PhaseOneDecides(v, c, seen, ready, f, done);
    CountedStayRunning(v, seen, ready, f, done);
    assert Promoted(v, c) - f.lost == Starting(seen, ready) * done - f.NoPromotion();
    NoneOf(Orphans(seen));
  }

  lemma PhaseTwoReported(w: Cluster, v: Cluster, c: Cluster, seen: Cluster, ready: string -> nat, f: Faults,
      done: set<string>, gone: set<string>)
    requires c.rows == seen.rows && Reported(v, c, seen, ready, f, done, {}) && PhaseTwo(w, v, seen, f, gone)
    ensures Reported(w, c, seen, ready, f, done, gone)
  {
    NoneOf(Orphans(seen));
    assert Promoted(w, c) == Promoted(v, c);
  }

  /** What a tick leaves of the row, whatever failed; `done` are the rows it got to. */
  ghost function RowLeft(c: Cluster, seen: Cluster, ready: string -> nat, f: Faults, done: set<string>,
      d: string): RowState
    requires d in c.rows
  {
    if d !in done || d in f.update || d !in seen.deps || d !in seen.svcs || d !in seen.routes then c.rows[d]
    else if c.rows[d] == Running && ready(d) == 0 then Failed
    else if c.rows[d] in {Deploying, Verifying} && ready(d) > 0 then Running
    else c.rows[d]
  }

  /** Its objects are made anew. */
  ghost predicate Made(c: Cluster, seen: Cluster, f: Faults, done: set<string>, d: string) {
    && d in done && d in c.rows && c.rows[d] in {Deploying, Verifying, Running}
    && !(d in seen.deps && d in seen.svcs && d in seen.routes) && d !in f.render
  }

  /** Its objects are deleted; `gone` are the Deployments the tick got to. */
  ghost predicate Gone(c: Cluster, seen: Cluster, gone: set<string>, d: string) {
    d in gone && d in seen.deps && !(d in c.rows && c.rows[d] in {Deploying, Verifying, Running})
  }

  ghost predicate DeploymentLeft(c: Cluster, seen: Cluster, f: Faults, done: set<string>, gone: set<string>,
      d: string) {
    && (d in c.deps || (Made(c, seen, f, done, d) && d !in f.depApply))
    && !(Gone(c, seen, gone, d) && (d !in f.delete || d in f.deleteTook))
  }

  ghost predicate ServiceLeft(c: Cluster, seen: Cluster, f: Faults, done: set<string>, gone: set<string>, d: string) {
    && (d in c.svcs || (Made(c, seen, f, done, d) && d !in f.svcApply))
    && !(Gone(c, seen, gone, d) && d !in f.delete && (d !in f.svcDelete + f.svcBreak || d in f.svcTook))
  }

  ghost predicate RouteLeft(c: Cluster, seen: Cluster, f: Faults, done: set<string>, gone: set<string>, d: string) {
    && (d in c.routes || (Made(c, seen, f, done, d) && d !in f.routeApply))
    && !(Gone(c, seen, gone, d) && d !in f.delete && d in c.svcs && d !in f.svcDelete + f.svcBreak
         && (d !in f.routeDelete + f.routeBreak || d in f.routeTook))
  }

  /**
   What a tick leaves of the rows and objects `c` it began with, whatever failed, from the
   data alone; `seen` is what its listings showed.
   */
  ghost predicate Left(w: Cluster, c: Cluster, seen: Cluster, ready: string -> nat, f: Faults,
      done: set<string>, gone: set<string>) {
    && w.rows.Keys == c.rows.Keys
    && (forall d | d in c.rows :: w.rows[d] == RowLeft(c, seen, ready, f, done, d))
    && (forall d :: d in w.deps <==> DeploymentLeft(c, seen, f, done, gone, d))
    && (forall d :: d in w.svcs <==> ServiceLeft(c, seen, f, done, gone, d))
    && (forall d :: d in w.routes <==> RouteLeft(c, seen, f, done, gone, d))
  }

  lemma MadeIsMissing(c: Cluster, seen: Cluster, f: Faults, done: set<string>, gone: set<string>, d: string)
    requires seen.rows == c.rows
    ensures Made(c, seen, f, done, d) <==> d in Missing(seen) * done && d !in f.render
    ensures Gone(c, seen, gone, d) <==> d in Orphans(seen) * gone
    ensures !(d in Missing(seen) && d in Orphans(seen))
  {
  }

  lemma RowsLeft(w: Cluster, c: Cluster, seen: Cluster, ready: string -> nat, f: Faults, done: set<string>, d: string)
    requires seen.rows == c.rows && w.rows == RowsAfter(seen, ready, f, done) && d in c.rows
    ensures w.rows[d] == RowLeft(c, seen, ready, f, done, d)
  {
  }

  lemma ObjectsLeft(w: Cluster, v: Cluster, c: Cluster, seen: Cluster, f: Faults, done: set<string>, gone: set<string>,
      d: string)
    requires seen.rows == c.rows && ObjectsRepaired(v, c, seen, f, done) && PhaseTwo(w, v, seen, f, gone)
    ensures d in w.deps <==> DeploymentLeft(c, seen, f, done, gone, d)
    ensures d in w.svcs <==> ServiceLeft(c, seen, f, done, gone, d)
    ensures d in w.routes <==> RouteLeft(c, seen, f, done, gone, d)
  {
    MadeIsMissing(c, seen, f, done, gone, d);
    hide Made, Gone, Missing, Orphans;
  }

  lemma RowKeys(seen: Cluster, ready: string -> nat, f: Faults, done: set<string>)
    ensures RowsAfter(seen, ready, f, done).Keys == seen.rows.Keys
  {
  }

  lemma PhasesLeave(w: Cluster, v: Cluster, c: Cluster, seen: Cluster, ready: string -> nat, f: Faults,
      done: set<string>, gone: set<string>)
    requires seen.rows == c.rows && PhaseOne(v, c, seen, ready, f, done) && PhaseTwo(w, v, seen, f, gone)
    ensures Left(w, c, seen, ready, f, done, gone)
  {
    hide Missing, Failing, Starting, Orphans, ObjectsRepaired, Counts, RowLeft, DeploymentLeft, ServiceLeft, RouteLeft;
    RowKeys(seen, ready, f, done);
    hide RowsAfter;
    forall d | d in c.rows ensures w.rows[d] == RowLeft(c, seen, ready, f, done, d) {
      RowsLeft(w, c, seen, ready, f, done, d);
    }
    forall d {
      ObjectsLeft(w, v, c, seen, f, done, gone, d);
    }
  }

  lemma NothingLeft(c: Cluster, seen: Cluster, ready: string -> nat, f: Faults)
    requires c.rows == seen.rows
    ensures Left(c, c, seen, ready, f, {}, {})
  {
    PhaseOneStart(c, seen, ready, f);
    PhaseTwoStart(c, seen, f);
    PhasesLeave(c, c, c, seen, ready, f, {}, {});
  }

  /** A row or a Deployment that the tick got to met an error that can end it. */
  ghost predicate Hit(f: Faults, done: set<string>, gone: set<string>) {
    done * (f.update + f.lost + f.render) != {} || gone * (f.delete + f.svcBreak + f.routeBreak) != {}
  }

  lemma RaisedIsHit(seen: Cluster, ready: string -> nat, f: Faults, done: set<string>)
    requires Raised(seen, ready, f, done)
    ensures Hit(f, done, {})
  {
    var d :| d in done && RowRaises(seen, ready, f, d);
    assert d in done * (f.update + f.lost + f.render);
  }

  lemma AllAreReached(c: Cluster, ready: string -> nat)
    ensures Missing(c) * c.rows.Keys == Missing(c)
    ensures Failing(c, ready) * c.rows.Keys == Failing(c, ready)
    ensures Starting(c, ready) * c.rows.Keys == Starting(c, ready)
    ensures Orphans(c) * c.deps == Orphans(c)
  {
  }

  lemma NothingExcused(x: set<string>)
    ensures x - NO_FAULTS.NoDeployment() == x - NO_FAULTS.NoService() == x - NO_FAULTS.NoRoute() == x
    ensures x - NO_FAULTS.NoPromotion() == x - NO_FAULTS.KeepsService() == x - NO_FAULTS.KeepsRoute() == x
    ensures x - NO_FAULTS.delete == x - NO_FAULTS.KeepsDeployment() == x - NO_FAULTS.ServiceRaises() == x
  {
  }

  lemma PhaseOneWithoutFaults(v: Cluster, c: Cluster, ready: string -> nat)
    requires PhaseOne(v, c, c, ready, NO_FAULTS, c.rows.Keys)
    ensures v.rows == Tick(c, ready).rows && v.active == c.active
    ensures v.deps == c.deps + Missing(c) && v.svcs == c.svcs + Missing(c) && v.routes == c.routes + Missing(c)
    ensures v.drift == c.drift + |Missing(c)| + |Failing(c, ready)| && v.successes == c.successes + |Starting(c, ready)|
  {
    RowsWithoutFaults(c, ready);
    AllAreReached(c, ready);
    NothingExcused(Missing(c));
    NothingExcused(Starting(c, ready));
    hide Missing, Failing, Starting, RowsAfter, Tick;
  }

  lemma PhaseTwoWithoutFaults(w: Cluster, v: Cluster, c: Cluster, ready: string -> nat)
    requires PhaseTwo(w, v, c, NO_FAULTS, c.deps) && v.svcs == c.svcs + Missing(c)
    ensures w.rows == v.rows && w.successes == v.successes && w.drift == v.drift + |Orphans(c)|
    ensures w.deps == v.deps - Orphans(c) && w.svcs == v.svcs - Orphans(c) && w.routes == v.routes - Cleaned(c)
  {
    AllAreReached(c, ready);
    NothingExcused(Orphans(c));
    NothingExcused(Cleaned(c));
    assert Orphans(c) * v.svcs == Cleaned(c);
    hide Orphans, Cleaned, Missing;
  }

  /** Without faults the two phases and the gauge are one tick of the specification. */
  lemma WithoutFaults(v: Cluster, w: Cluster, c: Cluster, ready: string -> nat)
    requires PhaseOne(v, c, c, ready, NO_FAULTS, c.rows.Keys) && PhaseTwo(w, v, c, NO_FAULTS, c.deps)
    ensures w.(active := |Counted(c, ready)|) == Tick(c, ready)
  {
    hide PhaseOne, PhaseTwo, Missing, Failing, Starting, Orphans, Cleaned, Counted, NewState;
    PhaseOneWithoutFaults(v, c, ready);
    PhaseTwoWithoutFaults(w, v, c, ready);
  }

  lemma NothingRaises(seen: Cluster, ready: string -> nat, done: set<string>)
    ensures !Raised(seen, ready, NO_FAULTS, done) && NO_FAULTS.delete + NO_FAULTS.svcBreak + NO_FAULTS.routeBreak == {}
  {
  }

  class Controller {
    var rows: map<string, RowState>
    var deps: set<string>
    var svcs: set<string>
    var routes: set<string>
    var drift: nat
    var successes: nat
    var active: nat
    const ready: string -> nat

    constructor (c: Cluster, ready: string -> nat)
      ensures View() == c && this.ready == ready
    {
      rows, deps, svcs, routes := c.rows, c.deps, c.svcs, c.routes;
      drift, successes, active := c.drift, c.successes, c.active;
      this.ready := ready;
    }

    function View(): Cluster
      reads this
    {
      Cluster(rows, deps, svcs, routes, drift, successes, active)
    }

    /** `apply_manifests` for one deployment: what fails is skipped. */
    method Apply(d: string, f: Faults)
      modifies this`deps, this`svcs, this`routes
      ensures deps == old(deps) + ({d} - f.depApply)
      ensures svcs == old(svcs) + ({d} - f.svcApply)
      ensures routes == old(routes) + ({d} - f.routeApply)
    {
      if d !in f.depApply { deps := deps + {d}; }
      if d !in f.svcApply { svcs := svcs + {d}; }
      if d !in f.routeApply { routes := routes + {d}; }
    }

    method RepairRow(d: string, seen: Cluster, f: Faults) returns (aborted: bool)
      requires d in seen.rows && d in rows
      modifies this`rows, this`deps, this`svcs, this`routes, this`drift, this`successes
      ensures RowRepaired(old(View()), View(), seen, ready, f, d, aborted)
      ensures var st, whole := seen.rows[d], d in seen.deps && d in seen.svcs && d in seen.routes;
              var lacks := st in {Deploying, Verifying, Running} && !whole;
              var fails := st == Running && whole && ready(d) == 0;
              var starts := st in {Deploying, Verifying} && whole && ready(d) > 0;
              && (aborted <==> ((fails || starts) && d in f.update + f.lost) || (lacks && d in f.render))
              && rows == (if (fails || starts) && d !in f.update then old(rows)[d := if fails then Failed else Running]
                          else old(rows))
              && deps == old(deps) + (if lacks && d !in f.render then {d} - f.depApply else {})
              && svcs == old(svcs) + (if lacks && d !in f.render then {d} - f.svcApply else {})
              && routes == old(routes) + (if lacks && d !in f.render then {d} - f.routeApply else {})
              && drift == old(drift) + (if lacks || fails then 1 else 0)
              && successes == old(successes) + (if starts && d !in f.update + f.lost then 1 else 0)
    {
      aborted := false;
      if Served(seen.rows[d]) {
        if d !in seen.deps || d !in seen.svcs || d !in seen.routes {
          drift := drift + 1;
          if d in f.render { return true; }
          Apply(d, f);
        } else if ready(d) == 0 && seen.rows[d] == Running {
          drift := drift + 1;
          if d in f.update { return true; }
          rows := rows[d := Failed];
          if d in f.lost { return true; }
        } else if ready(d) > 0 && seen.rows[d] in {Deploying, Verifying} {
          if d in f.update { return true; }
          rows := rows[d := Running];
          if d in f.lost { return true; }
          successes := successes + 1;
        }
      }
    }

    /** The body of phase 1's loop. */
    method RepairNext(ghost c: Cluster, seen: Cluster, f: Faults, ghost done: set<string>, d: string)
      returns (aborted: bool)
      requires d in seen.rows && d !in done
      requires PhaseOne(View(), c, seen, ready, f, done) && !Raised(seen, ready, f, done)
      modifies this`rows, this`deps, this`svcs, this`routes, this`drift, this`successes
      ensures PhaseOne(View(), c, seen, ready, f, done + {d})
      ensures aborted <==> Raised(seen, ready, f, done + {d})
    {
      ghost var b := View();
      aborted := RepairRow(d, seen, f);
      PhaseOneStep(b, View(), c, seen, ready, f, done, d, aborted);
    }

    /** Phase 1: missing and drifted deployments. */
    method RepairRows(seen: Cluster, f: Faults) returns (aborted: bool, done: set<string>)
      requires rows == seen.rows
      modifies this`rows, this`deps, this`svcs, this`routes, this`drift, this`successes
      ensures done <= seen.rows.Keys && (!aborted ==> done == seen.rows.Keys)
      ensures PhaseOne(View(), old(View()), seen, ready, f, done)
      ensures aborted <==> Raised(seen, ready, f, done)
    {
      hide PhaseOne;
      ghost var c := View();
      var todo := seen.rows.Keys;
      done, aborted := {}, false;
      PhaseOneStart(c, seen, ready, f);
      while todo != {} && !aborted
        invariant todo + done == seen.rows.Keys && todo !! done
        invariant PhaseOne(View(), c, seen, ready, f, done)
        invariant aborted <==> Raised(seen, ready, f, done)
        decreases todo
      {
        var d :| d in todo;
        aborted := RepairNext(c, seen, f, done, d);
        todo, done := todo - {d}, done + {d};
      }
    }

    /** Deletes one orphan.  An error while deleting the Deployment ends the tick, and so does
        one while deleting the Service or route that is not an ApiException; an ApiException
        there skips what is left of this orphan. */
    method RemoveOrphan(k: string, f: Faults) returns (aborted: bool)
      modifies this`deps, this`svcs, this`routes, this`drift
      ensures OrphanRemoved(old(View()), View(), f, k)
      ensures aborted <==> OrphanRaises(old(View()), f, k)
    {
      var serviceThere := k in svcs;
      drift := drift + 1;
      if k !in f.delete || k in f.deleteTook { deps := deps - {k}; }
      if k in f.delete { return true; }
      if k !in f.svcDelete + f.svcBreak || k in f.svcTook { svcs := svcs - {k}; }
      if k in f.svcBreak { return true; }
      if !serviceThere || k in f.svcDelete { return false; }
      if k !in f.routeDelete + f.routeBreak || k in f.routeTook { routes := routes - {k}; }
      aborted := k in f.routeBreak;
    }

    /** The body of phase 2's loop. */
    method RemoveNext(ghost b: Cluster, seen: Cluster, f: Faults, ghost gone: set<string>, k: string)
      returns (aborted: bool)
      requires k in seen.deps && k !in gone && PhaseTwo(View(), b, seen, f, gone)
      modifies this`deps, this`svcs, this`routes, this`drift
      ensures PhaseTwo(View(), b, seen, f, gone + {k})
      ensures aborted ==> k in f.delete + f.svcBreak + f.routeBreak
    {
      hide PhaseTwo, OrphanRemoved;
      ghost var v := View();
      aborted := false;
      if k !in seen.rows || !Served(seen.rows[k]) { aborted := RemoveOrphan(k, f); }
      PhaseTwoStep(v, View(), b, seen, f, gone, k);
    }

    /** Phase 2: Deployments with no wanted row among those read when the tick began. */
    method RemoveOrphans(seen: Cluster, f: Faults) returns (aborted: bool, gone: set<string>)
      modifies this`deps, this`svcs, this`routes, this`drift
      ensures gone <= seen.deps && (!aborted ==> gone == seen.deps)
      ensures aborted ==> gone * (f.delete + f.svcBreak + f.routeBreak) != {}
      ensures PhaseTwo(View(), old(View()), seen, f, gone)
    {
      hide PhaseTwo;
      ghost var b := View();
      var todo := seen.deps;
      gone, aborted := {}, false;
      PhaseTwoStart(b, seen, f);
      while todo != {} && !aborted
        invariant todo + gone == seen.deps && todo !! gone
        invariant PhaseTwo(View(), b, seen, f, gone)
        invariant aborted ==> gone * (f.delete + f.svcBreak + f.routeBreak) != {}
        decreases todo
      {
        var k :| k in todo;
        aborted := RemoveNext(b, seen, f, gone, k);
        todo, gone := todo - {k}, gone + {k};
        assert aborted ==> k in gone * (f.delete + f.svcBreak + f.routeBreak);
      }
    }

    /** Phase 3: the gauge. */
    method CountActive(seen: Cluster)
      modifies this`active
      ensures active == |Counted(seen, ready)|
    {
      active := |set d | d in seen.rows && seen.rows[d] == Running && d in seen.deps && ready(d) > 0|;
    }

    /** Phases 1 and 2, on what the tick saw. */
    method RunPhases(seen: Cluster, f: Faults) returns (completed: bool, done: set<string>, gone: set<string>)
      requires rows == seen.rows
      modifies this`rows, this`deps, this`svcs, this`routes, this`drift, this`successes
      ensures Reported(View(), old(View()), seen, ready, f, done, gone)
      ensures Left(View(), old(View()), seen, ready, f, done, gone)
      ensures completed ==> done == seen.rows.Keys && gone == seen.deps
      ensures !completed ==> Hit(f, done, gone)
      ensures f == NO_FAULTS && seen == old(View()) ==>
                completed && View().(active := |Counted(seen, ready)|) == Tick(seen, ready)
    {
      hide PhaseOne, PhaseTwo, Reported, Left, Tick, Raised, Missing, Failing, Starting, Orphans, Counted;
      ghost var c := View();
      completed, gone := false, {};
      var aborted: bool;
      aborted, done := RepairRows(seen, f);
      ghost var v := View();
      PhaseOneReported(v, c, seen, ready, f, done);
      NothingRaises(seen, ready, done);
      if aborted {
        RaisedIsHit(seen, ready, f, done);
        PhaseTwoStart(v, seen, f);
        PhasesLeave(v, v, c, seen, ready, f, done, {});
        return;
      }
      aborted, gone := RemoveOrphans(seen, f);
      ghost var w := View();
      PhaseTwoReported(w, v, c, seen, ready, f, done, gone);
      PhasesLeave(w, v, c, seen, ready, f, done, gone);
      if aborted { return; }
      completed := true;
      if f == NO_FAULTS && seen == c { WithoutFaults(v, w, c, ready); }
    }

    /**
     One tick over one project's deployments, with any such faults.  A row becomes
     `Running` only if all its objects were seen and replicas were ready, and the success
     counter rises by the number of such rows whose UPDATE returned; the drift counter
     rises by one for every correction begun; a tick that reaches its end sets the gauge
     to rows that are all still `Running`, one that does not leaves it.  `Left` says what
     becomes of every row and object; a tick that does not reach its end has met a fault;
     without faults it is `Tick`.
     */
    method ReconcileDeployments(f: Faults) returns (completed: bool, done: set<string>, gone: set<string>)
      modifies this
      ensures f.listing ==> View() == old(View()) && !completed
      ensures var seen := old(View()).(routes := if f.routeListing then {} else old(routes));
              && Reported(View().(active := old(active)), old(View()), seen, ready, f, done, gone)
              && (completed ==> done == seen.rows.Keys && gone == seen.deps)
              && active == (if completed then |Counted(seen, ready)| else old(active))
              && Left(View().(active := old(active)), old(View()), seen, ready, f, done, gone)
      ensures !completed ==> f.listing || Hit(f, done, gone)
      ensures f == NO_FAULTS ==> completed && View() == Tick(old(View()), ready)
    {
      hide Reported, Left, Tick, Counted;
      completed, done, gone := false, {}, {};
      var seen := View().(routes := if f.routeListing then {} else routes);
      NothingReported(View(), seen, ready, f);
      NothingLeft(View(), seen, ready, f);
      if f.listing { return; }
      completed, done, gone := RunPhases(seen, f);
      if completed { CountActive(seen); }
    }
  }
}
