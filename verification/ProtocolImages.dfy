/**
 Provenance: in every run, a row that is being deployed or served names an image
 whose build Job succeeded and that the scan gate let through, along any chain of
 rollbacks; and every stream entry names a committed row.
 */
module ProtocolImages {
  import opened Wrappers
  import opened Protocol
  import opened ProtocolQueue
  import ScanGate

  predicate Served(st: RowState) { st in {Deploying, Verifying, Running} }

  ghost predicate Built(d: Store, image: string) { JobSucceeded(image) in d.hist }

  /** The image was built, and the scan gate let it through. */
  ghost predicate Cleared(d: Store, image: string) { Built(d, image) && GatePassed(image) in d.hist }

  /** `image` is the image with which `dep` was committed, and that of its row if that exists. */
  predicate Names(d: Store, dep: string, image: string) {
    dep in d.ids && d.ids[dep] == image && (dep in d.rows ==> d.rows[dep].image == image)
  }

  /** A deployment with this image was set to Running by the controller. */
  ghost predicate Ran(d: Store, image: string) { exists src :: RanAs(d, src, image) }

  ghost predicate RanAs(d: Store, src: string, image: string) {
    src in d.ids && d.ids[src] == image && Wrote(src, Running, ByController) in d.hist
  }

  /** What a rollback may deploy. */
  ghost predicate Reusable(d: Store, image: string) { Cleared(d, image) && Ran(d, image) }

  ghost predicate RowsInv(d: Store) {
    && (forall dep | dep in d.rows :: Names(d, dep, d.rows[dep].image))
    && (forall dep | dep in d.rows && d.rows[dep].state == Running :: Wrote(dep, Running, ByController) in d.hist)
    && (forall dep | dep in d.rows && Served(d.rows[dep].state) :: Cleared(d, d.rows[dep].image))
  }

  ghost predicate MsgOk(d: Store, msg: Msg) {
    Names(d, msg.dep, msg.image) && (msg.rollback ==> Reusable(d, msg.image))
  }

  ghost predicate StreamInv(d: Store) { forall msg | msg in d.stream :: MsgOk(d, msg) }

  ghost predicate JobsInv(d: Store) {
    forall key | key in d.jobs ::
      && JobKey(d.jobs[key].dep) == key
      && (d.jobs[key].status == Succeeded ==> Built(d, d.jobs[key].image))
      && (d.jobs[key].status == Broken ==> JobFailed(d.jobs[key].image) in d.hist)
  }

  /** The build Job with this key is the one for `dep` and `image`. */
  predicate OwnsJob(d: Store, dep: string, image: string) {
    JobKey(dep) in d.jobs && d.jobs[JobKey(dep)].dep == dep && d.jobs[JobKey(dep)].image == image
  }

  ghost predicate MonOk(d: Store, mon: Mon) {
    && Names(d, mon.dep, mon.image)
    && OwnsJob(d, mon.dep, mon.image)
    && (mon.phase == Gate ==> Built(d, mon.image))
    && (mon.phase == WriteDeploying ==> Cleared(d, mon.image))
  }

  ghost predicate MonsInv(s: State) {
    && (forall i | i in s.mons :: MonOk(s.store, s.mons[i]) && i < s.nextMon)
    && (forall i, j | i in s.mons && j in s.mons && i != j :: JobKey(s.mons[i].dep) != JobKey(s.mons[j].dep))
  }

  predicate Spawning(s: State, w: string) {
    Working(s, w) && s.workers[w].phase.Spawn?
  }

  /** A worker between creating the Job and starting its monitor has that Job to itself. */
  ghost predicate SpawnInv(s: State) {
    && (forall w | Spawning(s, w) ::
          var msg := WorkMsg(s, w);
          && OwnsJob(s.store, msg.dep, msg.image)
          && forall i | i in s.mons :: JobKey(s.mons[i].dep) != JobKey(msg.dep))
    && (forall v, w | Spawning(s, v) && Spawning(s, w) && v != w ::
          JobKey(WorkMsg(s, v).dep) != JobKey(WorkMsg(s, w).dep))
  }

  ghost predicate CtrlInv(s: State) {
    forall dep | dep in s.ctrl ::
      && dep in s.store.ids
      && (Served(s.ctrl[dep]) && dep in s.store.rows ==> Cleared(s.store, s.store.rows[dep].image))
  }

  ghost predicate ReqOk(d: Store, req: Req) {
    && (req.phase != Selected ==> Names(d, req.dep, req.image))
    && (req.phase == Selected ==> req.kind == Rollback)
    && (req.kind == Rollback ==> Reusable(d, req.image))
  }

  ghost predicate ReqsInv(s: State) { forall r | r in s.reqs :: ReqOk(s.store, s.reqs[r]) }

  ghost predicate ImageInv(s: State) {
    && RowsInv(s.store) && StreamInv(s.store) && JobsInv(s.store)
    && MonsInv(s) && SpawnInv(s) && CtrlInv(s) && ReqsInv(s)
  }

  // ---------------------------------------------------------------- what a call keeps

  /** What the callers of the store must respect for the rows to stay traceable. */
  ghost predicate Traceable(d: Store, c: Call) {
    && (c.WriteRow? && Served(c.state) && c.dep in d.rows ==> Cleared(d, d.rows[c.dep].image))
    && (c.WriteRow? && c.state == Running ==> c.writer == ByController)
    && (c.AddEntry? ==> MsgOk(d, c.msg))
  }

  /** `e` knows what `d` knows: its history, and the images of its deployments. */
  ghost predicate Keeps(d: Store, e: Store) {
    && (forall image | Cleared(d, image) :: Cleared(e, image))
    && (forall image | Built(d, image) :: Built(e, image))
    && (forall src, image | RanAs(d, src, image) :: RanAs(e, src, image))
    && (forall dep, image | Names(d, dep, image) :: Names(e, dep, image))
    && (forall dep | dep in d.ids :: dep in e.ids && e.ids[dep] == d.ids[dep])
  }

  lemma CallAdds(d: Store, c: Call)
    requires CallEnabled(d, c)
    ensures Keeps(d, Perform(d, c))
  {
    PerformGrows(d, c);
    assert forall x | x in d.hist :: x in Perform(d, c).hist;
  }

  lemma StillReusable(d: Store, e: Store)
    requires Keeps(d, e)
    ensures forall image | Reusable(d, image) :: Reusable(e, image)
  {
    forall image | Reusable(d, image) ensures Reusable(e, image) {
      var src :| RanAs(d, src, image);
      assert RanAs(e, src, image);
    }
  }

  /** A row is as it was, or just written, or just committed. */
  lemma RowOrigin(d: Store, c: Call, dep: string)
    requires CallEnabled(d, c) && dep in Perform(d, c).rows && (dep in d.rows ==> dep in d.ids)
    ensures var e := Perform(d, c);
            if dep in d.rows then
              && e.rows[dep].image == d.rows[dep].image
              && (e.rows[dep] == d.rows[dep] || (c.WriteRow? && c.dep == dep && e.rows[dep].state == c.state
                                                 && Wrote(dep, c.state, c.writer) in e.hist))
            else e.rows[dep].state == Queued && dep in e.ids && e.ids[dep] == e.rows[dep].image
  {
    if c.WriteRow? { assert Perform(d, c).hist[|d.hist|] == Wrote(c.dep, c.state, c.writer); }
  }

  lemma RowsKeep(d: Store, c: Call)
    requires RowsInv(d) && CallEnabled(d, c) && Traceable(d, c)
    ensures RowsInv(Perform(d, c))
  {
    var e := Perform(d, c);
    CallAdds(d, c);
    PerformGrows(d, c);
    assert forall x | x in d.hist :: x in e.hist;
    hide Perform, CallEnabled, Cleared, RanAs, Built;
    forall dep | dep in e.rows
      ensures Names(e, dep, e.rows[dep].image)
      ensures e.rows[dep].state == Running ==> Wrote(dep, Running, ByController) in e.hist
      ensures Served(e.rows[dep].state) ==> Cleared(e, e.rows[dep].image)
    {
      RowOrigin(d, c, dep);
    }
  }

  lemma StreamKeeps(d: Store, c: Call)
    requires StreamInv(d) && CallEnabled(d, c) && Traceable(d, c)
    ensures StreamInv(Perform(d, c))
  {
    var e := Perform(d, c);
    CallAdds(d, c);
    StillReusable(d, e);
    assert forall x | x in e.stream :: x in d.stream || (c.AddEntry? && x == c.msg);
    hide Perform, CallEnabled, Cleared, RanAs, Built, Reusable, Names;
  }

  lemma JobsKeep(d: Store, c: Call)
    requires JobsInv(d) && CallEnabled(d, c)
    ensures JobsInv(Perform(d, c))
  {
    var e := Perform(d, c);
    PerformGrows(d, c);
    assert forall x | x in d.hist :: x in e.hist;
    if c.EndJob? { assert e.hist[|d.hist|] in e.hist; }
  }

  lemma CallKeeps(d: Store, c: Call)
    requires RowsInv(d) && StreamInv(d) && JobsInv(d) && CallEnabled(d, c) && Traceable(d, c)
    ensures var e := Perform(d, c);
            && Keeps(d, e) && (forall image | Reusable(d, image) :: Reusable(e, image))
            && RowsInv(e) && StreamInv(e) && JobsInv(e)
  {
    hide RowsInv, StreamInv, JobsInv, CallEnabled, Traceable, Perform, Keeps, Reusable;
    CallAdds(d, c);
    StillReusable(d, Perform(d, c));
    RowsKeep(d, c);
    StreamKeeps(d, c);
    JobsKeep(d, c);
  }

  /** A worker writes Deploying only for the rollback of an image that was cleared. */
  lemma WorkerWrites(d: Store, ph: Phase)
    requires StreamInv(d) && PhaseOutcome(d, ph) && ph != Idle && ph.m < |d.stream|
    ensures Traceable(d, PhaseCall(ph, d.stream[ph.m]))
  {
    assert d.stream[ph.m] in d.stream && MsgOk(d, d.stream[ph.m]);
  }

  /** A monitor writes Deploying only for the cleared image of its own row. */
  lemma MonitorWrites(d: Store, mon: Mon)
    requires MonOk(d, mon)
    ensures Traceable(d, MonCall(mon))
  {
  }

  lemma WorkersTraceable(s: State, a: Action)
    requires StreamInv(s.store) && OutcomeInv(s) && Enabled(s, a) && (a.Step? || a.Repeat?)
    ensures Traceable(s.store, CallOf(s, a))
  {
    hide StreamInv, PhaseOutcome, PhaseCall, CallEnabled, MsgOk;
    WorkerWrites(s.store, s.workers[a.w].phase);
  }

  lemma MonitorsTraceable(s: State, a: Action)
    requires MonsInv(s) && Enabled(s, a) && (a.MonStep? || a.MonRepeat?)
    ensures Traceable(s.store, CallOf(s, a))
  {
    hide MonOk, MonCall, CallEnabled, MsgOk, Cleared;
    MonitorWrites(s.store, s.mons[a.i]);
  }

  lemma OthersTraceable(s: State, a: Action)
    requires CtrlInv(s) && ReqsInv(s) && Enabled(s, a) && !a.Step? && !a.Repeat? && !a.MonStep? && !a.MonRepeat?
    ensures Traceable(s.store, CallOf(s, a))
  {
    if a.Enqueue? { assert ReqOk(s.store, s.reqs[a.r]); }
  }

  lemma CallsTraceable(s: State, a: Action)
    requires QueueInv(s) && ImageInv(s) && Enabled(s, a)
    ensures Traceable(s.store, CallOf(s, a))
  {
    hide Ledger, HandsDelivered, OutcomeInv, RowsInv, StreamInv, JobsInv, MonsInv, SpawnInv, CtrlInv, ReqsInv;
    hide Enabled, CallOf, Traceable;
    if a.Step? || a.Repeat? {
      WorkersTraceable(s, a);
    } else if a.MonStep? || a.MonRepeat? {
      MonitorsTraceable(s, a);
    } else {
      OthersTraceable(s, a);
    }
  }

  /** No call but the owner's clean-up takes a Job away, and none renames it. */
  lemma JobsStand(d: Store, c: Call, dep: string, image: string)
    requires CallEnabled(d, c) && OwnsJob(d, dep, image)
    requires !(c.DeleteJob? && JobKey(c.dep) == JobKey(dep))
    ensures OwnsJob(Perform(d, c), dep, image)
  {
  }

  // ---------------------------------------------------------------- every action keeps the invariant

  /** A monitor that was just started watches its own Job. */
  lemma NewMonitor(s: State, a: Action, i: nat)
    requires MonsInv(s) && StreamInv(s.store) && SpawnInv(s) && Enabled(s, a) && i in MonsAfter(s, a) && i !in s.mons
    ensures MonOk(Perform(s.store, CallOf(s, a)), MonsAfter(s, a)[i]) && i == s.nextMon && Spawns(s, a)
    ensures forall j | j in s.mons :: JobKey(s.mons[j].dep) != JobKey(MonsAfter(s, a)[i].dep)
  {
    hide MonNext, MonCall;
    var msg := WorkMsg(s, a.w);
    assert msg in s.store.stream && MsgOk(s.store, msg) && Spawning(s, a.w);
    JobsStand(s.store, CallOf(s, a), msg.dep, msg.image);
  }

  lemma MonsInvStep(s: State, a: Action)
    requires QueueInv(s) && ImageInv(s) && Enabled(s, a)
    ensures MonsInv(Apply(s, a))
  {
    hide QueueInv, JobsInv, CtrlInv, ReqsInv, RowsInv, SpawnInv, StreamInv, Perform, MonsAfter, CallOf, MonOk, Enabled;
    var t := Apply(s, a);
    forall i | i in t.mons ensures MonOk(t.store, t.mons[i]) && i < t.nextMon {
      if i in s.mons { MonKept(s, a, i); } else { NewMonitor(s, a, i); }
    }
    forall i, j | i in t.mons && j in t.mons && i != j ensures JobKey(t.mons[i].dep) != JobKey(t.mons[j].dep) {
      if i in s.mons { MonKept(s, a, i); } else { NewMonitor(s, a, i); }
      if j in s.mons { MonKept(s, a, j); } else { NewMonitor(s, a, j); }
    }
  }

  /** A monitor that goes on is not the one that cleans up. */
  lemma AnotherCleansUp(s: State, a: Action, i: nat)
    requires Enabled(s, a) && i in s.mons && i in MonsAfter(s, a) && CallOf(s, a).DeleteJob?
    ensures a.MonStep? && a.i in s.mons && a.i != i && CallOf(s, a).dep == s.mons[a.i].dep
  {
  }

  /** Only a monitor's own clean-up takes its Job away. */
  lemma MonJobStands(s: State, a: Action, i: nat)
    requires MonsInv(s) && Enabled(s, a) && i in s.mons && i in MonsAfter(s, a)
    ensures OwnsJob(Perform(s.store, CallOf(s, a)), s.mons[i].dep, s.mons[i].image)
  {
    var c := CallOf(s, a);
    assert MonOk(s.store, s.mons[i]);
    if c.DeleteJob? { AnotherCleansUp(s, a, i); }
    hide Perform, CallOf, CallEnabled, MonsAfter, OwnsJob;
    JobsStand(s.store, c, s.mons[i].dep, s.mons[i].image);
  }

  lemma MonKept(s: State, a: Action, i: nat)
    requires QueueInv(s) && ImageInv(s) && Enabled(s, a) && i in s.mons && i in MonsAfter(s, a)
    ensures MonOk(Apply(s, a).store, MonsAfter(s, a)[i])
    ensures MonsAfter(s, a)[i].dep == s.mons[i].dep
  {
    hide QueueInv, StreamInv, SpawnInv, CtrlInv, ReqsInv, RowsInv;
    var mon, moved := s.mons[i], MonsAfter(s, a)[i];
    assert MonOk(s.store, mon);
    MonMoves(s, a, i);
    CallsTraceable(s, a);
    CallKeeps(s.store, CallOf(s, a));
    MonJobStands(s, a, i);
  }

  /** Where an action takes a monitor that lives on. */
  function MovesTo(s: State, a: Action, i: nat): MonPhase
    requires Enabled(s, a) && i in s.mons
  {
    if a.MonStep? && a.i == i then
      var next := MonNext(s.mons[i].phase, JobOf(s.store, s.mons[i].dep), a.ok);
      if next.Some? then next.value else Cleanup
    else if a.MonGate? && a.i == i then GateNext(a.answers)
    else s.mons[i].phase
  }

  lemma MonFollows(s: State, a: Action, i: nat)
    requires MonsInv(s) && Enabled(s, a) && i in s.mons && i in MonsAfter(s, a)
    ensures MonsAfter(s, a)[i] == s.mons[i].(phase := MovesTo(s, a, i))
  {
    hide MonOk, PhaseNext, PhaseCall, MonCall, MonNext, CallEnabled, CallOf;
  }

  /** The scan gate is reached only by way of a succeeded Job, and no other call leads past it. */
  lemma GateSawSuccess(d: Store, mon: Mon, ok: bool)
    requires JobsInv(d) && MonOk(d, mon)
    ensures MonNext(mon.phase, JobOf(d, mon.dep), ok) == Some(Gate) ==> Built(d, mon.image)
    ensures MonNext(mon.phase, JobOf(d, mon.dep), ok) != Some(WriteDeploying)
  {
  }

  lemma GateBehindBuild(s: State, a: Action, i: nat)
    requires JobsInv(s.store) && MonsInv(s) && Enabled(s, a) && i in s.mons
    ensures MovesTo(s, a, i) in {Gate, WriteDeploying} ==> Built(s.store, s.mons[i].image)
  {
    assert MonOk(s.store, s.mons[i]);
    if a.MonStep? && a.i == i { GateSawSuccess(s.store, s.mons[i], a.ok); }
  }

  lemma PassOnRecord(s: State, a: Action, i: nat)
    requires JobsInv(s.store) && MonsInv(s) && Enabled(s, a) && i in s.mons && MovesTo(s, a, i) == WriteDeploying
    ensures GatePassed(s.mons[i].image) in Perform(s.store, CallOf(s, a)).hist
  {
    hide Names, OwnsJob, PhaseNext, Busy;
    var mon, e := s.mons[i], Perform(s.store, CallOf(s, a));
    assert MonOk(s.store, mon);
    if a.MonStep? && a.i == i {
      GateSawSuccess(s.store, mon, a.ok);
    } else if a.MonGate? && a.i == i {
      assert e.hist[|s.store.hist|] == GatePassed(mon.image);
    } else {
      PerformGrows(s.store, CallOf(s, a));
      hide Perform, CallOf;
      assert forall x | x in s.store.hist :: x in e.hist;
    }
  }

  /** A monitor keeps its deployment and image, and gets to the gate only by way of a
      succeeded Job and past it only if the gate lets the image through. */
  lemma MonMoves(s: State, a: Action, i: nat)
    requires JobsInv(s.store) && MonsInv(s) && Enabled(s, a) && i in s.mons && i in MonsAfter(s, a)
    ensures MonsAfter(s, a)[i] == s.mons[i].(phase := MonsAfter(s, a)[i].phase)
    ensures MonsAfter(s, a)[i].phase == Gate ==> Built(s.store, s.mons[i].image)
    ensures MonsAfter(s, a)[i].phase == WriteDeploying ==> Built(s.store, s.mons[i].image)
    ensures MonsAfter(s, a)[i].phase == WriteDeploying ==>
              GatePassed(s.mons[i].image) in Perform(s.store, CallOf(s, a)).hist
  {
    assert CallEnabled(s.store, CallOf(s, a));
    hide MonsInv, JobsInv, Enabled, CallEnabled, CallOf, MonsAfter, MovesTo, Perform, Built;
    MonFollows(s, a, i);
    GateBehindBuild(s, a, i);
    if MovesTo(s, a, i) == WriteDeploying { PassOnRecord(s, a, i); }
  }

  /** A worker is about to spawn a monitor because it was, or because it just created a Job whose key was free. */
  lemma SpawnOrigin(s: State, a: Action, w: string)
    requires Enabled(s, a) && Spawning(Apply(s, a), w) && HandsDelivered(s) && Ledger(s.store)
    ensures Working(s, w) && WorkMsg(Apply(s, a), w) == WorkMsg(s, w)
    ensures || (Spawning(s, w) && !(a.Step? && a.w == w))
            || (a.Step? && a.w == w && JobKey(WorkMsg(s, w).dep) !in s.store.jobs
                && MonsAfter(s, a) == s.mons
                && OwnsJob(Apply(s, a).store, WorkMsg(s, w).dep, WorkMsg(s, w).image))
  {
    PerformGrows(s.store, CallOf(s, a));
    assert InHand(s.workers[w], s.workers[w].phase.m);
  }

  lemma SpawnInvStep(s: State, a: Action)
    requires QueueInv(s) && ImageInv(s) && Enabled(s, a)
    ensures SpawnInv(Apply(s, a))
  {
    var t := Apply(s, a);
    forall w | Spawning(t, w)
      ensures OwnsJob(t.store, WorkMsg(t, w).dep, WorkMsg(t, w).image)
      ensures forall i | i in t.mons :: JobKey(t.mons[i].dep) != JobKey(WorkMsg(t, w).dep)
    {
      SpawnOrigin(s, a, w);
      SpawnKept(s, a, w);
    }
    forall v, w | Spawning(t, v) && Spawning(t, w) && v != w
      ensures JobKey(WorkMsg(t, v).dep) != JobKey(WorkMsg(t, w).dep)
    {
      SpawnOrigin(s, a, v);
      SpawnOrigin(s, a, w);
    }
  }

  lemma SpawnJobStands(s: State, a: Action, w: string)
    requires SpawnInv(s) && Enabled(s, a) && Spawning(s, w)
    ensures OwnsJob(Perform(s.store, CallOf(s, a)), WorkMsg(s, w).dep, WorkMsg(s, w).image)
  {
    hide Perform, PhaseNext, MonNext;
    var c := CallOf(s, a);
    if c.DeleteJob? { assert a.MonStep? && a.i in s.mons && c.dep == s.mons[a.i].dep; }
    JobsStand(s.store, c, WorkMsg(s, w).dep, WorkMsg(s, w).image);
  }

  lemma SpawnKept(s: State, a: Action, w: string)
    requires QueueInv(s) && ImageInv(s) && Enabled(s, a) && Spawning(Apply(s, a), w)
    requires Working(s, w)
    ensures OwnsJob(Apply(s, a).store, WorkMsg(s, w).dep, WorkMsg(s, w).image)
    ensures forall i | i in MonsAfter(s, a) :: JobKey(MonsAfter(s, a)[i].dep) != JobKey(WorkMsg(s, w).dep)
  {
    hide OutcomeInv, StreamInv, JobsInv, CtrlInv, ReqsInv, RowsInv, PhaseNext, CallEnabled;
    hide CtrlAfter, ReqsAfter, WorkersAfter, Perform, CallOf, MonNext, OwnsJob;
    SpawnOrigin(s, a, w);
    if Spawning(s, w) && !(a.Step? && a.w == w) {
      SpawnJobStands(s, a, w);
      forall i | i in MonsAfter(s, a) ensures JobKey(MonsAfter(s, a)[i].dep) != JobKey(WorkMsg(s, w).dep) {
        if i in s.mons { MonKept(s, a, i); } else { assert Spawning(s, a.w); }
      }
    } else {
      SpawnNameFree(s, w);
    }
  }

  /** No monitor has the name of a Job that is not there. */
  lemma SpawnNameFree(s: State, w: string)
    requires MonsInv(s) && Working(s, w) && JobKey(WorkMsg(s, w).dep) !in s.store.jobs
    ensures forall i | i in s.mons :: JobKey(s.mons[i].dep) != JobKey(WorkMsg(s, w).dep)
  {
    forall i | i in s.mons ensures JobKey(s.mons[i].dep) != JobKey(WorkMsg(s, w).dep) {
      assert MonOk(s.store, s.mons[i]);
    }
  }

  /** A Running row is fit for a rollback. */
  lemma RunningReusable(d: Store, src: string)
    requires RowsInv(d) && src in d.rows && d.rows[src].state == Running
    ensures Reusable(d, d.rows[src].image)
  {
    assert RanAs(d, src, d.rows[src].image);
  }

  lemma CommitNames(d: Store, dep: string, image: string)
    requires dep !in d.ids
    ensures Names(Perform(d, CommitRow(dep, image)), dep, image)
  {
  }

  lemma ReqKept(s: State, a: Action, r: nat, e: Store)
    requires RowsInv(s.store) && ReqsInv(s) && Enabled(s, a) && r in ReqsAfter(s, a)
    requires Keeps(s.store, e) && e == Perform(s.store, CallOf(s, a))
    ensures ReqOk(e, ReqsAfter(s, a)[r])
  {
    hide RowsInv, Cleared, Built, RanAs, Reusable, Perform, Names;
    StillReusable(s.store, e);
    if a.RollbackSelect? { RunningReusable(s.store, a.src); }
    if CallOf(s, a).CommitRow? { CommitNames(s.store, CallOf(s, a).dep, CallOf(s, a).image); }
    assert r in s.reqs ==> ReqOk(s.store, s.reqs[r]);
  }

  lemma ReqsInvStep(s: State, a: Action)
    requires RowsInv(s.store) && ReqsInv(s) && Enabled(s, a)
    ensures ReqsInv(Apply(s, a))
  {
    var t := Apply(s, a);
    hide RowsInv, Keeps, ReqsAfter, CtrlAfter, MonsAfter, WorkersAfter, Perform, ReqOk, Enabled;
    CallAdds(s.store, CallOf(s, a));
    forall r | r in t.reqs ensures ReqOk(t.store, t.reqs[r]) { ReqKept(s, a, r, t.store); }
  }

  lemma CtrlInvStep(s: State, a: Action)
    requires RowsInv(s.store) && CtrlInv(s) && Enabled(s, a)
    ensures CtrlInv(Apply(s, a))
  {
    CallAdds(s.store, CallOf(s, a));
    hide RanAs, Built, WorkersAfter, MonsAfter, ReqsAfter;
  }

  lemma ImageInvStep(s: State, a: Action)
    requires QueueInv(s) && ImageInv(s) && Enabled(s, a)
    ensures ImageInv(Apply(s, a))
  {
    assert CallEnabled(s.store, CallOf(s, a));
    hide QueueInv, RowsInv, SpawnInv, MonsInv, JobsInv, StreamInv, CtrlInv, ReqsInv, Traceable, Enabled;
    CallsTraceable(s, a);
    CallKeeps(s.store, CallOf(s, a));
    MonsInvStep(s, a);
    SpawnInvStep(s, a);
    CtrlInvStep(s, a);
    ReqsInvStep(s, a);
  }

  lemma {:induction false} ImageInvReachable(acts: seq<Action>, s: State)
    requires Exec(INIT, acts) == Some(s)
    ensures ImageInv(s)
    decreases |acts|
  {
    if acts != [] {
      var before := Exec(INIT, acts[..|acts| - 1]).value;
      ImageInvReachable(acts[..|acts| - 1], before);
      QueueInvReachable(acts[..|acts| - 1], before);
      ImageInvStep(before, acts[|acts| - 1]);
    }
  }

  /** In every run a build Job can be created exactly if no Job in the namespace is for an id with
      the same first eight characters. */
  lemma NameTakenExactly(acts: seq<Action>, s: State, m: nat, dep: string, image: string)
    requires Exec(INIT, acts) == Some(s)
    ensures CallEnabled(s.store, MakeJob(m, dep, image)) <==>
              forall key | key in s.store.jobs ::
                var other := s.store.jobs[key].dep;
                other != dep && !(|other| >= 8 && |dep| >= 8 && other[..8] == dep[..8])
  {
    ImageInvReachable(acts, s);
    hide Exec, RowsInv, StreamInv, MonsInv, SpawnInv, CtrlInv, ReqsInv;
    assert |dep| == 8 ==> dep[..8] == dep;
    forall key | key in s.store.jobs
      ensures JobKey(dep) == key <==>
                var other := s.store.jobs[key].dep;
                other == dep || (|other| >= 8 && |dep| >= 8 && other[..8] == dep[..8])
    {
      var other := s.store.jobs[key].dep;
      assert |other| == 8 ==> other[..8] == other;
    }
  }

  /**
   In every run, with any crashes and lost replies, a row in Deploying, Verifying or
   Running names an image whose build Job succeeded and that the scan gate let through.
   */
  lemma ServedImagesWereBuilt(acts: seq<Action>, s: State, dep: string)
    requires Exec(INIT, acts) == Some(s)
    requires dep in s.store.rows && s.store.rows[dep].state in {Deploying, Verifying, Running}
    ensures JobSucceeded(s.store.rows[dep].image) in s.store.hist
    ensures GatePassed(s.store.rows[dep].image) in s.store.hist
  {
    ImageInvReachable(acts, s);
  }

  // ---------------------------------------------------------------- the ways into Deploying

  /** An entry of the history, as far as it writes Deploying: by a monitor or by the rollback
      of a message, and with an image that was built and let through before; a rollback's is,
      besides, that of a deployment which the controller had set to Running before. */
  ghost predicate LawfulWrite(d: Store, k: nat)
    requires k < |d.hist|
  {
    match d.hist[k]
    case Wrote(dep, Deploying, writer) =>
      && dep in d.ids && JobSucceeded(d.ids[dep]) in d.hist[..k] && GatePassed(d.ids[dep]) in d.hist[..k]
      && (match writer
          case ByMonitor => true
          case ByRollback(m) =>
            && m < |d.stream| && d.stream[m] == Msg(dep, d.stream[m].repo, d.ids[dep], true)
            && exists src :: RunningBefore(d, k, src, d.ids[dep])
          case _ => false)
    case _ => true
  }

  /** A deployment with this image was set to Running before. */
  ghost predicate RunningBefore(d: Store, k: nat, src: string, image: string)
    requires k <= |d.hist|
  {
    src in d.ids && d.ids[src] == image && Wrote(src, Running, ByController) in d.hist[..k]
  }

  ghost predicate WritesInv(d: Store) { forall k | 0 <= k < |d.hist| :: LawfulWrite(d, k) }

  lemma WriteStaysLawful(d: Store, e: Store, k: nat)
    requires Grown(d, e) && k < |d.hist| && LawfulWrite(d, k)
    requires forall dep | dep in d.ids :: dep in e.ids && e.ids[dep] == d.ids[dep]
    ensures LawfulWrite(e, k)
  {
    assert e.hist[..k] == d.hist[..k];
    match d.hist[k]
    case Wrote(dep, Deploying, ByRollback(m)) =>
      var src :| RunningBefore(d, k, src, d.ids[dep]);
      assert RunningBefore(e, k, src, e.ids[dep]);
    case _ =>
  }

  /** Who writes Deploying, and what it knows. */
  lemma DeployingWriters(s: State, a: Action)
    requires QueueInv(s) && StreamInv(s.store) && MonsInv(s) && Enabled(s, a)
    requires CallOf(s, a).WriteRow? && CallOf(s, a).state == Deploying
    ensures var d, dep := s.store, CallOf(s, a).dep;
            && dep in d.ids && Cleared(d, d.ids[dep])
            && match CallOf(s, a).writer
               case ByMonitor => true
               case ByRollback(m) =>
                 && m < |d.stream| && d.stream[m] == Msg(dep, d.stream[m].repo, d.ids[dep], true)
                 && Ran(d, d.ids[dep])
               case _ => false
  {
    if a.MonStep? || a.MonRepeat? {
      assert MonOk(s.store, s.mons[a.i]);
    } else {
      assert WorkMsg(s, a.w) in s.store.stream && MsgOk(s.store, WorkMsg(s, a.w));
      assert PhaseOutcome(s.store, s.workers[a.w].phase);
    }
  }

  lemma LawfulByRollback(d: Store, e: Store, dep: string, m: nat)
    requires Grown(d, e) && |d.hist| < |e.hist| && e.hist[|d.hist|] == Wrote(dep, Deploying, ByRollback(m))
    requires forall src | src in d.ids :: src in e.ids && e.ids[src] == d.ids[src]
    requires dep in d.ids && Reusable(d, d.ids[dep])
    requires m < |d.stream| && d.stream[m] == Msg(dep, d.stream[m].repo, d.ids[dep], true)
    ensures LawfulWrite(e, |d.hist|)
  {
    var src :| RanAs(d, src, d.ids[dep]);
    assert e.hist[..|d.hist|] == d.hist;
    assert RunningBefore(e, |d.hist|, src, e.ids[dep]);
  }

  /** What an action adds to the history is lawful. */
  lemma NewWriteLawful(s: State, a: Action, k: nat)
    requires QueueInv(s) && StreamInv(s.store) && MonsInv(s) && Enabled(s, a)
    requires |s.store.hist| <= k < |Perform(s.store, CallOf(s, a)).hist|
    ensures LawfulWrite(Perform(s.store, CallOf(s, a)), k)
  {
    hide QueueInv, StreamInv, MonsInv, CallOf, Perform, RanAs, Ran, RunningBefore, Names;
    var d, c := s.store, CallOf(s, a);
    EntryOf(d, c);
    CallAdds(d, c);
    PerformGrows(d, c);
    hide Enabled, CallEnabled;
    if c.WriteRow? && c.state == Deploying {
      DeployingWriters(s, a);
      if c.writer.ByRollback? { LawfulByRollback(d, Perform(d, c), c.dep, c.writer.m); }
    }
  }

  lemma WritesInvStep(s: State, a: Action)
    requires QueueInv(s) && ImageInv(s) && WritesInv(s.store) && Enabled(s, a)
    ensures WritesInv(Apply(s, a).store)
  {
    var d, c := s.store, CallOf(s, a);
    var e := Perform(d, c);
    PerformGrows(d, c);
    CallsTraceable(s, a);
    CallKeeps(d, c);
    hide CallOf, Names, Perform, LawfulWrite, Traceable;
    hide QueueInv, StreamInv, MonsInv, RowsInv, JobsInv, SpawnInv, CtrlInv, ReqsInv;
    forall k | 0 <= k < |e.hist| ensures LawfulWrite(e, k) {
      if k < |d.hist| { WriteStaysLawful(d, e, k); } else { NewWriteLawful(s, a, k); }
    }
  }

  /**
   There are two ways into Deploying.  In every run each write of it is a monitor's or a
   rollback's, and the image with which its deployment was committed was built and let
   through before; a rollback's is the image of a deployment that was set to Running before.
   */
  lemma {:induction false} WaysIntoDeploying(acts: seq<Action>, s: State)
    requires Exec(INIT, acts) == Some(s)
    ensures WritesInv(s.store)
    decreases |acts|
  {
    if acts != [] {
      var before := Exec(INIT, acts[..|acts| - 1]).value;
      WaysIntoDeploying(acts[..|acts| - 1], before);
      ImageInvReachable(acts[..|acts| - 1], before);
      QueueInvReachable(acts[..|acts| - 1], before);
      WritesInvStep(before, acts[|acts| - 1]);
    }
  }
}
