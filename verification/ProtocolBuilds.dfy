/**
 One build at a time: in an orderly run, a second build Job for a deployment is
 created only after its row was set to Failed following the first Job.
 */
module ProtocolBuilds {
  import opened Wrappers
  import opened Protocol
  import opened ProtocolQueue
  import opened ProtocolImages
  import opened ProtocolRequests

  /** A Job was created for `dep` and its row has not been set to Failed since. */
  predicate Open(h: seq<Event>, dep: string) {
    if h == [] then false
    else match h[|h| - 1]
      case JobCreated(_, other, _) => other == dep || Open(h[..|h| - 1], dep)
      case Wrote(other, st, _) => !(other == dep && st == Failed) && Open(h[..|h| - 1], dep)
      case _ => Open(h[..|h| - 1], dep)
  }

  lemma OpenAfter(d: Store, c: Call, dep: string)
    requires CallEnabled(d, c)
    ensures Open(Perform(d, c).hist, dep) ==
            if c.MakeJob? && c.dep == dep then true
            else if c.WriteRow? && c.dep == dep && c.state == Failed then false
            else Open(d.hist, dep)
  {
    if |Perform(d, c).hist| > |d.hist| {
      EntryOf(d, c);
      hide Perform, CallEnabled;
      assert Perform(d, c).hist[..|Perform(d, c).hist| - 1] == d.hist;
    }
  }

  // ---------------------------------------------------------------- orderly runs

  /**
   The circumstances under which builds do not repeat: the sweep takes over only
   messages that no live worker has in hand, the last write of Failed in a handler
   or a monitor succeeds, and rows are not removed.  Job names may collide.
   */
  ghost predicate Orderly(s: State, a: Action) {
    match a
    case Claim(_, ms, _) =>
      && (forall i, j :: 0 <= i < j < |ms| ==> ms[i] != ms[j])
      && (forall v, m | v in s.workers && m in ms :: !InHand(s.workers[v], m))
    case Step(w, ok, _) => w in s.workers && s.workers[w].phase.FailWrite? ==> ok
    case MonStep(i, ok, _) => i in s.mons && s.mons[i].phase == FailOuter ==> ok
    case RemoveRow(_) => false
    case _ => true
  }

  ghost predicate OrderlyRun(acts: seq<Action>)
    decreases |acts|
  {
    acts == [] ||
    var before := Exec(INIT, acts[..|acts| - 1]);
    OrderlyRun(acts[..|acts| - 1]) && (before.Some? ==> Orderly(before.value, acts[|acts| - 1]))
  }

  // ---------------------------------------------------------------- each message in one pair of hands

  /** The handler has not tried to acknowledge its message yet. */
  predicate Unacked(ph: Phase) {
    ph.Check? || ph.Guard? || ph.ActiveAck? || ph.RollWrite? || ph.RollAck? || ph.Build? || ph.Spawn? || ph.BuildAck?
  }

  ghost predicate HandsInv(s: State) {
    && (forall v, w, m: nat | v in s.workers && w in s.workers && v != w && InHand(s.workers[v], m) ::
          !InHand(s.workers[w], m))
    && (forall w | w in s.workers :: TidyHand(s.store, s.workers[w]))
  }

  ghost predicate TidyHand(d: Store, wk: Worker) {
    && (forall i, j :: 0 <= i < j < |wk.batch| ==> wk.batch[i] != wk.batch[j])
    && (wk.phase != Idle ==> wk.phase.m !in wk.batch)
    && (forall m | m in wk.batch :: m !in d.acked)
    && (Unacked(wk.phase) ==> wk.phase.m !in d.acked)
  }

  /** A message newly in hand was undelivered or in nobody's hands. */
  lemma HandOrigin(s: State, a: Action, w: string, m: nat)
    requires Ledger(s.store) && HandsDelivered(s) && Enabled(s, a) && Orderly(s, a)
    requires w in WorkersAfter(s, a) && InHand(WorkersAfter(s, a)[w], m)
    requires !(w in s.workers && InHand(s.workers[w], m))
    ensures m !in s.store.acked && forall v | v in s.workers :: !InHand(s.workers[v], m)
    ensures (a.Deliver? || a.Claim?) && a.w == w
  {
    if a.Deliver? {
      SpanMembers(s.store.delivered, a.k);
    }
  }

  lemma HandsInvStep(s: State, a: Action)
    requires QueueInv(s) && HandsInv(s) && Enabled(s, a) && Orderly(s, a)
    ensures HandsInv(Apply(s, a))
  {
    var t := Apply(s, a);
    forall v, w, m: nat | v in t.workers && w in t.workers && v != w && InHand(t.workers[v], m)
      ensures !InHand(t.workers[w], m)
    {
      if InHand(t.workers[w], m) {
        if !(v in s.workers && InHand(s.workers[v], m)) { HandOrigin(s, a, v, m); }
        if !(w in s.workers && InHand(s.workers[w], m)) { HandOrigin(s, a, w, m); }
      }
    }
    forall w | w in t.workers ensures TidyHand(t.store, t.workers[w]) { TidyHandStep(s, a, w); }
  }

  lemma TidyHandStep(s: State, a: Action, w: string)
    requires QueueInv(s) && HandsInv(s) && Enabled(s, a) && Orderly(s, a) && w in WorkersAfter(s, a)
    ensures TidyHand(Perform(s.store, CallOf(s, a)), WorkersAfter(s, a)[w])
  {
    var e := Perform(s.store, CallOf(s, a));
    if a.Step? {
      var m := s.workers[a.w].phase.m;
      assert InHand(s.workers[a.w], m) && TidyHand(s.store, s.workers[w]);
      if w != a.w {
        assert !InHand(s.workers[w], m);
        TidyOther(s.store, e, s.workers[w], m);
      } else {
        TidyOwn(s, a);
      }
    } else {
      TidyNoAck(s, a, w);
    }
  }

  lemma TidyOther(d: Store, e: Store, wk: Worker, m: nat)
    requires TidyHand(d, wk) && e.acked <= d.acked + {m} && !InHand(wk, m)
    ensures TidyHand(e, wk)
  {
  }

  lemma TidyOwn(s: State, a: Action)
    requires Enabled(s, a) && a.Step? && TidyHand(s.store, s.workers[a.w])
    ensures TidyHand(Perform(s.store, CallOf(s, a)), WorkersAfter(s, a)[a.w])
  {
    var ph, wk := s.workers[a.w].phase, WorkersAfter(s, a)[a.w];
    var e := Perform(s.store, CallOf(s, a));
    assert e.acked <= s.store.acked + {ph.m};
    assert wk.batch == [] || wk.batch == s.workers[a.w].batch;
    assert Unacked(wk.phase) ==> wk.phase.m == ph.m && Unacked(ph) && e.acked == s.store.acked;
    assert wk.phase != Idle ==> wk.phase.m == ph.m;
  }

  lemma TidyNoAck(s: State, a: Action, w: string)
    requires QueueInv(s) && HandsInv(s) && Enabled(s, a) && Orderly(s, a) && !a.Step? && w in WorkersAfter(s, a)
    ensures TidyHand(Perform(s.store, CallOf(s, a)), WorkersAfter(s, a)[w])
  {
    TidyBefore(s, a, w);
    NothingAcked(s, a);
    TidyByAcked(s.store, Perform(s.store, CallOf(s, a)), WorkersAfter(s, a)[w]);
  }

  /** Only a handler's step acknowledges. */
  lemma NothingAcked(s: State, a: Action)
    requires Enabled(s, a) && !a.Step?
    ensures Perform(s.store, CallOf(s, a)).acked == s.store.acked
  {
  }

  lemma TidyByAcked(d: Store, e: Store, wk: Worker)
    requires TidyHand(d, wk) && e.acked == d.acked
    ensures TidyHand(e, wk)
  {
  }

  lemma TidyBefore(s: State, a: Action, w: string)
    requires QueueInv(s) && HandsInv(s) && Enabled(s, a) && Orderly(s, a) && !a.Step? && w in WorkersAfter(s, a)
    ensures TidyHand(s.store, WorkersAfter(s, a)[w])
  {
    hide Perform, OutcomeInv;
    assert w in s.workers ==> TidyHand(s.store, s.workers[w]);
    match a
    case Deliver(v, k, lost) => SpanMembers(s.store.delivered, k);
    case Claim(v, ms, lost) => if v == w { ClaimTidy(s.store, s.workers[w], ms); }
    case Begin(v) =>
    case _ =>
  }

  lemma ClaimTidy(d: Store, wk: Worker, ms: seq<nat>)
    requires TidyHand(d, wk) && wk.phase == Idle && Ledger(d)
    requires forall i, j :: 0 <= i < j < |ms| ==> ms[i] != ms[j]
    requires forall m | m in ms :: m in d.pending && !InHand(wk, m)
    ensures TidyHand(d, Worker(wk.batch + ms, Idle))
  {
    var b := wk.batch + ms;
    forall i, j | 0 <= i < j < |b| ensures b[i] != b[j] {
      if i < |wk.batch| <= j { assert b[j] in ms && b[i] in wk.batch; }
    }
  }

  // ---------------------------------------------------------------- why a build does not repeat

  /** The Job of this deployment is in the build namespace. */
  predicate Stands(d: Store, dep: string) {
    JobKey(dep) in d.jobs && d.jobs[JobKey(dep)].dep == dep
  }

  predicate RowActive(d: Store, dep: string) {
    dep in d.rows && d.rows[dep].state in {Deploying, Running}
  }

  ghost predicate Quiet(s: State, dep: string) {
    forall i | i in s.mons :: s.mons[i].dep != dep
  }

  /** The Job is there, nobody watches it, and nobody is about to. */
  ghost predicate Orphan(s: State, m: nat, dep: string) {
    Stands(s.store, dep) && Quiet(s, dep) && forall w | w in s.workers :: s.workers[w].phase != Spawn(m)
  }

  /** The build came to its end, and nobody got past the guard before it did. */
  ghost predicate Finished(s: State, m: nat, dep: string) {
    && RowActive(s.store, dep) && Quiet(s, dep)
    && forall w | w in s.workers :: s.workers[w].phase !in {Build(m), Spawn(m)}
  }

  /** The worker that created the Job is still at it. */
  ghost predicate Tail(s: State, m: nat, dep: string, w: string) {
    && w in s.workers && s.workers[w].phase in {Spawn(m), BuildAck(m), FailWrite(m)}
    && Stands(s.store, dep)
    && forall i | i in s.mons && s.mons[i].dep == dep :: s.mons[i].owner == w
  }

  ghost predicate Settled(s: State, m: nat)
    requires m < |s.store.stream|
  {
    var dep := s.store.stream[m].dep;
    || m in s.store.acked
    || Orphan(s, m, dep)
    || Finished(s, m, dep)
    || exists w :: Tail(s, m, dep, w)
  }

  ghost predicate SettledInv(s: State) {
    forall m: nat | m < |s.store.stream| && Open(s.store.hist, s.store.stream[m].dep) :: Settled(s, m)
  }

  /** A monitor about to clean up wrote its verdict first. */
  ghost predicate VerdictInv(s: State) {
    forall i | i in s.mons && s.mons[i].phase == Cleanup && Open(s.store.hist, s.mons[i].dep) ::
      RowActive(s.store, s.mons[i].dep)
  }

  /** Jobs are created for messages only. */
  ghost predicate UnsentClosed(d: Store) {
    forall dep | Open(d.hist, dep) :: exists msg | msg in d.stream :: msg.dep == dep
  }

  ghost predicate RowsKept(d: Store) { d.rows.Keys == d.ids.Keys }

  ghost predicate BuildInv(s: State) {
    && QueueInv(s) && ImageInv(s)
    && RequestInv(s) && RowsKept(s.store) && HandsInv(s)
    && VerdictInv(s) && UnsentClosed(s.store) && SettledInv(s)
  }

  // ---------------------------------------------------------------- steps

  lemma RowsKeptBy(d: Store, c: Call)
    requires RowsKept(d) && CallEnabled(d, c) && !c.CascadeRow?
    ensures RowsKept(Perform(d, c))
  {
  }

  lemma RowsKeptStep(s: State, a: Action)
    requires RowsKept(s.store) && Enabled(s, a) && Orderly(s, a)
    ensures RowsKept(Perform(s.store, CallOf(s, a)))
  {
    hide RowsKept, Perform;
    RowsKeptBy(s.store, CallOf(s, a));
  }

  lemma UnsentClosedStep(s: State, a: Action)
    requires UnsentClosed(s.store) && Enabled(s, a)
    ensures UnsentClosed(Perform(s.store, CallOf(s, a)))
  {
    var c := CallOf(s, a);
    var e := Perform(s.store, c);
    PerformGrows(s.store, c);
    forall dep | Open(e.hist, dep) ensures exists msg | msg in e.stream :: msg.dep == dep {
      OpenAfter(s.store, c, dep);
      if c.MakeJob? && c.dep == dep {
        assert WorkMsg(s, a.w) in e.stream;
      } else {
        var msg :| msg in s.store.stream && msg.dep == dep;
        assert msg in e.stream;
      }
    }
  }

  /** Whether an action is one of a monitor of `dep`. */
  predicate WatcherOf(s: State, a: Action, dep: string) {
    (a.MonStep? || a.MonRepeat? || a.MonGate?) && a.i in s.mons && s.mons[a.i].dep == dep
  }

  lemma ActiveUnder(d: Store, c: Call, dep: string)
    requires CallEnabled(d, c) && RowActive(d, dep) && dep in d.ids && c != CascadeRow(dep)
    requires c.WriteRow? && c.dep == dep ==> c.state in {Deploying, Running}
    ensures RowActive(Perform(d, c), dep)
  {
  }

  /** Building is written by a monitor of the deployment alone. */
  lemma OtherWriters(s: State, a: Action, dep: string)
    requires Enabled(s, a) && Orderly(s, a) && !WatcherOf(s, a, dep)
    ensures CallOf(s, a) != CascadeRow(dep)
    ensures CallOf(s, a).WriteRow? && CallOf(s, a).dep == dep ==> CallOf(s, a).state in {Deploying, Running, Failed}
  {
  }

  /** Nothing but the deployment's own monitor, or a write of Failed, moves an active row. */
  lemma RowActiveKept(s: State, a: Action, dep: string)
    requires Enabled(s, a) && Orderly(s, a) && RowActive(s.store, dep) && RowsInv(s.store) && !WatcherOf(s, a, dep)
    requires Open(Perform(s.store, CallOf(s, a)).hist, dep)
    ensures RowActive(Perform(s.store, CallOf(s, a)), dep)
  {
    OpenAfter(s.store, CallOf(s, a), dep);
    OtherWriters(s, a, dep);
    hide Perform, CallOf, RowActive;
    ActiveUnder(s.store, CallOf(s, a), dep);
  }

  lemma VerdictInvStep(s: State, a: Action)
    requires BuildInv(s) && Enabled(s, a) && Orderly(s, a)
    ensures VerdictInv(Apply(s, a))
  {
    var t := Apply(s, a);
    forall i | i in t.mons && t.mons[i].phase == Cleanup && Open(t.store.hist, t.mons[i].dep)
      ensures RowActive(t.store, t.mons[i].dep)
    {
      VerdictKept(s, a, i);
    }
  }

  lemma VerdictKept(s: State, a: Action, i: nat)
    requires RowsKept(s.store) && MonsInv(s) && VerdictInv(s) && RowsInv(s.store) && Enabled(s, a) && Orderly(s, a)
    requires i in MonsAfter(s, a) && MonsAfter(s, a)[i].phase == Cleanup
    requires Open(Perform(s.store, CallOf(s, a)).hist, MonsAfter(s, a)[i].dep)
    ensures RowActive(Perform(s.store, CallOf(s, a)), MonsAfter(s, a)[i].dep)
  {
    hide RowsInv, Perform, Open, OwnsJob;
    assert MonOk(s.store, s.mons[i]);
    if a.MonStep? && a.i == i {
      VerdictWritten(s.store, s.mons[i], a);
    } else {
      VerdictStands(s, a, i);
    }
  }

  /** A verdict that was written stands while its monitor has yet to clean up. */
  lemma VerdictStands(s: State, a: Action, i: nat)
    requires MonsInv(s) && VerdictInv(s) && RowsInv(s.store) && Enabled(s, a) && Orderly(s, a)
    requires i in s.mons && i in MonsAfter(s, a) && MonsAfter(s, a)[i].phase == Cleanup && !(a.MonStep? && a.i == i)
    requires Open(Perform(s.store, CallOf(s, a)).hist, s.mons[i].dep)
    ensures MonsAfter(s, a)[i] == s.mons[i] && RowActive(Perform(s.store, CallOf(s, a)), s.mons[i].dep)
  {
    var mon := s.mons[i];
    assert MonOk(s.store, mon);
    OpenAfter(s.store, CallOf(s, a), mon.dep);
    KeyTaken(s, a, mon.dep);
    hide RowsInv, Perform, Open;
    NotItsWatcher(s, a, i);
    RowActiveKept(s, a, mon.dep);
  }

  /** A monitor about to clean up is the only one of its deployment, and has nothing else to do. */
  lemma NotItsWatcher(s: State, a: Action, i: nat)
    requires MonsInv(s) && Enabled(s, a) && i in s.mons && !(a.MonStep? && a.i == i)
    requires i in MonsAfter(s, a) && MonsAfter(s, a)[i].phase == Cleanup
    ensures MonsAfter(s, a)[i] == s.mons[i] && !WatcherOf(s, a, s.mons[i].dep)
  {
    hide MonOk;
  }

  lemma VerdictWritten(d: Store, mon: Mon, a: Action)
    requires a.MonStep? && (a.ok ==> a.applied) && (mon.phase == FailOuter ==> a.ok)
    requires mon.dep in d.rows && mon.phase != Cleanup
    requires MonNext(mon.phase, JobOf(d, mon.dep), a.ok) == Some(Cleanup)
    requires Open(Perform(d, if a.applied then MonCall(mon) else NoCall).hist, mon.dep)
    ensures RowActive(Perform(d, if a.applied then MonCall(mon) else NoCall), mon.dep)
  {
    OpenAfter(d, if a.applied then MonCall(mon) else NoCall, mon.dep);
  }

  /** No Job is created under a key that is taken. */
  lemma KeyTaken(s: State, a: Action, dep: string)
    requires Enabled(s, a) && Stands(s.store, dep)
    ensures !(CallOf(s, a).MakeJob? && CallOf(s, a).dep == dep)
  {
  }

  lemma StandsKept(s: State, a: Action, dep: string)
    requires Enabled(s, a) && Stands(s.store, dep)
    requires a.MonStep? ==> JobKey(s.mons[a.i].dep) != JobKey(dep)
    ensures Stands(Perform(s.store, CallOf(s, a)), dep)
  {
    var c := CallOf(s, a);
    if c.DeleteJob? { assert a.MonStep? && c.dep == s.mons[a.i].dep; }
    hide Perform, CallOf, CallEnabled;
    JobsStand(s.store, c, dep, s.store.jobs[JobKey(dep)].image);
  }

  /** A monitor of another deployment has another Job name than a Job that stands. */
  lemma MonKeyDiffers(s: State, i: nat, dep: string)
    requires MonsInv(s) && i in s.mons && s.mons[i].dep != dep && Stands(s.store, dep)
    ensures JobKey(s.mons[i].dep) != JobKey(dep)
  {
    assert MonOk(s.store, s.mons[i]);
  }

  /** A monitor of another message's deployment is not a monitor of this one. */
  lemma SpawnsForItsOwn(s: State, a: Action, m: nat)
    requires StreamDistinct(s.store) && Enabled(s, a) && m < |s.store.stream| && Spawns(s, a)
    requires s.workers[a.w].phase.m != m
    ensures WorkMsg(s, a.w).dep != s.store.stream[m].dep
  {
  }

  lemma QuietKept(s: State, a: Action, m: nat)
    requires StreamDistinct(s.store) && Enabled(s, a) && m < |s.store.stream| && Quiet(s, s.store.stream[m].dep)
    requires forall w | w in s.workers :: s.workers[w].phase != Spawn(m)
    ensures Quiet(Apply(s, a), s.store.stream[m].dep)
  {
    var dep := s.store.stream[m].dep;
    if Spawns(s, a) { SpawnsForItsOwn(s, a, m); }
    forall i | i in MonsAfter(s, a) ensures MonsAfter(s, a)[i].dep != dep {
      assert i in s.mons ==> s.mons[i].dep != dep;
    }
  }

  /** While a Job stands and nobody watches it, nothing changes that. */
  lemma OrphanKept(s: State, a: Action, m: nat)
    requires MonsInv(s) && StreamDistinct(s.store)
    requires Enabled(s, a) && m < |s.store.stream| && Orphan(s, m, s.store.stream[m].dep)
    ensures Orphan(Apply(s, a), m, s.store.stream[m].dep)
  {
    var dep := s.store.stream[m].dep;
    if a.MonStep? { MonKeyDiffers(s, a.i, dep); }
    StandsKept(s, a, dep);
    QuietKept(s, a, m);
    forall w | w in WorkersAfter(s, a) ensures WorkersAfter(s, a)[w].phase != Spawn(m) {
      if a.Step? && a.w == w { BuildBlocked(s, a, m); }
    }
  }

  /** A standing Job keeps a second one from being created. */
  lemma BuildBlocked(s: State, a: Action, m: nat)
    requires Enabled(s, a) && a.Step? && m < |s.store.stream| && Stands(s.store, s.store.stream[m].dep)
    ensures WorkersAfter(s, a)[a.w].phase != Spawn(m)
  {
    KeyTaken(s, a, s.store.stream[m].dep);
  }

  lemma FinishedKept(s: State, a: Action, m: nat)
    requires RowsInv(s.store) && StreamDistinct(s.store)
    requires Enabled(s, a) && Orderly(s, a) && m < |s.store.stream| && Finished(s, m, s.store.stream[m].dep)
    requires Open(Perform(s.store, CallOf(s, a)).hist, s.store.stream[m].dep)
    ensures Finished(Apply(s, a), m, s.store.stream[m].dep)
  {
    QuietKept(s, a, m);
    RowActiveKept(s, a, s.store.stream[m].dep);
    forall w | w in WorkersAfter(s, a) ensures WorkersAfter(s, a)[w].phase !in {Build(m), Spawn(m)} {
      if a.Step? && a.w == w { GuardHolds(s, a, m); }
    }
  }

  /** The guard sends a message for an active row to its acknowledgement. */
  lemma GuardHolds(s: State, a: Action, m: nat)
    requires Enabled(s, a) && a.Step? && m < |s.store.stream| && RowActive(s.store, s.store.stream[m].dep)
    requires s.workers[a.w].phase !in {Build(m), Spawn(m)}
    ensures WorkersAfter(s, a)[a.w].phase !in {Build(m), Spawn(m)}
  {
  }

  /** A message is in the hands of at most one worker. */
  lemma OnlyHolder(s: State, v: string, w: string, m: nat)
    requires HandsInv(s) && v in s.workers && w in s.workers
    requires s.workers[v].phase != Idle && s.workers[v].phase.m == m
    requires s.workers[w].phase != Idle && s.workers[w].phase.m == m
    ensures v == w
  {
    assert InHand(s.workers[v], m) && InHand(s.workers[w], m);
  }

  /** The creating worker dies with its monitors: the Job is left an orphan. */
  lemma TailDies(s: State, a: Action, m: nat)
    requires HandsInv(s) && Enabled(s, a) && a.Crash? && m < |s.store.stream|
    requires Tail(s, m, s.store.stream[m].dep, a.w)
    ensures Orphan(Apply(s, a), m, s.store.stream[m].dep)
  {
    forall w | w in s.workers && w != a.w ensures s.workers[w].phase != Spawn(m) {
      if s.workers[w].phase == Spawn(m) { OnlyHolder(s, w, a.w, m); }
    }
  }

  /** The creating worker makes its next call. */
  lemma TailMoves(s: State, a: Action, m: nat)
    requires Ledger(s.store) && HandsDelivered(s)
    requires Enabled(s, a) && Orderly(s, a) && a.Step? && m < |s.store.stream|
    requires Tail(s, m, s.store.stream[m].dep, a.w)
    requires Open(Perform(s.store, CallOf(s, a)).hist, s.store.stream[m].dep)
    ensures m in Perform(s.store, CallOf(s, a)).acked || Tail(Apply(s, a), m, s.store.stream[m].dep, a.w)
  {
    var dep := s.store.stream[m].dep;
    OpenAfter(s.store, CallOf(s, a), dep);
    assert InHand(s.workers[a.w], m);
    StandsKept(s, a, dep);
    match s.workers[a.w].phase
    case Spawn(_) =>
    case BuildAck(_) =>
    case FailWrite(_) =>
  }

  /** The monitor of the build makes its next call. */
  lemma TailWatched(s: State, a: Action, m: nat, w: string)
    requires HandsInv(s) && MonsInv(s) && SpawnInv(s) && VerdictInv(s)
    requires Enabled(s, a) && m < |s.store.stream| && WatcherOf(s, a, s.store.stream[m].dep)
    requires Tail(s, m, s.store.stream[m].dep, w)
    requires Open(s.store.hist, s.store.stream[m].dep)
    ensures Tail(Apply(s, a), m, s.store.stream[m].dep, w) || Finished(Apply(s, a), m, s.store.stream[m].dep)
  {
    hide MonOk, TidyHand, OwnsJob, HandsInv, Open, RowActive, SpawnInv;
    if a.MonStep? && s.mons[a.i].phase == Cleanup && a.applied { TailFinishes(s, a, m, w); }
  }

  /** Its clean-up leaves the build finished, and finds nobody past the guard. */
  lemma TailFinishes(s: State, a: Action, m: nat, w: string)
    requires HandsInv(s) && MonsInv(s) && SpawnInv(s) && VerdictInv(s)
    requires Enabled(s, a) && m < |s.store.stream| && WatcherOf(s, a, s.store.stream[m].dep)
    requires a.MonStep? && s.mons[a.i].phase == Cleanup
    requires Tail(s, m, s.store.stream[m].dep, w) && Open(s.store.hist, s.store.stream[m].dep)
    ensures Finished(Apply(s, a), m, s.store.stream[m].dep)
  {
    hide MonOk, TidyHand, OwnsJob;
    assert RowActive(s.store, s.store.stream[m].dep);
    assert !Spawning(s, w);
    forall v | v in s.workers ensures s.workers[v].phase !in {Build(m), Spawn(m)} {
      if s.workers[v].phase in {Build(m), Spawn(m)} { OnlyHolder(s, v, w, m); }
    }
  }

  /** A monitor of the deployment that an action leaves there is one of the creating worker. */
  lemma TailMonitors(s: State, a: Action, m: nat, w: string, i: nat)
    requires StreamDistinct(s.store) && HandsInv(s) && MonsInv(s) && Enabled(s, a) && m < |s.store.stream|
    requires Tail(s, m, s.store.stream[m].dep, w)
    requires i in MonsAfter(s, a) && MonsAfter(s, a)[i].dep == s.store.stream[m].dep
    ensures MonsAfter(s, a)[i].owner == w
  {
    hide MonOk;
    if Spawns(s, a) && s.workers[a.w].phase.m != m { SpawnsForItsOwn(s, a, m); }
    if i !in s.mons { OnlyHolder(s, a.w, w, m); }
  }

  /** Everybody else's actions leave the creating worker where it is. */
  lemma TailOthers(s: State, a: Action, m: nat, w: string)
    requires MonsInv(s) && StreamDistinct(s.store) && HandsInv(s)
    requires Enabled(s, a) && m < |s.store.stream| && Tail(s, m, s.store.stream[m].dep, w)
    requires !((a.Crash? || a.Step?) && a.w == w)
    requires !WatcherOf(s, a, s.store.stream[m].dep)
    ensures Tail(Apply(s, a), m, s.store.stream[m].dep, w)
  {
    hide MonsInv, StreamDistinct, HandsInv, MonsAfter;
    var dep := s.store.stream[m].dep;
    if a.MonStep? { MonKeyDiffers(s, a.i, dep); }
    StandsKept(s, a, dep);
    PerformGrows(s.store, CallOf(s, a));
    hide Perform, CallOf, CallEnabled, Stands;
    assert w in WorkersAfter(s, a) && WorkersAfter(s, a)[w].phase == s.workers[w].phase;
    forall i | i in MonsAfter(s, a) && MonsAfter(s, a)[i].dep == dep ensures MonsAfter(s, a)[i].owner == w {
      TailMonitors(s, a, m, w, i);
    }
  }

  lemma TailKept(s: State, a: Action, m: nat, w: string)
    requires BuildInv(s) && Enabled(s, a) && Orderly(s, a) && m < |s.store.stream|
    requires Tail(s, m, s.store.stream[m].dep, w)
    requires Open(Perform(s.store, CallOf(s, a)).hist, s.store.stream[m].dep)
    requires Open(s.store.hist, s.store.stream[m].dep)
    ensures var t, dep := Apply(s, a), s.store.stream[m].dep;
            m in t.store.acked || Orphan(t, m, dep) || Finished(t, m, dep) || exists v :: Tail(t, m, dep, v)
  {
    if a.Crash? && a.w == w {
      TailDies(s, a, m);
    } else if a.Step? && a.w == w {
      TailMoves(s, a, m);
    } else if WatcherOf(s, a, s.store.stream[m].dep) {
      TailWatched(s, a, m, w);
    } else {
      TailOthers(s, a, m, w);
    }
  }

  /** A new message is for a deployment that has had no build. */
  lemma NewMessageClosed(s: State, a: Action)
    requires UnsentClosed(s.store) && HoldsInv(s) && Enabled(s, a) && CallOf(s, a).AddEntry?
    ensures !Open(s.store.hist, CallOf(s, a).msg.dep)
  {
    assert ReqHolds(s, s.reqs[a.r]) && Unsent(s.store, s.reqs[a.r].dep);
  }

  /** The action that creates the Job leaves its worker in charge of it. */
  lemma CreatorTail(s: State, a: Action)
    requires MonsInv(s) && Enabled(s, a) && CallOf(s, a).MakeJob?
    ensures Tail(Apply(s, a), s.workers[a.w].phase.m, WorkMsg(s, a.w).dep, a.w)
  {
    var dep := WorkMsg(s, a.w).dep;
    forall i | i in s.mons ensures s.mons[i].dep != dep { assert MonOk(s.store, s.mons[i]); }
  }

  lemma SettledStep(s: State, a: Action, m: nat)
    requires BuildInv(s) && Enabled(s, a) && Orderly(s, a) && m < |Apply(s, a).store.stream|
    requires Open(Apply(s, a).store.hist, Apply(s, a).store.stream[m].dep)
    ensures Settled(Apply(s, a), m)
  {
    hide Orphan, Finished, Tail, Ledger, OutcomeInv, HandsDelivered, HandsInv;
    hide StreamInv, JobsInv, SpawnInv, CtrlInv, MonsInv, RowsInv, ReqsInv;
    var t, c := Apply(s, a), CallOf(s, a);
    var dep := t.store.stream[m].dep;
    PerformGrows(s.store, c);
    OpenAfter(s.store, c, dep);
    if c.AddEntry? { NewMessageClosed(s, a); }
    if c.MakeJob? { CreatorTail(s, a); }
    if c.MakeJob? && c.dep == dep {
      assert s.workers[a.w].phase.m == m;
    } else {
      assert m < |s.store.stream| && Settled(s, m);
      if m in s.store.acked {
      } else if Orphan(s, m, dep) {
        OrphanKept(s, a, m);
      } else if Finished(s, m, dep) {
        FinishedKept(s, a, m);
      } else {
        var w :| Tail(s, m, dep, w);
        TailKept(s, a, m, w);
      }
    }
  }

  lemma BuildInvStep(s: State, a: Action)
    requires BuildInv(s) && Enabled(s, a) && Orderly(s, a)
    ensures BuildInv(Apply(s, a))
  {
    QueueInvStep(s, a);
    ImageInvStep(s, a);
    RowsKeptStep(s, a);
    RequestInvStep(s, a);
    HandsInvStep(s, a);
    VerdictInvStep(s, a);
    UnsentClosedStep(s, a);
    forall m: nat | m < |Apply(s, a).store.stream| && Open(Apply(s, a).store.hist, Apply(s, a).store.stream[m].dep)
      ensures Settled(Apply(s, a), m)
    {
      SettledStep(s, a, m);
    }
  }

  lemma {:induction false} BuildInvReachable(acts: seq<Action>, s: State)
    requires Exec(INIT, acts) == Some(s) && OrderlyRun(acts)
    ensures BuildInv(s)
    decreases |acts|
  {
    if acts != [] {
      var before := Exec(INIT, acts[..|acts| - 1]).value;
      BuildInvReachable(acts[..|acts| - 1], before);
      BuildInvStep(before, acts[|acts| - 1]);
    }
  }

  /** A worker about to create the Job has an unsettled message. */
  lemma CreatorUnsettled(s: State, a: Action)
    requires HandsInv(s) && Enabled(s, a) && CallOf(s, a).MakeJob?
    ensures !Settled(s, s.workers[a.w].phase.m)
  {
    assert TidyHand(s.store, s.workers[a.w]);
  }

  /** In an orderly run, an action that creates a Job finds the deployment closed. */
  lemma CreatesOnlyWhenClosed(s: State, a: Action)
    requires BuildInv(s) && Enabled(s, a) && CallOf(s, a).MakeJob?
    ensures !Open(s.store.hist, CallOf(s, a).dep)
  {
    hide QueueInv, ImageInv, Orphan, Finished, Tail;
    CreatorUnsettled(s, a);
  }

  // ---------------------------------------------------------------- over whole runs

  /** Every Job in the history was created when its deployment was closed. */
  ghost predicate ClosedAtCreation(h: seq<Event>) {
    forall j | 0 <= j < |h| && h[j].JobCreated? :: !Open(h[..j], h[j].dep)
  }

  lemma {:induction false} OrderlyHistory(acts: seq<Action>, s: State)
    requires Exec(INIT, acts) == Some(s) && OrderlyRun(acts)
    ensures ClosedAtCreation(s.store.hist)
    decreases |acts|
  {
    if acts != [] {
      var a := acts[|acts| - 1];
      var before := Exec(INIT, acts[..|acts| - 1]).value;
      OrderlyHistory(acts[..|acts| - 1], before);
      BuildInvReachable(acts[..|acts| - 1], before);
      PerformGrows(before.store, CallOf(before, a));
      var h, g := before.store.hist, s.store.hist;
      forall j | 0 <= j < |g| && g[j].JobCreated? ensures !Open(g[..j], g[j].dep) {
        if j < |h| {
          assert g[..j] == h[..j];
        } else {
          assert CallOf(before, a).MakeJob? && g[..j] == h;
          CreatesOnlyWhenClosed(before, a);
        }
      }
    }
  }

  /** A deployment that was open and is closed had its row set to Failed in between. */
  lemma {:induction false} ClosedByFailure(h: seq<Event>, i: nat, dep: string)
    requires i < |h| && h[i].JobCreated? && h[i].dep == dep && !Open(h, dep)
    ensures exists k :: i < k < |h| && h[k].Wrote? && h[k].dep == dep && h[k].state == Failed
    decreases |h|
  {
    var n := |h| - 1;
    if h[n].Wrote? && h[n].dep == dep && h[n].state == Failed {
      assert i < n;
    } else {
      assert h[..n][i] == h[i];
      ClosedByFailure(h[..n], i, dep);
      var k :| i < k < n && h[..n][k].Wrote? && h[..n][k].dep == dep && h[..n][k].state == Failed;
      assert h[k] == h[..n][k];
    }
  }

  /**
   In every orderly run, between two build Jobs of one deployment its row was set
   to Failed.
   */
  lemma NoSecondBuildWithoutFailure(acts: seq<Action>, s: State, i: nat, j: nat)
    requires Exec(INIT, acts) == Some(s) && OrderlyRun(acts)
    requires i < j < |s.store.hist| && s.store.hist[i].JobCreated? && s.store.hist[j].JobCreated?
    requires s.store.hist[i].dep == s.store.hist[j].dep
    ensures exists k :: i < k < j && s.store.hist[k].Wrote?
                        && s.store.hist[k].dep == s.store.hist[i].dep && s.store.hist[k].state == Failed
  {
    var h := s.store.hist;
    OrderlyHistory(acts, s);
    assert h[..j][i] == h[i];
    ClosedByFailure(h[..j], i, h[i].dep);
    var k :| i < k < j && h[..j][k].Wrote? && h[..j][k].dep == h[i].dep && h[..j][k].state == Failed;
    assert h[k] == h[..j][k];
  }
}
