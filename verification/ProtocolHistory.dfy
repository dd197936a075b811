/**
 What the history of a run can hold, entry by entry: who writes what, and what must have
 come before; and that a row's state is the last one written to it.
 */
module ProtocolHistory {
  import opened Wrappers
  import opened Protocol
  import opened ProtocolQueue
  import opened ProtocolImages
  import opened ProtocolRequests

  // ---------------------------------------------------------------- a row's state

  /** The last state written to this row, Queued before any. */
  function LastWrite(h: seq<Event>, dep: string): RowState {
    if h == [] then Queued
    else if h[|h| - 1].Wrote? && h[|h| - 1].dep == dep then h[|h| - 1].state
    else LastWrite(h[..|h| - 1], dep)
  }

  lemma {:induction false} LastWriteExactly(h: seq<Event>, dep: string)
    ensures || (LastWrite(h, dep) == Queued && forall e | e in h && e.Wrote? :: e.dep != dep)
            || exists k | 0 <= k < |h| ::
                 && h[k].Wrote? && h[k].dep == dep && h[k].state == LastWrite(h, dep)
                 && forall j | k < j < |h| && h[j].Wrote? :: h[j].dep != dep
  {
    if h != [] {
      var n := |h| - 1;
      assert h == h[..n] + [h[n]];
      if !(h[n].Wrote? && h[n].dep == dep) {
        LastWriteExactly(h[..n], dep);
        if k :| 0 <= k < n && h[..n][k].Wrote? && h[..n][k].dep == dep && h[..n][k].state == LastWrite(h[..n], dep)
                && forall j | k < j < n && h[..n][j].Wrote? :: h[..n][j].dep != dep {
          assert h[k] == h[..n][k] && forall j | k < j < n :: h[j] == h[..n][j];
        }
      }
    }
  }

  ghost predicate LastInv(d: Store) {
    && (forall dep | dep in d.rows :: d.rows[dep].state == LastWrite(d.hist, dep))
    && (forall dep | dep !in d.ids :: LastWrite(d.hist, dep) == Queued)
  }

  lemma LastWriteAfter(d: Store, c: Call, dep: string)
    requires CallEnabled(d, c)
    ensures LastWrite(Perform(d, c).hist, dep) ==
              if c.WriteRow? && c.dep == dep then c.state else LastWrite(d.hist, dep)
  {
    if |Perform(d, c).hist| > |d.hist| { EntryOf(d, c); }
  }

  lemma LastInvKept(d: Store, c: Call)
    requires LastInv(d) && RowsInv(d) && CallEnabled(d, c) && (c.WriteRow? ==> c.dep in d.ids)
    ensures LastInv(Perform(d, c))
  {
    var e := Perform(d, c);
    hide LastWrite, RowsInv;
    forall dep { LastWriteAfter(d, c, dep); }
  }

  /** Every write of a row is to one that was committed. */
  lemma WritesKnownRows(s: State, a: Action)
    requires QueueInv(s) && ImageInv(s) && Enabled(s, a) && CallOf(s, a).WriteRow?
    ensures CallOf(s, a).dep in s.store.ids
  {
    hide QueueInv, RowsInv, JobsInv, SpawnInv, OwnsJob, Reusable, Cleared;
    if a.Step? || a.Repeat? {
      assert WorkMsg(s, a.w) in s.store.stream && MsgOk(s.store, WorkMsg(s, a.w));
    } else if a.MonStep? || a.MonRepeat? {
      assert MonOk(s.store, s.mons[a.i]);
    } else if a.Repair? {
      assert ReqOk(s.store, s.reqs[a.r]);
    }
  }

  lemma LastInvStep(s: State, a: Action)
    requires QueueInv(s) && ImageInv(s) && LastInv(s.store) && Enabled(s, a)
    ensures LastInv(Apply(s, a).store)
  {
    if CallOf(s, a).WriteRow? { WritesKnownRows(s, a); }
    hide QueueInv, LastInv, CallOf, Perform;
    LastInvKept(s.store, CallOf(s, a));
  }

  // ---------------------------------------------------------------- who writes what

  /** The required fields are there. */
  predicate WellFormed(msg: Msg) { msg.dep != "" && msg.repo != "" && msg.image != "" }

  /** What a phase says of its message. */
  predicate PhaseFits(msg: Msg, ph: Phase) {
    && (ph.RollWrite? || ph.RollAck? ==> msg.rollback)
    && (ph.Build? || ph.Spawn? || ph.BuildAck? || ph.FailWrite? ==> !msg.rollback)
    && (ph != Idle && !ph.Check? && !ph.DlqAdd? && !ph.DlqAck? ==> WellFormed(msg))
  }

  ghost predicate WorkInv(s: State) {
    forall w | Working(s, w) :: PhaseFits(WorkMsg(s, w), s.workers[w].phase)
  }

  lemma WorkInvStep(s: State, a: Action)
    requires QueueInv(s) && WorkInv(s) && Enabled(s, a)
    ensures WorkInv(Apply(s, a))
  {
    hide Perform, CallOf, MonsAfter, ReqsAfter, CtrlAfter, OutcomeInv, PhaseCall, MonNext, MonCall;
    var t := Apply(s, a);
    PerformGrows(s.store, CallOf(s, a));
    forall w | Working(t, w) ensures PhaseFits(WorkMsg(t, w), t.workers[w].phase) {
      if w in s.workers && s.workers[w].phase != Idle { assert InHand(s.workers[w], s.workers[w].phase.m); }
    }
  }

  ghost predicate Made(h: seq<Event>, dep: string, image: string) { exists m :: JobCreated(m, dep, image) in h }

  ghost predicate WasWritten(h: seq<Event>, dep: string, st: RowState) { exists w :: Wrote(dep, st, w) in h }

  ghost predicate SomeJob(h: seq<Event>, image: string) { exists dep :: Made(h, dep, image) }

  /** Every Job was created, and a controller's tick remembers states that were written. */
  ghost predicate SourceInv(s: State) {
    && (forall key | key in s.store.jobs :: Made(s.store.hist, s.store.jobs[key].dep, s.store.jobs[key].image))
    && (forall dep | dep in s.ctrl && s.ctrl[dep] != Queued :: WasWritten(s.store.hist, dep, s.ctrl[dep]))
  }

  lemma SourceInvStep(s: State, a: Action)
    requires SourceInv(s) && LastInv(s.store) && Enabled(s, a)
    ensures SourceInv(Apply(s, a))
  {
    var t := Apply(s, a);
    PerformGrows(s.store, CallOf(s, a));
    hide WorkersAfter, MonsAfter, ReqsAfter;
    assert forall x | x in s.store.hist :: x in t.store.hist;
    forall key | key in t.store.jobs ensures Made(t.store.hist, t.store.jobs[key].dep, t.store.jobs[key].image) {
      JobOrigin(s.store, CallOf(s, a), key);
    }
    forall dep | dep in t.ctrl && t.ctrl[dep] != Queued ensures WasWritten(t.store.hist, dep, t.ctrl[dep]) {
      if a.CtrlRead? {
        RowWasWritten(s.store, dep);
      } else {
        var w :| Wrote(dep, s.ctrl[dep], w) in s.store.hist;
        assert Wrote(dep, t.ctrl[dep], w) in t.store.hist;
      }
    }
  }

  lemma JobOrigin(d: Store, c: Call, key: string)
    requires CallEnabled(d, c) && key in Perform(d, c).jobs
    requires forall k | k in d.jobs :: Made(d.hist, d.jobs[k].dep, d.jobs[k].image)
    ensures Made(Perform(d, c).hist, Perform(d, c).jobs[key].dep, Perform(d, c).jobs[key].image)
  {
    var e := Perform(d, c);
    PerformGrows(d, c);
    if key in d.jobs && e.jobs[key].dep == d.jobs[key].dep && e.jobs[key].image == d.jobs[key].image {
      var m :| JobCreated(m, d.jobs[key].dep, d.jobs[key].image) in d.hist;
      assert JobCreated(m, e.jobs[key].dep, e.jobs[key].image) in e.hist;
    } else {
      assert e.hist[|d.hist|] == JobCreated(c.m, c.dep, c.image);
    }
  }

  lemma RowWasWritten(d: Store, dep: string)
    requires LastInv(d) && dep in d.rows && d.rows[dep].state != Queued
    ensures WasWritten(d.hist, dep, d.rows[dep].state)
  {
    LastWriteExactly(d.hist, dep);
    var k :| 0 <= k < |d.hist| && d.hist[k].Wrote? && d.hist[k].dep == dep && d.hist[k].state == d.rows[dep].state;
    assert Wrote(dep, d.rows[dep].state, d.hist[k].writer) in d.hist;
  }

  /**
   Entry `k` of the history, given those before it.  A Job is created from a message that is
   complete and no rollback, with its deployment and image; a Job ends, and an image passes
   the gate, only after that.  A handler writes Failed for such a message, and a rollback
   Deploying; a monitor writes Building, Deploying or Failed to a deployment whose Job was
   created; the controller writes Running after Deploying, and Failed after its own Running;
   the API writes Failed.
   */
  ghost predicate Lawful(d: Store, k: nat)
    requires k < |d.hist|
  {
    var h := d.hist[..k];
    match d.hist[k]
    case JobCreated(m, dep, image) =>
      m < |d.stream| && WellFormed(d.stream[m]) && d.stream[m] == Msg(dep, d.stream[m].repo, image, false)
    case JobSucceeded(image) => SomeJob(h, image)
    case JobFailed(image) => SomeJob(h, image)
    case GatePassed(image) => JobSucceeded(image) in h
    case GuardRead(m, st) => m < |d.stream| && WellFormed(d.stream[m])
    case Wrote(dep, st, writer) =>
      && dep in d.ids
      && match writer
         case ByHandler(m) =>
           && st == Failed && m < |d.stream| && WellFormed(d.stream[m])
           && d.stream[m].dep == dep && !d.stream[m].rollback
         case ByRollback(m) =>
           && st == Deploying && m < |d.stream| && WellFormed(d.stream[m])
           && d.stream[m].dep == dep && d.stream[m].rollback
         case ByMonitor => st in {Building, Deploying, Failed} && Made(h, dep, d.ids[dep])
         case ByController =>
           (st == Running && WasWritten(h, dep, Deploying)) || (st == Failed && Wrote(dep, Running, ByController) in h)
         case ByApi => st == Failed
  }

  ghost predicate AllLawful(d: Store) { forall k | 0 <= k < |d.hist| :: Lawful(d, k) }

  lemma StaysLawful(d: Store, e: Store, k: nat)
    requires Grown(d, e) && k < |d.hist| && Lawful(d, k)
    requires forall dep | dep in d.ids :: dep in e.ids && e.ids[dep] == d.ids[dep]
    ensures Lawful(e, k)
  {
    assert e.hist[..k] == d.hist[..k];
    hide Made, WasWritten, SomeJob, WellFormed;
  }

  /** A served row of a tick's copy was written Deploying, and a Running one by the controller. */
  lemma ServedWasDeployed(s: State, dep: string)
    requires AllLawful(s.store) && SourceInv(s) && dep in s.ctrl
    ensures s.ctrl[dep] in {Deploying, Verifying} ==> WasWritten(s.store.hist, dep, Deploying)
    ensures s.ctrl[dep] == Running ==> Wrote(dep, Running, ByController) in s.store.hist
  {
    if s.ctrl[dep] != Queued {
      var w :| Wrote(dep, s.ctrl[dep], w) in s.store.hist;
      var k :| 0 <= k < |s.store.hist| && s.store.hist[k] == Wrote(dep, s.ctrl[dep], w);
      assert Lawful(s.store, k);
    }
  }

  /** What a worker's call adds. */
  lemma WorkerAdds(s: State, w: string)
    requires WorkInv(s) && StreamInv(s.store) && Working(s, w)
    ensures var msg, ph := WorkMsg(s, w), s.workers[w].phase;
            match PhaseCall(ph, msg)
            case WriteRow(dep, st, ByHandler(m)) =>
              st == Failed && m == ph.m && WellFormed(msg) && dep == msg.dep && !msg.rollback
            case WriteRow(dep, st, ByRollback(m)) =>
              st == Deploying && m == ph.m && WellFormed(msg) && dep == msg.dep && msg.rollback
            case MakeJob(m, dep, image) =>
              m == ph.m && WellFormed(msg) && dep == msg.dep && image == msg.image && !msg.rollback
            case ReadRow(m, _) => m == ph.m && WellFormed(msg)
            case NoCall | AckEntry(_) | CopyToDlq(_) => true
            case _ => false
  {
    assert PhaseFits(WorkMsg(s, w), s.workers[w].phase);
  }

  /** What a monitor's call adds. */
  lemma MonitorAdds(s: State, i: nat)
    requires MonsInv(s) && SourceInv(s) && i in s.mons
    ensures s.mons[i].dep in s.store.ids && s.store.ids[s.mons[i].dep] == s.mons[i].image
    ensures Made(s.store.hist, s.mons[i].dep, s.mons[i].image)
    ensures match MonCall(s.mons[i])
            case WriteRow(dep, st, writer) =>
              dep == s.mons[i].dep && st in {Building, Deploying, Failed} && writer == ByMonitor
            case NoCall | DeleteJob(_) => true
            case _ => false
    ensures s.mons[i].phase == Gate ==> JobSucceeded(s.mons[i].image) in s.store.hist
  {
    assert MonOk(s.store, s.mons[i]);
  }

  /** An entry that is lawful for what is known when its call is made. */
  lemma LawfulByCall(d: Store, c: Call, e: Store)
    requires CallEnabled(d, c) && e == Perform(d, c) && |e.hist| > |d.hist|
    requires forall dep | dep in d.ids :: dep in e.ids && e.ids[dep] == d.ids[dep]
    requires match c
             case ReadRow(m, _) => m < |d.stream| && WellFormed(d.stream[m])
             case MakeJob(m, dep, image) =>
               m < |d.stream| && WellFormed(d.stream[m]) && d.stream[m] == Msg(dep, d.stream[m].repo, image, false)
             case EndJob(key, _) => key in d.jobs ==> SomeJob(d.hist, d.jobs[key].image)
             case NotePass(image) => JobSucceeded(image) in d.hist
             case WriteRow(dep, st, writer) =>
               && dep in d.ids
               && (match writer
                   case ByHandler(m) =>
                     && st == Failed && m < |d.stream| && WellFormed(d.stream[m])
                     && d.stream[m].dep == dep && !d.stream[m].rollback
                   case ByRollback(m) =>
                     && st == Deploying && m < |d.stream| && WellFormed(d.stream[m])
                     && d.stream[m].dep == dep && d.stream[m].rollback
                   case ByMonitor => st in {Building, Deploying, Failed} && Made(d.hist, dep, d.ids[dep])
                   case ByController =>
                     || (st == Running && WasWritten(d.hist, dep, Deploying))
                     || (st == Failed && Wrote(dep, Running, ByController) in d.hist)
                   case ByApi => st == Failed)
             case _ => true
    ensures Lawful(e, |d.hist|)
  {
    EntryOf(d, c);
    PerformGrows(d, c);
    hide Perform, CallEnabled, Made, WasWritten, SomeJob, WellFormed;
  }

  lemma NewIsLawful(s: State, a: Action)
    requires QueueInv(s) && ImageInv(s) && WorkInv(s) && SourceInv(s) && AllLawful(s.store) && Enabled(s, a)
    requires |Perform(s.store, CallOf(s, a)).hist| > |s.store.hist|
    ensures Lawful(Perform(s.store, CallOf(s, a)), |s.store.hist|)
  {
    hide QueueInv, RowsInv, StreamInv, JobsInv, MonsInv, SpawnInv, CtrlInv, ReqsInv, WorkInv, AllLawful, Lawful;
    hide Perform, Made, WasWritten, WellFormed, PhaseCall, MonCall;
    var d, c := s.store, CallOf(s, a);
    CallAdds(d, c);
    if c.WriteRow? { WritesKnownRows(s, a); }
    if a.Step? || a.Repeat? {
      WorkerAdds(s, a.w);
    } else if a.MonStep? || a.MonRepeat? || a.MonGate? {
      MonitorAdds(s, a.i);
    } else if a.CtrlPromote? || a.CtrlFail? {
      ServedWasDeployed(s, a.dep);
    } else if a.JobEnd? {
      assert Made(d.hist, d.jobs[a.key].dep, d.jobs[a.key].image);
    }
    LawfulByCall(d, c, Perform(d, c));
  }

  ghost predicate HistoryInv(s: State) {
    LastInv(s.store) && WorkInv(s) && SourceInv(s) && AllLawful(s.store)
  }

  lemma HistoryInvStep(s: State, a: Action)
    requires QueueInv(s) && ImageInv(s) && HistoryInv(s) && Enabled(s, a)
    ensures HistoryInv(Apply(s, a))
  {
    hide QueueInv, ImageInv, LastInv, WorkInv, SourceInv, AllLawful, CallOf, Perform;
    LastInvStep(s, a);
    WorkInvStep(s, a);
    SourceInvStep(s, a);
    LawfulStep(s, a);
  }

  lemma LawfulStep(s: State, a: Action)
    requires QueueInv(s) && ImageInv(s) && WorkInv(s) && SourceInv(s) && AllLawful(s.store) && Enabled(s, a)
    ensures AllLawful(Apply(s, a).store)
  {
    assert CallEnabled(s.store, CallOf(s, a));
    hide QueueInv, ImageInv, WorkInv, SourceInv, CallOf, Perform, Lawful, Enabled, CallEnabled;
    var d, e := s.store, Perform(s.store, CallOf(s, a));
    PerformGrows(d, CallOf(s, a));
    CallAdds(d, CallOf(s, a));
    if |e.hist| > |d.hist| { EntryOf(d, CallOf(s, a)); }
    forall k | 0 <= k < |e.hist| ensures Lawful(e, k) {
      if k < |d.hist| { StaysLawful(d, e, k); } else { NewIsLawful(s, a); }
    }
  }

  lemma {:induction false} HistoryInvReachable(acts: seq<Action>, s: State)
    requires Exec(INIT, acts) == Some(s)
    ensures HistoryInv(s)
    decreases |acts|
  {
    if acts != [] {
      var before := Exec(INIT, acts[..|acts| - 1]).value;
      HistoryInvReachable(acts[..|acts| - 1], before);
      QueueInvReachable(acts[..|acts| - 1], before);
      ImageInvReachable(acts[..|acts| - 1], before);
      HistoryInvStep(before, acts[|acts| - 1]);
    }
  }

  /** In every run the history is lawful. */
  lemma HistoryIsLawful(acts: seq<Action>, s: State, k: nat)
    requires Exec(INIT, acts) == Some(s) && k < |s.store.hist|
    ensures Lawful(s.store, k)
  {
    HistoryInvReachable(acts, s);
  }

  /** In every run a row's state is the last one that was written to it, by whomever. */
  lemma RowIsLastWrite(acts: seq<Action>, s: State, dep: string)
    requires Exec(INIT, acts) == Some(s) && dep in s.store.rows
    ensures s.store.rows[dep].state == LastWrite(s.store.hist, dep)
  {
    HistoryInvReachable(acts, s);
  }
}
