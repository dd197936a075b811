/**
 Conservation of messages over every run, and the outcome behind every
 acknowledgement.
 */
module ProtocolQueue {
  import opened Wrappers
  import opened Protocol

  predicate InHand(wk: Worker, m: nat) {
    m in wk.batch || (wk.phase != Idle && wk.phase.m == m)
  }

  /** Every delivered entry is pending or acked, and not both. */
  ghost predicate Ledger(d: Store) {
    && d.delivered <= |d.stream|
    && (forall m: nat :: m < d.delivered <==> m in d.pending || m in d.acked)
    && (forall m: nat | m in d.pending :: m !in d.acked)
  }

  /** Workers hold delivered entries only. */
  ghost predicate HandsDelivered(s: State) {
    forall w, m: nat | w in s.workers && InHand(s.workers[w], m) :: m < s.store.delivered
  }

  lemma SpanMembers(lo: nat, k: nat)
    ensures forall m: nat :: m in Span(lo, k) <==> lo <= m < lo + k
  {
    forall m: nat | lo <= m < lo + k ensures m in Span(lo, k) { assert Span(lo, k)[m - lo] == m; }
  }

  lemma LedgerKept(d: Store, c: Call)
    requires Ledger(d) && CallEnabled(d, c)
    ensures Ledger(Perform(d, c))
    ensures d.delivered <= Perform(d, c).delivered
  {
    if c.DeliverNew? { SpanMembers(d.delivered, c.k); }
  }

  lemma NewInHand(s: State, a: Action, w: string, m: nat)
    requires Ledger(s.store) && HandsDelivered(s) && Enabled(s, a)
    requires w in WorkersAfter(s, a) && InHand(WorkersAfter(s, a)[w], m)
    ensures m < Perform(s.store, CallOf(s, a)).delivered
  {
    LedgerKept(s.store, CallOf(s, a));
    if w in s.workers && InHand(s.workers[w], m) {
    } else if a.Deliver? {
      SpanMembers(s.store.delivered, a.k);
    }
  }

  /** The stream, the dead-letter stream and the history only grow. */
  ghost predicate Grown(d: Store, e: Store) {
    && d.stream <= e.stream
    && d.dlq <= e.dlq
    && d.hist <= e.hist
  }

  lemma PerformGrows(d: Store, c: Call)
    requires CallEnabled(d, c)
    ensures Grown(d, Perform(d, c))
  {
  }

  /** The entry a call adds. */
  lemma EntryOf(d: Store, c: Call)
    requires CallEnabled(d, c) && |Perform(d, c).hist| > |d.hist|
    ensures |Perform(d, c).hist| == |d.hist| + 1 && Perform(d, c).hist[..|d.hist|] == d.hist
    ensures var e := Perform(d, c).hist[|d.hist|];
            match c
            case ReadRow(m, dep) => dep in d.rows && e == GuardRead(m, d.rows[dep].state)
            case WriteRow(dep, st, writer) => e == Wrote(dep, st, writer)
            case MakeJob(m, dep, image) => e == JobCreated(m, dep, image)
            case EndJob(key, success) =>
              key in d.jobs && e == if success then JobSucceeded(d.jobs[key].image) else JobFailed(d.jobs[key].image)
            case NotePass(image) => e == GatePassed(image)
            case _ => false
  {
  }

  /** Entries delivered or taken over are pending under that consumer; no other call changes
      whose a pending entry is. */
  lemma OwnersExactly(d: Store, c: Call, m: nat)
    requires Ledger(d) && CallEnabled(d, c) && m in Perform(d, c).pending
    ensures var owner := Perform(d, c).pending[m];
            if c.DeliverNew? && d.delivered <= m < d.delivered + c.k then owner == c.owner
            else if c.TakeOver? && m in c.ms then owner == c.owner
            else m in d.pending && owner == d.pending[m]
  {
    if c.DeliverNew? { SpanMembers(d.delivered, c.k); }
  }

  /** A worker is given, and asked for, what it then has in hand, unless the reply is lost. */
  lemma HandsExactly(s: State, a: Action)
    requires Enabled(s, a) && (a.Deliver? || a.Claim?)
    ensures CallOf(s, a) == if a.Deliver? then DeliverNew(a.w, a.k) else TakeOver(a.w, a.ms)
    ensures a.w in WorkersAfter(s, a) && WorkersAfter(s, a)[a.w].phase == Idle
    ensures var batch := WorkersAfter(s, a)[a.w].batch;
            if a.lost then batch == []
            else if a.Claim? then batch == s.workers[a.w].batch + a.ms
            else |batch| == a.k && forall j | 0 <= j < a.k :: batch[j] == s.store.delivered + j
  {
    hide PhaseNext, MonNext, PhaseCall, MonCall;
  }

  // ---------------------------------------------------------------- outcomes

  /** What a message has to show for itself before it may be acknowledged. */
  ghost predicate Outcome(d: Store, m: nat)
    requires m < |d.stream|
  {
    var msg := d.stream[m];
    || msg in d.dlq
    || JobCreated(m, msg.dep, msg.image) in d.hist
    || (msg.rollback && Wrote(msg.dep, Deploying, ByRollback(m)) in d.hist)
    || exists st | InFlight(st) :: GuardRead(m, st) in d.hist
  }

  /** A worker in one of these phases has the outcome of its message on record. */
  predicate MayAck(ph: Phase) {
    ph.ActiveAck? || ph.RollAck? || ph.DlqAck? || ph.BuildAck? || ph.Spawn?
  }

  ghost predicate PhaseOutcome(d: Store, ph: Phase) {
    && (MayAck(ph) ==> ph.m < |d.stream| && Outcome(d, ph.m))
    && (ph.RollWrite? ==> ph.m < |d.stream| && d.stream[ph.m].rollback)
  }

  ghost predicate OutcomeInv(s: State) {
    && (forall m: nat | m in s.store.acked :: m < |s.store.stream| && Outcome(s.store, m))
    && (forall w | w in s.workers :: PhaseOutcome(s.store, s.workers[w].phase))
  }

  lemma OutcomeGrows(d: Store, e: Store)
    requires Grown(d, e)
    ensures forall m: nat | m < |d.stream| && Outcome(d, m) :: Outcome(e, m)
    ensures forall ph | PhaseOutcome(d, ph) :: PhaseOutcome(e, ph)
  {
    assert forall x | x in d.hist :: x in e.hist;
    assert forall x | x in d.dlq :: x in e.dlq;
  }

  /** The call that earns a phase its right to acknowledge. */
  lemma StepOutcome(d: Store, ph: Phase, ok: bool, applied: bool, next: Phase)
    requires ph != Idle && ph.m < |d.stream| && PhaseOutcome(d, ph) && (ok ==> applied)
    requires var msg := d.stream[ph.m];
             var c := if applied then PhaseCall(ph, msg) else NoCall;
             CallEnabled(d, c) &&
             PhaseNext(ph, msg, msg.dep in d.rows && InFlight(d.rows[msg.dep].state), ok) == Some(next)
    ensures var c := if applied then PhaseCall(ph, d.stream[ph.m]) else NoCall;
            PhaseOutcome(Perform(d, c), next)
  {
    var msg := d.stream[ph.m];
    var c := if applied then PhaseCall(ph, msg) else NoCall;
    var e := Perform(d, c);
    PerformGrows(d, c);
    OutcomeGrows(d, e);
    match ph
    case Guard(m) =>
      if next.ActiveAck? { assert GuardRead(m, d.rows[msg.dep].state) in e.hist; }
    case RollWrite(m) => assert ok ==> Wrote(msg.dep, Deploying, ByRollback(m)) in e.hist;
    case Build(m) => assert ok ==> JobCreated(m, msg.dep, msg.image) in e.hist;
    case DlqAdd(m) => assert ok ==> msg in e.dlq;
    case _ =>
  }

  lemma NewlyAcked(s: State, a: Action, m: nat)
    requires Enabled(s, a) && m in Perform(s.store, CallOf(s, a)).acked && m !in s.store.acked
    ensures a.Step? && Working(s, a.w) && PhaseCall(s.workers[a.w].phase, WorkMsg(s, a.w)) == AckEntry(m)
  {
    assert CallOf(s, a) == AckEntry(m);
  }

  /** Only a worker entitled to it acknowledges. */
  lemma AckedKept(s: State, a: Action, m: nat)
    requires OutcomeInv(s) && Enabled(s, a)
    requires m in Perform(s.store, CallOf(s, a)).acked
    ensures m < |s.store.stream| && Outcome(s.store, m)
  {
    if m !in s.store.acked {
      NewlyAcked(s, a, m);
      hide Perform, CallOf, Enabled;
      assert PhaseOutcome(s.store, s.workers[a.w].phase);
    }
  }

  ghost predicate QueueInv(s: State) {
    Ledger(s.store) && HandsDelivered(s) && OutcomeInv(s)
  }

  lemma QueueInvStep(s: State, a: Action)
    requires QueueInv(s) && Enabled(s, a)
    ensures QueueInv(Apply(s, a))
  {
    var t := Apply(s, a);
    LedgerKept(s.store, CallOf(s, a));
    PerformGrows(s.store, CallOf(s, a));
    OutcomeGrows(s.store, t.store);
    forall w, m: nat | w in t.workers && InHand(t.workers[w], m) ensures m < t.store.delivered {
      NewInHand(s, a, w, m);
    }
    forall m: nat | m in t.store.acked ensures m < |t.store.stream| && Outcome(t.store, m) {
      AckedKept(s, a, m);
    }
    forall w | w in t.workers ensures PhaseOutcome(t.store, t.workers[w].phase) {
      if a.Step? && a.w == w && t.workers[w].phase != Idle {
        StepOutcome(s.store, s.workers[w].phase, a.ok, a.applied, t.workers[w].phase);
      }
    }
  }

  /** In every state a run can reach, the queue invariants hold. */
  lemma {:induction false} QueueInvReachable(acts: seq<Action>, s: State)
    requires Exec(INIT, acts) == Some(s)
    ensures QueueInv(s)
    decreases |acts|
  {
    if acts != [] {
      var before := Exec(INIT, acts[..|acts| - 1]).value;
      QueueInvReachable(acts[..|acts| - 1], before);
      QueueInvStep(before, acts[|acts| - 1]);
    }
  }

  /**
   For any number of workers and any crashes, a message added to the stream is in
   exactly one of undelivered, pending or acked, and an acked one has its outcome.
   */
  lemma EveryMessageAccountedFor(acts: seq<Action>, s: State, m: nat)
    requires Exec(INIT, acts) == Some(s) && m < |s.store.stream|
    ensures var d := s.store;
            || (m >= d.delivered && m !in d.pending && m !in d.acked)
            || (m < d.delivered && m in d.pending && m !in d.acked)
            || (m < d.delivered && m !in d.pending && m in d.acked && (
                  || d.stream[m] in d.dlq
                  || JobCreated(m, d.stream[m].dep, d.stream[m].image) in d.hist
                  || (d.stream[m].rollback && Wrote(d.stream[m].dep, Deploying, ByRollback(m)) in d.hist)
                  || exists st | st in {Building, Deploying, Running} :: GuardRead(m, st) in d.hist))
  {
    QueueInvReachable(acts, s);
  }
}
