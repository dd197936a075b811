/** What the API promises about rows and their messages: commit first, enqueue second. */
module ProtocolRequests {
  import opened Wrappers
  import opened Protocol
  import opened ProtocolQueue
  import opened ProtocolImages

  /** The request has committed its row. */
  predicate Placed(req: Req) { req.phase != Selected }

  ghost predicate Unsent(d: Store, dep: string) {
    forall msg | msg in d.stream :: msg.dep != dep
  }

  /** Nothing follows the deployment: no monitor, and no controller that takes it for served. */
  ghost predicate Unfollowed(s: State, dep: string) {
    && (forall i | i in s.mons :: s.mons[i].dep != dep)
    && (dep in s.ctrl ==> s.ctrl[dep] in {Queued, Failed})
  }

  /** The request has been through its compensating update. */
  predicate Compensated(ph: ReqPhase) {
    ph.Ended? && (ph.end.Repaired? || ph.end.RepairFailed?)
  }

  /** The row is as it was inserted, or as the compensating update left it. */
  predicate RowKept(d: Store, dep: string, ph: ReqPhase) {
    dep in d.rows ==> d.rows[dep].state == Queued || (Compensated(ph) && d.rows[dep].state == Failed)
  }

  /** As long as its message is not in the stream, nothing happens to a deployment. */
  ghost predicate Untouched(s: State, dep: string, ph: ReqPhase) {
    Unsent(s.store, dep) && Unfollowed(s, dep) && RowKept(s.store, dep, ph)
  }

  /** What a request's phase says of its kind, its message and its row. */
  ghost predicate PhaseOk(d: Store, req: Req) {
    match req.phase
    case Ended(Sent(at)) => at < |d.stream| && d.stream[at] == ReqMsg(req)
    case Ended(Repaired(_)) => req.kind in {Create, Webhook} && (req.dep in d.rows ==> d.rows[req.dep].state != Queued)
    case Repairing(_) | Ended(RepairFailed(_)) => req.kind in {Create, Webhook}
    case Ended(Unrepaired(_)) => req.kind in {AppHook, Rollback}
    case _ => true
  }

  ghost predicate ReqHolds(s: State, req: Req) {
    && PhaseOk(s.store, req)
    && (Placed(req) ==>
          if Added(req.phase) then ReqMsg(req) in s.store.stream else Untouched(s, req.dep, req.phase))
  }

  ghost predicate HoldsInv(s: State) { forall r | r in s.reqs :: ReqHolds(s, s.reqs[r]) }

  /** No two requests have the same deployment. */
  ghost predicate AloneInv(s: State) {
    forall r, q | r in s.reqs && q in s.reqs && r != q && Placed(s.reqs[r]) && Placed(s.reqs[q]) ::
      s.reqs[r].dep != s.reqs[q].dep
  }

  ghost predicate OwnerOf(s: State, dep: string, r: nat) { r in s.reqs && Placed(s.reqs[r]) && s.reqs[r].dep == dep }

  /** Every deployment ever committed is some request's. */
  ghost predicate OwnedInv(s: State) { forall dep | dep in s.store.ids :: exists r :: OwnerOf(s, dep, r) }

  ghost predicate StreamDistinct(d: Store) {
    forall m, n | 0 <= m < n < |d.stream| :: d.stream[m].dep != d.stream[n].dep
  }

  ghost predicate RequestInv(s: State) {
    HoldsInv(s) && AloneInv(s) && OwnedInv(s) && StreamDistinct(s.store)
  }

  // ---------------------------------------------------------------- steps

  lemma AloneInvStep(s: State, a: Action)
    requires ReqsInv(s) && AloneInv(s) && Enabled(s, a)
    ensures AloneInv(Apply(s, a))
  {
    var t := Apply(s, a);
    forall r, q | r in t.reqs && q in t.reqs && r != q && Placed(t.reqs[r]) && Placed(t.reqs[q])
      ensures t.reqs[r].dep != t.reqs[q].dep
    {
      assert r in s.reqs ==> ReqOk(s.store, s.reqs[r]);
      assert q in s.reqs ==> ReqOk(s.store, s.reqs[q]);
    }
  }

  lemma OwnerStays(s: State, a: Action, dep: string, r: nat)
    requires Enabled(s, a) && OwnerOf(s, dep, r)
    ensures OwnerOf(Apply(s, a), dep, r)
  {
  }

  lemma OwnedInvStep(s: State, a: Action)
    requires OwnedInv(s) && Enabled(s, a)
    ensures OwnedInv(Apply(s, a))
  {
    var t := Apply(s, a);
    forall dep | dep in t.store.ids ensures exists r :: OwnerOf(t, dep, r) {
      if dep in s.store.ids {
        var r :| OwnerOf(s, dep, r);
        OwnerStays(s, a, dep, r);
      } else {
        assert OwnerOf(t, dep, a.r);
      }
    }
  }

  lemma StreamDistinctStep(s: State, a: Action)
    requires HoldsInv(s) && StreamDistinct(s.store) && Enabled(s, a)
    ensures StreamDistinct(Perform(s.store, CallOf(s, a)))
  {
    if CallOf(s, a).AddEntry? {
      assert ReqHolds(s, s.reqs[a.r]) && Unsent(s.store, s.reqs[a.r].dep);
      assert forall m | 0 <= m < |s.store.stream| :: s.store.stream[m] in s.store.stream;
    }
  }

  /** Queued is written by the insertion alone. */
  lemma QueuedOnlyOnce(d: Store, c: Call, dep: string)
    requires CallEnabled(d, c) && dep in d.ids
    requires c.WriteRow? ==> c.state != Queued
    requires dep in Perform(d, c).rows && Perform(d, c).rows[dep].state == Queued
    ensures dep in d.rows && d.rows[dep].state == Queued
  {
  }

  lemma NoCallWritesQueued(s: State, a: Action)
    requires Enabled(s, a)
    ensures CallOf(s, a).WriteRow? ==> CallOf(s, a).state != Queued
  {
  }

  /** What a request has come to stays true whatever is called. */
  lemma PhaseStaysOk(d: Store, c: Call, req: Req)
    requires PhaseOk(d, req) && CallEnabled(d, c) && (c.WriteRow? ==> c.state != Queued)
    requires Placed(req) ==> req.dep in d.ids
    ensures PhaseOk(Perform(d, c), req)
  {
    PerformGrows(d, c);
    var e := Perform(d, c);
    if req.dep in e.rows && e.rows[req.dep].state == Queued && Placed(req) {
      QueuedOnlyOnce(d, c, req.dep);
    }
  }

  /** Whoever writes a row has a message, a monitor or a served row to show for it, or is its request. */
  lemma WritesElsewhere(s: State, a: Action, dep: string)
    requires Enabled(s, a) && Unsent(s.store, dep) && Unfollowed(s, dep)
    requires a.Repair? ==> s.reqs[a.r].dep != dep
    ensures CallOf(s, a).WriteRow? ==> CallOf(s, a).dep != dep
  {
    if (a.Step? || a.Repeat?) && Working(s, a.w) { assert WorkMsg(s, a.w) in s.store.stream; }
  }

  lemma UnsentKept(d: Store, c: Call, dep: string)
    requires CallEnabled(d, c) && Unsent(d, dep) && (c.AddEntry? ==> c.msg.dep != dep)
    ensures Unsent(Perform(d, c), dep)
  {
    if c.AddEntry? { assert forall x | x in Perform(d, c).stream :: x in d.stream || x == c.msg; }
  }

  lemma RowStaysKept(d: Store, c: Call, dep: string, ph: ReqPhase)
    requires CallEnabled(d, c) && dep in d.ids && RowKept(d, dep, ph) && (c.WriteRow? ==> c.dep != dep)
    ensures RowKept(Perform(d, c), dep, ph)
  {
  }

  lemma UnfollowedKept(s: State, a: Action, dep: string, ph: ReqPhase)
    requires Enabled(s, a) && Untouched(s, dep, ph)
    ensures Unfollowed(Apply(s, a), dep)
  {
    if Spawns(s, a) { assert WorkMsg(s, a.w) in s.store.stream; }
  }

  /** Other actions than its own request's leave an unsent deployment alone. */
  lemma UntouchedKept(s: State, a: Action, dep: string, ph: ReqPhase)
    requires Enabled(s, a) && Untouched(s, dep, ph) && dep in s.store.ids
    requires a.Enqueue? || a.Repair? ==> s.reqs[a.r].dep != dep
    ensures Untouched(Apply(s, a), dep, ph)
  {
    WritesElsewhere(s, a, dep);
    UnsentKept(s.store, CallOf(s, a), dep);
    RowStaysKept(s.store, CallOf(s, a), dep, ph);
    UnfollowedKept(s, a, dep, ph);
  }

  /** A request that does not move keeps what it has. */
  lemma OthersMove(s: State, a: Action, r: nat)
    requires ReqsInv(s) && HoldsInv(s) && AloneInv(s) && Enabled(s, a)
    requires r in s.reqs && r in ReqsAfter(s, a) && ReqsAfter(s, a)[r] == s.reqs[r]
    ensures ReqHolds(Apply(s, a), s.reqs[r])
  {
    hide Perform, CallOf, PhaseOk, Untouched, ReqMsg;
    var req := s.reqs[r];
    assert ReqOk(s.store, req) && ReqHolds(s, req);
    NoCallWritesQueued(s, a);
    PhaseStaysOk(s.store, CallOf(s, a), req);
    PerformGrows(s.store, CallOf(s, a));
    if Placed(req) && Added(req.phase) {
      assert forall x | x in s.store.stream :: x in Perform(s.store, CallOf(s, a)).stream;
    } else if Placed(req) {
      UntouchedKept(s, a, req.dep, req.phase);
    }
  }

  /** A deployment that was only now committed is untouched. */
  lemma JustPlaced(s: State, a: Action)
    requires RowsInv(s.store) && StreamInv(s.store) && MonsInv(s) && CtrlInv(s) && Enabled(s, a)
    requires a.Submit? || a.RollbackInsert?
    ensures ReqHolds(Apply(s, a), ReqsAfter(s, a)[a.r])
  {
    forall msg | msg in s.store.stream ensures msg.dep != a.dep { assert MsgOk(s.store, msg); }
    forall i | i in s.mons ensures s.mons[i].dep != a.dep { assert MonOk(s.store, s.mons[i]); }
  }

  /** The XADD, whatever comes of it. */
  lemma AfterEnqueue(s: State, a: Action)
    requires HoldsInv(s) && Enabled(s, a) && a.Enqueue?
    ensures ReqHolds(Apply(s, a), ReqsAfter(s, a)[a.r])
  {
    var req := s.reqs[a.r];
    assert ReqHolds(s, req) && Untouched(s, req.dep, Enqueueing);
    assert req.kind.Create? || req.kind.Webhook? || req.kind.AppHook? || req.kind.Rollback?;
    if a.applied { assert ReqMsg(req) in Perform(s.store, CallOf(s, a)).stream; }
  }

  /** The compensating update, whatever comes of it. */
  lemma AfterRepair(s: State, a: Action)
    requires HoldsInv(s) && Enabled(s, a) && a.Repair?
    ensures ReqHolds(Apply(s, a), ReqsAfter(s, a)[a.r])
  {
    assert ReqHolds(s, s.reqs[a.r]);
  }

  lemma HoldsInvStep(s: State, a: Action)
    requires ImageInv(s) && HoldsInv(s) && AloneInv(s) && Enabled(s, a)
    ensures HoldsInv(Apply(s, a))
  {
    var t := Apply(s, a);
    hide Perform, CallOf, HoldsInv, ReqHolds, AloneInv;
    forall r | r in t.reqs ensures ReqHolds(t, t.reqs[r]) {
      if r in s.reqs && t.reqs[r] == s.reqs[r] {
        OthersMove(s, a, r);
      } else {
        OwnMove(s, a, r);
      }
    }
  }

  lemma OwnMove(s: State, a: Action, r: nat)
    requires ImageInv(s) && HoldsInv(s) && Enabled(s, a)
    requires r in ReqsAfter(s, a) && !(r in s.reqs && ReqsAfter(s, a)[r] == s.reqs[r])
    ensures ReqHolds(Apply(s, a), ReqsAfter(s, a)[r])
  {
    match a
    case Submit(_, _, _, _, _, _) => JustPlaced(s, a);
    case RollbackInsert(_, _, _) => JustPlaced(s, a);
    case Enqueue(_, _, _) => AfterEnqueue(s, a);
    case Repair(_, _, _) => AfterRepair(s, a);
    case ApiCrash(_) => assert ReqHolds(s, s.reqs[r]);
    case _ =>
  }

  lemma RequestInvStep(s: State, a: Action)
    requires ImageInv(s) && RequestInv(s) && Enabled(s, a)
    ensures RequestInv(Apply(s, a))
  {
    hide Perform, CallOf, HoldsInv, AloneInv, OwnedInv, ReqsAfter;
    HoldsInvStep(s, a);
    AloneInvStep(s, a);
    OwnedInvStep(s, a);
    StreamDistinctStep(s, a);
  }

  lemma {:induction false} RequestInvReachable(acts: seq<Action>, s: State)
    requires Exec(INIT, acts) == Some(s)
    ensures RequestInv(s)
    decreases |acts|
  {
    if acts != [] {
      var before := Exec(INIT, acts[..|acts| - 1]).value;
      RequestInvReachable(acts[..|acts| - 1], before);
      ImageInvReachable(acts[..|acts| - 1], before);
      RequestInvStep(before, acts[|acts| - 1]);
    }
  }

  // ---------------------------------------------------------------- what the API promises

  /** An entry is added only for a row that is already committed. */
  lemma CommittedBeforeAdded(acts: seq<Action>, s: State, a: Action)
    requires Exec(INIT, acts) == Some(s) && Enabled(s, a) && CallOf(s, a).AddEntry?
    ensures CallOf(s, a).msg.dep in s.store.ids
  {
    hide Exec;
    ImageInvReachable(acts, s);
    assert ReqOk(s.store, s.reqs[a.r]);
  }

  /** Only the cascade takes a row away, and no row is committed without being there. */
  lemma RowsStay(d: Store, c: Call, dep: string)
    requires CallEnabled(d, c) && dep in Perform(d, c).ids && c != CascadeRow(dep)
    requires dep in d.ids ==> dep in d.rows
    ensures dep in Perform(d, c).rows
  {
  }

  lemma OnlyRemovalCascades(s: State, a: Action, dep: string)
    requires Enabled(s, a) && CallOf(s, a) == CascadeRow(dep)
    ensures a == RemoveRow(dep)
  {
  }

  /** A committed row is there until the cascade removes it. */
  lemma {:induction false} CommittedRowsStay(acts: seq<Action>, s: State, dep: string)
    requires Exec(INIT, acts) == Some(s)
    ensures dep in s.store.ids ==> dep in s.store.rows || RemoveRow(dep) in acts
    decreases |acts|
  {
    if acts != [] {
      var before, a := Exec(INIT, acts[..|acts| - 1]).value, acts[|acts| - 1];
      CommittedRowsStay(acts[..|acts| - 1], before, dep);
      assert acts == acts[..|acts| - 1] + [a];
      hide Perform, CallOf, CallEnabled, WorkersAfter, MonsAfter, ReqsAfter;
      if dep in s.store.ids && a != RemoveRow(dep) && RemoveRow(dep) !in acts[..|acts| - 1] {
        if CallOf(before, a) == CascadeRow(dep) { OnlyRemovalCascades(before, a, dep); }
        RowsStay(before.store, CallOf(before, a), dep);
      }
    }
  }

  /** Every stream message names a committed row, with the row's own image, until the
      cascade removes that row. */
  lemma EveryMessageNamesItsRow(acts: seq<Action>, s: State, m: nat)
    requires Exec(INIT, acts) == Some(s) && m < |s.store.stream|
    ensures var msg := s.store.stream[m];
            if msg.dep in s.store.rows then s.store.rows[msg.dep].image == msg.image else RemoveRow(msg.dep) in acts
  {
    ImageInvReachable(acts, s);
    assert MsgOk(s.store, s.store.stream[m]);
    CommittedRowsStay(acts, s, s.store.stream[m].dep);
  }

  /** In every run the message of a request that has committed its row is in the stream
      exactly if the request's phase says so, and there is no other for that deployment. */
  lemma MessageExactlyWhenAdded(acts: seq<Action>, s: State, r: nat)
    requires Exec(INIT, acts) == Some(s) && r in s.reqs && Placed(s.reqs[r])
    ensures ReqMsg(s.reqs[r]) in s.store.stream <==> Added(s.reqs[r].phase)
    ensures forall m | 0 <= m < |s.store.stream| && s.store.stream[m].dep == s.reqs[r].dep ::
              s.store.stream[m] == ReqMsg(s.reqs[r])
  {
    hide Exec;
    RequestInvReachable(acts, s);
    var req := s.reqs[r];
    assert ReqHolds(s, req);
    if Added(req.phase) {
      var n :| 0 <= n < |s.store.stream| && s.store.stream[n] == ReqMsg(req);
      forall m | 0 <= m < |s.store.stream| && s.store.stream[m].dep == req.dep ensures m == n {}
    } else {
      forall m | 0 <= m < |s.store.stream| ensures s.store.stream[m].dep != req.dep {
        assert s.store.stream[m] in s.store.stream;
      }
    }
  }

  /** In every run each entry of the stream is that of one request that has committed its row,
      and has its deployment, repository and image; it is flagged as a rollback exactly if the
      request is one.  A request that was told it was sent knows where. */
  lemma EntryOfRequest(acts: seq<Action>, s: State, at: nat) returns (r: nat)
    requires Exec(INIT, acts) == Some(s) && at < |s.store.stream|
    ensures r in s.reqs && s.reqs[r].phase != Selected && Added(s.reqs[r].phase)
    ensures s.store.stream[at].dep == s.reqs[r].dep && s.store.stream[at].repo == s.reqs[r].repo
    ensures s.store.stream[at].image == s.reqs[r].image
    ensures s.store.stream[at].rollback <==> s.reqs[r].kind == Rollback
    ensures forall q | q in s.reqs && s.reqs[q].phase != Selected && s.reqs[q].dep == s.store.stream[at].dep :: q == r
    ensures forall q | q in s.reqs && s.reqs[q].phase == Ended(Sent(at)) :: q == r
  {
    hide Exec, Untouched;
    RequestInvReachable(acts, s);
    var msg := s.store.stream[at];
    StreamHasIds(acts, s, at);
    r :| OwnerOf(s, msg.dep, r);
    assert ReqHolds(s, s.reqs[r]);
    MessageExactlyWhenAdded(acts, s, r);
    assert msg in s.store.stream;
    forall q | q in s.reqs && s.reqs[q].phase == Ended(Sent(at)) ensures q == r { assert ReqHolds(s, s.reqs[q]); }
  }

  lemma StreamHasIds(acts: seq<Action>, s: State, at: nat)
    requires Exec(INIT, acts) == Some(s) && at < |s.store.stream|
    ensures s.store.stream[at].dep in s.store.ids
  {
    ImageInvReachable(acts, s);
    assert MsgOk(s.store, s.store.stream[at]);
  }

  /** And a request that has been added has such an entry. */
  lemma RequestHasEntry(acts: seq<Action>, s: State, r: nat) returns (at: nat)
    requires Exec(INIT, acts) == Some(s) && r in s.reqs && Added(s.reqs[r].phase)
    ensures at < |s.store.stream| && s.store.stream[at].dep == s.reqs[r].dep
    ensures s.store.stream[at].repo == s.reqs[r].repo && s.store.stream[at].image == s.reqs[r].image
    ensures s.store.stream[at].rollback <==> s.reqs[r].kind == Rollback
    ensures s.reqs[r].phase.Ended? && s.reqs[r].phase.end.Sent? ==> at == s.reqs[r].phase.end.at
  {
    hide Exec, Untouched;
    RequestInvReachable(acts, s);
    assert ReqHolds(s, s.reqs[r]);
    if s.reqs[r].phase.Ended? && s.reqs[r].phase.end.Sent? {
      at := s.reqs[r].phase.end.at;
    } else {
      at :| 0 <= at < |s.store.stream| && s.store.stream[at] == ReqMsg(s.reqs[r]);
    }
  }

  /** The ways in which a row can be without its message: its request is still under way, or
      ended with an XADD that added nothing and no compensation that went through, or ended
      before it came to the XADD. */
  predicate Excused(ph: ReqPhase) {
    ph in {Enqueueing, Repairing(false), Ended(RepairFailed(false)), Ended(Unrepaired(false)),
           Ended(Uncertain), Ended(Crashed(false))}
  }

  lemma RowsHaveIds(acts: seq<Action>, s: State)
    requires Exec(INIT, acts) == Some(s)
    ensures s.store.rows.Keys <= s.store.ids.Keys
  {
    ImageInvReachable(acts, s);
  }

  /**
   In every run each Queued row belongs to one request, and has its message in the stream
   if and only if that request has no excuse.
   */
  lemma QueuedRowHasItsMessage(acts: seq<Action>, s: State, dep: string) returns (r: nat)
    requires Exec(INIT, acts) == Some(s) && dep in s.store.rows && s.store.rows[dep].state == Queued
    ensures OwnerOf(s, dep, r) && forall q | OwnerOf(s, dep, q) :: q == r
    ensures ReqMsg(s.reqs[r]) in s.store.stream <==> !Excused(s.reqs[r].phase)
  {
    hide Exec;
    RequestInvReachable(acts, s);
    RowsHaveIds(acts, s);
    r :| OwnerOf(s, dep, r);
    MessageExactlyWhenAdded(acts, s, r);
    assert ReqHolds(s, s.reqs[r]);
  }

  // ---------------------------------------------------------------- stranded for good

  /** Queued, without a message, and with its request at an end. */
  ghost predicate Stranded(s: State, dep: string) {
    && dep in s.store.rows && s.store.rows[dep].state == Queued && Unsent(s.store, dep)
    && forall r | OwnerOf(s, dep, r) :: s.reqs[r].phase.Ended?
  }

  lemma NotItsRequest(s: State, a: Action, dep: string)
    requires Enabled(s, a) && Stranded(s, dep)
    ensures a.Enqueue? || a.Repair? ==> s.reqs[a.r].dep != dep
  {
    if a.Enqueue? || a.Repair? { assert !OwnerOf(s, dep, a.r); }
  }

  lemma StrandedRow(s: State, a: Action, dep: string, ph: ReqPhase)
    requires Enabled(s, a) && a != RemoveRow(dep) && Stranded(s, dep) && dep in s.store.ids && Untouched(s, dep, ph)
    ensures var e := Perform(s.store, CallOf(s, a));
            dep in e.rows && e.rows[dep].state == Queued && Unsent(e, dep)
  {
    NotItsRequest(s, a, dep);
    WritesElsewhere(s, a, dep);
    if CallOf(s, a) == CascadeRow(dep) { OnlyRemovalCascades(s, a, dep); }
    var c := CallOf(s, a);
    hide Perform, CallOf, OwnerOf, Unsent;
    UnsentKept(s.store, c, dep);
    IdsStay(s.store, c, dep);
    RowsStay(s.store, c, dep);
    StateStays(s.store, c, dep);
  }

  lemma IdsStay(d: Store, c: Call, dep: string)
    requires CallEnabled(d, c) && dep in d.ids
    ensures dep in Perform(d, c).ids
  {
  }

  lemma StrandedStep(s: State, a: Action, dep: string)
    requires ImageInv(s) && RequestInv(s) && Enabled(s, a) && a != RemoveRow(dep) && Stranded(s, dep)
    ensures Stranded(Apply(s, a), dep)
  {
    hide Perform, CallOf, Unsent, StreamInv, JobsInv, MonsInv, SpawnInv, CtrlInv;
    var r :| OwnerOf(s, dep, r);
    assert ReqHolds(s, s.reqs[r]);
    NotAdded(s, dep, r);
    StrandedRow(s, a, dep, s.reqs[r].phase);
    forall q | OwnerOf(Apply(s, a), dep, q) ensures Apply(s, a).reqs[q].phase.Ended? {
      OwnerBefore(s, a, dep, q);
    }
  }

  lemma NotAdded(s: State, dep: string, r: nat)
    requires OwnerOf(s, dep, r) && ReqHolds(s, s.reqs[r]) && Unsent(s.store, dep)
    ensures !Added(s.reqs[r].phase)
  {
    assert ReqMsg(s.reqs[r]).dep == dep && ReqMsg(s.reqs[r]) !in s.store.stream;
  }

  lemma StateStays(d: Store, c: Call, dep: string)
    requires CallEnabled(d, c) && dep in d.rows && dep in d.ids && (c.WriteRow? ==> c.dep != dep)
    requires dep in Perform(d, c).rows
    ensures Perform(d, c).rows[dep] == d.rows[dep]
  {
  }

  /** A committed deployment gets no second owner, and one that has ended stays so. */
  lemma OwnerBefore(s: State, a: Action, dep: string, q: nat)
    requires ReqsInv(s) && Enabled(s, a) && dep in s.store.ids && OwnerOf(Apply(s, a), dep, q)
    ensures OwnerOf(s, dep, q)
    ensures s.reqs[q].phase.Ended? ==> Apply(s, a).reqs[q].phase.Ended?
  {
  }

  /**
   Once stranded, a row stays Queued without a message through every continuation of the
   run, until the cascade removes it.
   */
  lemma {:induction false} StrandedForGood(acts: seq<Action>, s: State, more: seq<Action>, t: State, dep: string)
    requires Exec(INIT, acts) == Some(s) && Stranded(s, dep)
    requires Exec(INIT, acts + more) == Some(t) && RemoveRow(dep) !in more
    ensures Stranded(t, dep)
    decreases |more|
  {
    if more == [] {
      assert acts + more == acts;
    } else {
      var front, last := more[..|more| - 1], more[|more| - 1];
      assert (acts + more)[..|acts + more| - 1] == acts + front;
      var before := Exec(INIT, acts + front).value;
      assert more == front + [last];
      StrandedForGood(acts, s, front, before, dep);
      hide Exec;
      RequestInvReachable(acts + front, before);
      ImageInvReachable(acts + front, before);
      StrandedStep(before, last, dep);
    }
  }

  /** A push through the GitHub App whose XADD raises and adds nothing strands its row, in
      whatever run it happens: there is no compensating update. */
  lemma AppHookStrandsRow(acts: seq<Action>, s: State, r: nat)
    requires Exec(INIT, acts) == Some(s) && r in s.reqs && s.reqs[r].kind == AppHook && s.reqs[r].phase == Enqueueing
    requires s.reqs[r].dep in s.store.rows
    ensures Enabled(s, Enqueue(r, false, false)) && Stranded(Apply(s, Enqueue(r, false, false)), s.reqs[r].dep)
  {
    RequestInvReachable(acts, s);
    assert ReqHolds(s, s.reqs[r]);
    var t := Apply(s, Enqueue(r, false, false));
    forall q | OwnerOf(t, s.reqs[r].dep, q) ensures t.reqs[q].phase.Ended? {
      assert q == r;
    }
  }

  /** So does, on every endpoint, a commit that takes effect and raises. */
  lemma UncertainCommitStrandsRow(acts: seq<Action>, s: State, r: nat, kind: Kind, dep: string, repo: string,
      image: string)
    requires Exec(INIT, acts) == Some(s) && r !in s.reqs && kind != Rollback && dep !in s.store.ids
    ensures Enabled(s, Submit(r, kind, dep, repo, image, false))
    ensures Stranded(Apply(s, Submit(r, kind, dep, repo, image, false)), dep)
  {
    ImageInvReachable(acts, s);
    var a := Submit(r, kind, dep, repo, image, false);
    JustPlaced(s, a);
    assert ReqHolds(Apply(s, a), ReqsAfter(s, a)[r]);
    forall q | q in s.reqs && Placed(s.reqs[q]) ensures s.reqs[q].dep != dep { assert ReqOk(s.store, s.reqs[q]); }
  }

  /** And so does the death of the API process between the commit and the XADD. */
  lemma CrashStrandsRow(acts: seq<Action>, s: State, r: nat)
    requires Exec(INIT, acts) == Some(s) && r in s.reqs && s.reqs[r].phase == Enqueueing
             && s.reqs[r].dep in s.store.rows
    ensures Enabled(s, ApiCrash(r)) && Stranded(Apply(s, ApiCrash(r)), s.reqs[r].dep)
  {
    RequestInvReachable(acts, s);
    assert ReqHolds(s, s.reqs[r]);
    var t := Apply(s, ApiCrash(r));
    forall q | OwnerOf(t, s.reqs[r].dep, q) ensures t.reqs[q].phase.Ended? {
      assert q == r;
    }
  }
}
