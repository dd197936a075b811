/**
 The API's deploy endpoints, statement by statement, as a refinement of `Protocol`: every
 execution, interleaved with anything the other processes do, is a run of the state machine.
 */
module ApiProcess {
  import opened Wrappers
  import opened Protocol
  import opened ProtocolQueue
  import opened ProtocolImages
  import opened ProtocolRequests
  import opened WorkerProcess

  /** Whether an action is one of request `r`, or ends it. */
  predicate OfRequest(r: nat, a: Action) {
    match a
    case Submit(q, _, _, _, _, _) => q == r
    case RollbackSelect(q, _, _) => q == r
    case RollbackInsert(q, _, _) => q == r
    case Enqueue(q, _, _) => q == r
    case Repair(q, _, _) => q == r
    case ApiCrash(q) => q == r
    case _ => false
  }

  /** How a call ends: it returns, or it raises, in effect or not. */
  datatype Reply = Fine | Broken(applied: bool)

  predicate Takes(e: Reply) { e.Fine? || e.applied }

  /** Where request `r` stands; None before its row is selected or committed. */
  function Standing(s: State, r: nat): Option<Req> {
    if r in s.reqs then Some(s.reqs[r]) else None
  }

  /** The deploy endpoints of one API process.  A deployment's project never changes. */
  class Endpoints {
    const sys: System
    const projectOf: string -> string

    constructor (sys: System, projectOf: string -> string)
      ensures this.sys == sys && this.projectOf == projectOf
    {
      this.sys, this.projectOf := sys, projectOf;
    }

    /** Whatever the other processes and requests do before request `r` gets its turn. */
    method OthersRun(r: nat)
      requires sys.Valid()
      modifies sys
      ensures sys.Valid() && old(sys.log) <= sys.log && Standing(sys.s, r) == old(Standing(sys.s, r))
      ensures System.Kept(old(sys.s.store), sys.s.store)
    {
      hide Exec;
      var turns: nat := *;
      while turns > 0
        invariant sys.Valid() && old(sys.log) <= sys.log && Standing(sys.s, r) == old(Standing(sys.s, r))
        invariant System.Kept(old(sys.s.store), sys.s.store)
      {
        var a: Action := *;
        if Enabled(sys.s, a) && !OfRequest(r, a) { sys.Do(a); }
        turns := turns - 1;
      }
    }

    /** XADD: the entry is in the stream exactly if the call takes effect. */
    method AddToStream(r: nat, req: Req, e: Reply) returns (raised: bool)
      requires sys.Valid() && Standing(sys.s, r) == Some(req) && req.phase == Enqueueing
      modifies sys
      ensures sys.Valid() && old(sys.log) <= sys.log && Standing(sys.s, r).Some? && (raised <==> !e.Fine?)
      ensures System.Kept(old(sys.s.store), sys.s.store)
      ensures var now := Standing(sys.s, r).value;
              if e.Fine? then
                exists at: nat | at < |sys.s.store.stream| ::
                  && sys.s.store.stream[at] == Msg(req.dep, req.repo, req.image, req.kind == Rollback)
                  && now == req.(phase := Ended(Sent(at)))
              else
                && now == req.(phase := if req.kind in {Create, Webhook} then Repairing(e.applied)
                                        else Ended(Unrepaired(e.applied)))
                && (e.applied ==> Msg(req.dep, req.repo, req.image, req.kind == Rollback) in sys.s.store.stream)
    {
      hide Exec;
      OthersRun(r);
      ghost var at := |sys.s.store.stream|;
      raised := !e.Fine?;
      sys.Do(Enqueue(r, e.Fine?, Takes(e)));
      if Takes(e) {
        assert sys.s.store.stream[at] == Msg(req.dep, req.repo, req.image, req.kind == Rollback);
      }
    }

    /** The compensating UPDATE; what it raises is swallowed. */
    method Compensate(r: nat, req: Req, e: Reply)
      requires sys.Valid() && Standing(sys.s, r) == Some(req) && req.phase.Repairing?
      modifies sys
      ensures sys.Valid() && old(sys.log) <= sys.log && System.Kept(old(sys.s.store), sys.s.store)
      ensures Standing(sys.s, r) ==
                Some(req.(phase := Ended(if e.Fine? then Repaired(req.phase.added) else RepairFailed(req.phase.added))))
      ensures Takes(e) ==> Wrote(req.dep, Failed, ByApi) in sys.s.store.hist
    {
      hide Exec;
      OthersRun(r);
      sys.Do(Repair(r, e.Fine?, Takes(e)));
      if Takes(e) { assert sys.s.store.hist[|sys.s.store.hist| - 1] == Wrote(req.dep, Failed, ByApi); }
    }

    /**
     `create_deployment` and the two webhooks, given how their commit, their XADD and their
     compensating UPDATE end: commit the row, then add the message, then compensate unless the
     push came through the GitHub App.  They succeed exactly if the row was committed and
     commit and XADD returned; then the message is in the stream.  After a failure the row, if
     there is one and it is still `Queued`, has its message in the stream exactly if the XADD
     added it although it raised; and this needs that the compensation failed, does not exist,
     or was never come to because the commit took effect but raised.
     */
    method Deploy(r: nat, kind: Kind, dep: string, repo: string, image: string,
        commit: Reply, add: Reply, repair: Reply) returns (success: bool)
      requires sys.Valid() && r !in sys.s.reqs && kind != Rollback
      modifies sys
      ensures sys.Valid() && old(sys.log) <= sys.log
      ensures r in sys.s.reqs ==> Takes(commit)
      ensures r !in sys.s.reqs ==> !Takes(commit) || dep in sys.s.store.ids
      ensures success <==> r in sys.s.reqs && commit.Fine? && add.Fine?
      ensures r in sys.s.reqs ==>
                exists end ::
                  sys.s.reqs[r] == Req(kind, dep, repo, image, Ended(end)) && EndOf(kind, commit, add, repair, end)
      ensures success ==>
                && sys.s.reqs[r].phase.end.at < |sys.s.store.stream|
                && sys.s.store.stream[sys.s.reqs[r].phase.end.at] == Msg(dep, repo, image, false)
      ensures r in sys.s.reqs && commit.Fine? && !add.Fine? && kind != AppHook && Takes(repair) ==>
                Wrote(dep, Failed, ByApi) in sys.s.store.hist
      ensures !success && r in sys.s.reqs && dep in sys.s.store.rows && sys.s.store.rows[dep].state == Queued ==>
                var end := sys.s.reqs[r].phase.end;
                && (end.RepairFailed? || end.Unrepaired? || end.Uncertain?)
                && (Msg(dep, repo, image, false) in sys.s.store.stream <==> commit.Fine? && !add.Fine? && add.applied)
    {
      hide Exec;
      success := false;
      OthersRun(r);
      if !Takes(commit) || dep in sys.s.store.ids { return; }
      sys.Do(Submit(r, kind, dep, repo, image, commit.Fine?));
      if commit.Fine? { success := Send(r, Req(kind, dep, repo, image, Enqueueing), add, repair); }
      EndTruthful(sys.log, sys.s, r);
    }

    /** How a request ends. */
    static predicate EndOf(kind: Kind, commit: Reply, add: Reply, repair: Reply, end: End) {
      if !commit.Fine? then end == Uncertain
      else if add.Fine? then end.Sent?
      else if kind in {AppHook, Rollback} then end == Unrepaired(add.applied)
      else end == if repair.Fine? then Repaired(add.applied) else RepairFailed(add.applied)
    }

    /** The second half of an endpoint: XADD, and the compensation where there is one. */
    method Send(r: nat, req: Req, add: Reply, repair: Reply) returns (success: bool)
      requires sys.Valid() && Standing(sys.s, r) == Some(req) && req.phase == Enqueueing && req.kind != Rollback
      modifies sys
      ensures sys.Valid() && old(sys.log) <= sys.log && (success <==> add.Fine?)
      ensures Standing(sys.s, r).Some? && Standing(sys.s, r).value.phase.Ended?
      ensures var end := Standing(sys.s, r).value.phase.end;
              Standing(sys.s, r).value == req.(phase := Ended(end)) && EndOf(req.kind, Fine, add, repair, end)
      ensures !add.Fine? && req.kind != AppHook && Takes(repair) ==>
                Wrote(req.dep, Failed, ByApi) in sys.s.store.hist
    {
      hide Exec;
      var raised := AddToStream(r, req, add);
      if raised && req.kind != AppHook { Compensate(r, sys.s.reqs[r], repair); }
      success := !raised;
    }

    /** The rollback's SELECT; the source takes the latest such row, here it may be any. */
    method SelectRunning(r: nat, project: string, repo: string) returns (found: bool, ghost src: string)
      requires sys.Valid() && r !in sys.s.reqs
      modifies sys
      ensures sys.Valid() && old(sys.log) <= sys.log
      ensures if found then
                && r in sys.s.reqs && sys.s.reqs[r].kind == Rollback && sys.s.reqs[r].phase == Selected
                && sys.s.reqs[r].repo == repo
                && projectOf(src) == project && RollbackSelect(r, src, repo) in sys.log
                && src in sys.s.store.ids && sys.s.reqs[r].image == sys.s.store.ids[src]
              else
                && r !in sys.s.reqs
                && forall d | d in sys.s.store.rows && projectOf(d) == project :: sys.s.store.rows[d].state != Running
    {
      hide Exec;
      OthersRun(r);
      src := "";
      found := exists d | d in sys.s.store.rows :: projectOf(d) == project && sys.s.store.rows[d].state == Running;
      if found {
        var d :| d in sys.s.store.rows && projectOf(d) == project && sys.s.store.rows[d].state == Running;
        src := d;
        RowHasId(sys.log, sys.s, d);
        sys.Do(RollbackSelect(r, d, repo));
        assert RollbackSelect(r, d, repo) == sys.log[|sys.log| - 1];
      }
    }

    /** The rollback's INSERT and commit. */
    method InsertCopy(r: nat, dep: string, commit: Reply, ghost src: string)
      requires sys.Valid() && r in sys.s.reqs && sys.s.reqs[r].kind == Rollback && sys.s.reqs[r].phase == Selected
      requires src in sys.s.store.ids && sys.s.reqs[r].image == sys.s.store.ids[src]
      modifies sys
      ensures sys.Valid() && old(sys.log) <= sys.log && src in sys.s.store.ids
      ensures sys.s.store.ids[src] == old(sys.s.store.ids)[src]
      ensures r in sys.s.reqs ==> Takes(commit)
      ensures r !in sys.s.reqs ==> !Takes(commit) || dep in sys.s.store.ids
      ensures r in sys.s.reqs ==>
                sys.s.reqs[r] == old(sys.s.reqs)[r].(dep := dep,
                                                     phase := if commit.Fine? then Enqueueing else Ended(Uncertain))
    {
      hide Exec;
      OthersRun(r);
      IdsStayInRuns(old(sys.log), old(sys.s), sys.log, sys.s, src);
      if Takes(commit) && dep !in sys.s.store.ids {
        sys.Do(RollbackInsert(r, dep, commit.Fine?));
      } else {
        sys.Do(ApiCrash(r));
      }
    }

    /**
     `rollback_deployment`, given how its commit and its XADD end: copy the image of a Running
     row of the project into a new one, commit, add the message.  It refuses exactly when it
     found no such row.  It reports success exactly if the row was committed and the commit
     returned, whether the XADD returns or raises; so it reports success although the message
     is not in the stream if that raises without effect.  The entry it adds has the new
     deployment and the copied image, and is flagged as a rollback.
     */
    method RollBack(r: nat, project: string, dep: string, repo: string, commit: Reply, add: Reply)
      returns (status: nat, ghost src: string)
      requires sys.Valid() && r !in sys.s.reqs
      modifies sys
      ensures sys.Valid() && old(sys.log) <= sys.log && status in {202, 409, 500}
      ensures status == 409 ==> r !in sys.s.reqs
      ensures status == 409 ==>
                forall d | d in sys.s.store.rows && projectOf(d) == project :: sys.s.store.rows[d].state != Running
      ensures status != 409 ==> projectOf(src) == project && RollbackSelect(r, src, repo) in sys.log
      ensures r in sys.s.reqs ==> Takes(commit)
      ensures status != 409 && r !in sys.s.reqs ==> !Takes(commit) || dep in sys.s.store.ids
      ensures status == 202 <==> r in sys.s.reqs && commit.Fine?
      ensures r in sys.s.reqs ==>
                && src in sys.s.store.ids && Cleared(sys.s.store, sys.s.store.ids[src])
                && exists end :: sys.s.reqs[r] == Req(Rollback, dep, repo, sys.s.store.ids[src], Ended(end))
                                 && EndOf(Rollback, commit, add, add, end)
      ensures r in sys.s.reqs ==>
                (Msg(dep, repo, sys.s.reqs[r].image, true) in sys.s.store.stream <==> commit.Fine? && Takes(add))
    {
      hide Exec, Cleared;
      var found;
      found, src := SelectRunning(r, project, repo);
      if !found { return 409, src; }
      InsertCopy(r, dep, commit, src);
      ghost var log, s := sys.log, sys.s;
      if r in sys.s.reqs && commit.Fine? { var raised := AddToStream(r, sys.s.reqs[r], add); }
      IdsStayInRuns(log, s, sys.log, sys.s, src);
      status := if r in sys.s.reqs && commit.Fine? then 202 else 500;
      ImageInvReachable(sys.log, sys.s);
      assert r in sys.s.reqs ==> ReqOk(sys.s.store, sys.s.reqs[r]);
      if r in sys.s.reqs { EndTruthful(sys.log, sys.s, r); }
      assert RollbackSelect(r, src, repo) in sys.log;
    }
  }

  lemma RowHasId(acts: seq<Action>, s: State, dep: string)
    requires Exec(INIT, acts) == Some(s) && dep in s.store.rows
    ensures dep in s.store.ids && s.store.ids[dep] == s.store.rows[dep].image
  {
    ImageInvReachable(acts, s);
  }

  /** An id keeps its image. */
  lemma {:induction false} IdsStayInRuns(acts: seq<Action>, s: State, more: seq<Action>, t: State, dep: string)
    requires Exec(INIT, acts) == Some(s) && Exec(INIT, more) == Some(t) && acts <= more && dep in s.store.ids
    ensures dep in t.store.ids && t.store.ids[dep] == s.store.ids[dep]
    decreases |more|
  {
    if acts != more {
      var front, a := more[..|more| - 1], more[|more| - 1];
      var u := Exec(INIT, front).value;
      assert acts <= front;
      IdsStayInRuns(acts, s, front, u, dep);
      CallAdds(u.store, CallOf(u, a));
    }
  }

  /** What a request that has ended says of its message and its row. */
  lemma EndTruthful(acts: seq<Action>, s: State, r: nat)
    requires Exec(INIT, acts) == Some(s) && r in s.reqs && Placed(s.reqs[r])
    ensures ReqMsg(s.reqs[r]) in s.store.stream <==> Added(s.reqs[r].phase)
    ensures PhaseOk(s.store, s.reqs[r])
  {
    MessageExactlyWhenAdded(acts, s, r);
    RequestInvReachable(acts, s);
    assert ReqHolds(s, s.reqs[r]);
  }
}
