/**
 Runs in which everything goes well: a build that ends Running, and a rollback of it that is
 deployed without a build.
 */
module ProtocolRuns {
  import opened Wrappers
  import opened Protocol
  import opened ProtocolQueue
  import opened ProtocolBuilds
  import opened ProtocolRepeats
  import ScanGate

  /** A run goes on by one action. */
  lemma Then(acts: seq<Action>, s: State, a: Action) returns (more: seq<Action>, t: State)
    requires Exec(INIT, acts) == Some(s) && Enabled(s, a)
    ensures more == acts + [a] && t == Apply(s, a) && Exec(INIT, more) == Some(t)
  {
    more, t := acts + [a], Apply(s, a);
    assert more[..|more| - 1] == acts;
  }

  /** The rollback's SELECT, and its INSERT. */
  lemma CopyCommitted(acts: seq<Action>, s: State, r: nat, src: string, dep: string, repo: string)
    returns (more: seq<Action>, t: State)
    requires Exec(INIT, acts) == Some(s) && r !in s.reqs && dep !in s.store.ids
    requires src in s.store.rows && s.store.rows[src].state == Running
    ensures Exec(INIT, more) == Some(t)
    ensures var image := s.store.rows[src].image;
            && t.store == s.store.(rows := s.store.rows[dep := Row(image, Queued)], ids := s.store.ids[dep := image])
            && r in t.reqs && t.reqs[r] == Req(Rollback, dep, repo, image, Enqueueing)
    ensures t.workers == s.workers
  {
    hide Exec, PhaseNext, MonNext, PhaseCall, MonCall;
    more, t := Then(acts, s, RollbackSelect(r, src, repo));
    more, t := Then(more, t, RollbackInsert(r, dep, true));
  }

  /** Its XADD, and the delivery of the entry to an idle worker that has all others. */
  lemma CopyDelivered(acts: seq<Action>, s: State, r: nat, w: string) returns (more: seq<Action>, t: State)
    requires Exec(INIT, acts) == Some(s) && r in s.reqs && s.reqs[r].kind == Rollback && s.reqs[r].phase == Enqueueing
    requires w in s.workers && s.workers[w] == Worker([], Idle) && s.store.delivered == |s.store.stream|
    ensures Exec(INIT, more) == Some(t) && t.store.rows == s.store.rows && t.store.hist == s.store.hist
    ensures t.store.stream == s.store.stream + [Msg(s.reqs[r].dep, s.reqs[r].repo, s.reqs[r].image, true)]
    ensures w in t.workers && t.workers[w] == Worker([], Check(|s.store.stream|))
  {
    hide Exec, PhaseNext, MonNext, PhaseCall, MonCall;
    more, t := Then(acts, s, Enqueue(r, true, true));
    more, t := Then(more, t, Deliver(w, 1, false));
    assert t.workers[w].batch == [|s.store.stream|];
    assert t.store.stream == s.store.stream + [Msg(s.reqs[r].dep, s.reqs[r].repo, s.reqs[r].image, true)];
    more, t := Then(more, t, Begin(w));
  }

  /** The worker writes Deploying without a build. */
  lemma CopyDeployed(acts: seq<Action>, s: State, w: string, m: nat) returns (more: seq<Action>, t: State)
    requires Exec(INIT, acts) == Some(s) && w in s.workers && s.workers[w] == Worker([], Check(m))
    requires m < |s.store.stream| && s.store.stream[m].rollback
    requires s.store.stream[m].dep != "" && s.store.stream[m].repo != "" && s.store.stream[m].image != ""
    requires s.store.stream[m].dep in s.store.rows && s.store.rows[s.store.stream[m].dep].state == Queued
    ensures Exec(INIT, more) == Some(t)
    ensures var dep := s.store.stream[m].dep;
            && t.store.rows == s.store.rows[dep := s.store.rows[dep].(state := Deploying)]
            && t.store.hist == s.store.hist + [GuardRead(m, Queued), Wrote(dep, Deploying, ByRollback(m))]
            && t.store.jobs == s.store.jobs && t.store.stream == s.store.stream
  {
    hide Exec, MonNext, MonCall, ReqsAfter;
    more, t := Then(acts, s, Step(w, true, true));
    more, t := Then(more, t, Step(w, true, true));
    more, t := Then(more, t, Step(w, true, true));
  }

  /**
   From every state of every run in which some row is Running and an idle worker has all
   messages, a rollback of that row can reach Deploying, with its image and without a Job.
   */
  lemma RollbackCanDeploy(acts: seq<Action>, s: State, r: nat, src: string, dep: string, repo: string, w: string)
    returns (more: seq<Action>, t: State)
    requires Exec(INIT, acts) == Some(s) && r !in s.reqs && dep !in s.store.ids
    requires src in s.store.rows && s.store.rows[src].state == Running
    requires dep != "" && repo != "" && s.store.rows[src].image != ""
    requires w in s.workers && s.workers[w] == Worker([], Idle) && s.store.delivered == |s.store.stream|
    ensures Exec(INIT, more) == Some(t)
    ensures t.store.rows == s.store.rows[dep := Row(s.store.rows[src].image, Deploying)]
    ensures t.store.stream == s.store.stream + [Msg(dep, repo, s.store.rows[src].image, true)]
    ensures t.store.hist ==
              s.store.hist + [GuardRead(|s.store.stream|, Queued), Wrote(dep, Deploying, ByRollback(|s.store.stream|))]
  {
    hide Exec;
    more, t := CopyCommitted(acts, s, r, src, dep, repo);
    more, t := CopyDelivered(more, t, r, w);
    more, t := CopyDeployed(more, t, w, |s.store.stream|);
  }

  /** The controller's next tick promotes a row that is Deploying. */
  lemma Promoted(acts: seq<Action>, s: State, dep: string) returns (more: seq<Action>, t: State)
    requires Exec(INIT, acts) == Some(s) && dep in s.store.rows && s.store.rows[dep].state == Deploying
    ensures Exec(INIT, more) == Some(t) && t.workers == s.workers && t.reqs == s.reqs
    ensures t.store == s.store.(rows := s.store.rows[dep := s.store.rows[dep].(state := Running)],
                                hist := s.store.hist + [Wrote(dep, Running, ByController)])
  {
    hide Exec, PhaseNext, MonNext, PhaseCall, MonCall;
    more, t := Then(acts, s, CtrlRead({dep}));
    more, t := Then(more, t, CtrlPromote(dep));
  }

  lemma FreshRequest(reqs: map<nat, Req>) returns (r: nat)
    ensures r !in reqs
  {
    r := Above(reqs.Keys);
  }

  lemma {:induction false} Above(ks: set<nat>) returns (r: nat)
    ensures forall k | k in ks :: k < r
    decreases |ks|
  {
    if ks == {} { return 0; }
    var k :| k in ks;
    r := Above(ks - {k});
    r := if k < r then r else k + 1;
    assert forall j | j in ks :: j == k || j in ks - {k};
  }

  /** Built, let through by the gate, deployed, and promoted. */
  lemma BuildRuns(msg: Msg, a: string, b: string) returns (acts: seq<Action>, s: State)
    requires Plain(msg) && a != b
    ensures Exec(INIT, acts) == Some(s)
    ensures msg.dep in s.store.rows && s.store.rows[msg.dep] == Row(msg.image, Running)
    ensures s.store.stream == [msg] && s.store.delivered == 1 && s.store.ids.Keys == {msg.dep}
    ensures b in s.workers && s.workers[b] == Worker([], Idle)
    ensures s.store.hist == [GuardRead(0, Queued), JobCreated(0, msg.dep, msg.image),
                             Wrote(msg.dep, Building, ByMonitor), JobSucceeded(msg.image), GatePassed(msg.image),
                             Wrote(msg.dep, Deploying, ByMonitor), Wrote(msg.dep, Running, ByController)]
  {
    hide Trace, Shows, Exec;
    acts, s := Prologue(NoSlip, msg, a, b);
    acts, s := ABuilds(NoSlip, acts, s, msg, a, b, IDLE);
    var v1 := Started(msg, IDLE);
    var v2 := v1.(wa := Some(IDLE), x := v1.x.(pending := false));
    acts, s := Go(NoSlip, acts, s, msg, a, b, v1, A, v2);
    acts, s := Succeeds(NoSlip, acts, s, msg, a, b, v2);
    BuildShows(acts, s, msg, a, b, Concluded(v2, msg));
    acts, s := Promoted(acts, s, msg.dep);
  }

  lemma BuildShows(acts: seq<Action>, s: State, msg: Msg, a: string, b: string, v: View)
    requires Trace(NoSlip, acts, s) && Shows(s, msg, a, b, v) && v.x.row.Some? && v.wb == IDLE
    ensures Exec(INIT, acts) == Some(s)
    ensures msg.dep in s.store.rows && s.store.rows[msg.dep] == Row(msg.image, v.x.row.value)
    ensures s.store.stream == [msg] && s.store.delivered == 1 && s.store.ids.Keys == {msg.dep}
    ensures b in s.workers && s.workers[b] == Worker([], Idle) && s.store.hist == v.x.h
  {
    TraceIsOrderly(acts, s);
  }

  /**
   The whole life: for every message and every other id there is a run in which the message
   is built, let through, deployed and Running, and then a rollback deploys its image under
   the other id, with one Job in all, and is Running too.
   */
  lemma BuildsAndRollsBack(msg: Msg, copy: string, a: string, b: string) returns (acts: seq<Action>, s: State)
    requires Plain(msg) && copy != "" && copy != msg.dep && a != b
    ensures Exec(INIT, acts) == Some(s)
    ensures msg.dep in s.store.rows && s.store.rows[msg.dep] == Row(msg.image, Running)
    ensures copy in s.store.rows && s.store.rows[copy] == Row(msg.image, Running)
    ensures s.store.stream == [msg, Msg(copy, msg.repo, msg.image, true)]
    ensures s.store.hist == [GuardRead(0, Queued), JobCreated(0, msg.dep, msg.image),
                             Wrote(msg.dep, Building, ByMonitor), JobSucceeded(msg.image), GatePassed(msg.image),
                             Wrote(msg.dep, Deploying, ByMonitor), Wrote(msg.dep, Running, ByController),
                             GuardRead(1, Queued), Wrote(copy, Deploying, ByRollback(1)),
                             Wrote(copy, Running, ByController)]
  {
    hide Exec;
    acts, s := BuildRuns(msg, a, b);
    var r := FreshRequest(s.reqs);
    acts, s := RollbackCanDeploy(acts, s, r, msg.dep, copy, msg.repo, b);
    acts, s := Promoted(acts, s, copy);
  }

  // ---------------------------------------------------------------- how a build ends

  /** State `u` finds the monitor where its own step left it, whatever others did meanwhile. */
  predicate Resumes(s: State, a: Action, i: nat, u: State)
    requires Enabled(s, a)
  {
    i in MonsAfter(s, a) && i in u.mons && u.mons[i] == MonsAfter(s, a)[i]
  }

  /** The monitor's UPDATE to `st` returns, and then it deletes its Job and ends. */
  ghost predicate Concludes(u: State, v: State, i: nat, dep: string, st: RowState) {
    var a := MonStep(i, true, true);
    && Enabled(u, a) && Apply(u, a).store.hist == u.store.hist + [Wrote(dep, st, ByMonitor)]
    && (dep in u.store.rows ==> Apply(u, a).store.rows == u.store.rows[dep := Row(u.store.rows[dep].image, st)])
    && (Resumes(u, a, i, v) ==>
          Enabled(v, a) && JobKey(dep) !in Apply(v, a).store.jobs && i !in Apply(v, a).mons)
  }

  /** A monitor that reads its Job as failed writes Failed next, whatever comes in between, and
      then deletes the Job. */
  lemma BrokenBuildFails(s: State, i: nat, u: State, v: State)
    requires i in s.mons && s.mons[i].phase == AwaitJob && Enabled(s, MonStep(i, true, true))
    requires JobKey(s.mons[i].dep) in s.store.jobs && s.store.jobs[JobKey(s.mons[i].dep)].status == Broken
    requires Resumes(s, MonStep(i, true, true), i, u)
    ensures Concludes(u, v, i, s.mons[i].dep, Failed)
  {
    hide PhaseNext, PhaseCall, ReqsAfter, CtrlAfter, WorkersAfter;
  }

  /** One that reads it as succeeded goes through the gate, and writes Deploying exactly if no
      exception and no severe finding was the first of twelve answers to settle the scan, and
      Failed otherwise. */
  lemma SucceededBuildConcludes(s: State, i: nat, g: State, answers: seq<ScanGate.Answer>, u: State, v: State)
    requires i in s.mons && s.mons[i].phase == AwaitJob && Enabled(s, MonStep(i, true, true))
    requires JobKey(s.mons[i].dep) in s.store.jobs && s.store.jobs[JobKey(s.mons[i].dep)].status == Succeeded
    requires Resumes(s, MonStep(i, true, true), i, g) && |answers| >= 12
    ensures Enabled(g, MonGate(i, answers))
    ensures var stopped := exists k | 0 <= k < 12 ::
                             && (answers[k].Raises? || (answers[k].Complete? && answers[k].severe > 0))
                             && forall j | 0 <= j < k :: answers[j] in {ScanGate.InProgress, ScanGate.Pending};
            && Apply(g, MonGate(i, answers)).store.hist ==
                 g.store.hist + (if stopped then [] else [GatePassed(s.mons[i].image)])
            && (Resumes(g, MonGate(i, answers), i, u) ==>
                  Concludes(u, v, i, s.mons[i].dep, if stopped then Failed else Deploying))
  {
    hide PhaseNext, PhaseCall, ReqsAfter, CtrlAfter, WorkersAfter, Concludes;
    assert ScanGate.Blocked(answers) <==> exists k | 0 <= k < 12 ::
             && (answers[k].Raises? || (answers[k].Complete? && answers[k].severe > 0))
             && forall j | 0 <= j < k :: answers[j] in {ScanGate.InProgress, ScanGate.Pending};
    hide ScanGate.Blocked;
    if Resumes(g, MonGate(i, answers), i, u) { LastWriteConcludes(u, v, i); }
  }

  lemma LastWriteConcludes(u: State, v: State, i: nat)
    requires i in u.mons && u.mons[i].phase in {FailInner, WriteDeploying}
    ensures Concludes(u, v, i, u.mons[i].dep, if u.mons[i].phase == FailInner then Failed else Deploying)
  {
    hide PhaseNext, PhaseCall, ReqsAfter, CtrlAfter, WorkersAfter;
  }
}
