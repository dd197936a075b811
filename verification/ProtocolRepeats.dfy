/**
 Four runs that build a deployment twice with no Failed in between, although no message is
 ever handled by two workers at once.  Each departs from `ProtocolBuilds.Orderly` in one of
 its four circumstances only, so none of them can be spared; in the first no call fails.
 A fifth is orderly and builds it twice with Failed in between.
 */
module ProtocolRepeats {
  import opened Wrappers
  import opened Protocol
  import opened ProtocolQueue
  import opened ProtocolBuilds
  import ScanGate

  /** The circumstance a run departs from: a sweep takes over what a live worker has in hand;
      a handler's, or a monitor's, last write of Failed is lost; a row is removed; or none. */
  datatype Slip = NoSlip | StaleClaim | HandlerLoss | MonitorLoss | RowRemoval

  predicate NoFault(a: Action) {
    && (a.Step? || a.MonStep? || a.Enqueue? || a.Submit? ==> a.ok)
    && !a.RemoveRow? && !a.Crash? && !a.ApiCrash?
  }

  ghost predicate Allowed(slip: Slip, s: State, a: Action) {
    match slip
    case NoSlip => Orderly(s, a)
    case StaleClaim => NoFault(a) && (a.Claim? || Orderly(s, a))
    case HandlerLoss => Orderly(s, a) || (a.Step? && a.w in s.workers && s.workers[a.w].phase.FailWrite?)
    case MonitorLoss => Orderly(s, a) || (a.MonStep? && a.i in s.mons && s.mons[a.i].phase == FailOuter)
    case RowRemoval => Orderly(s, a) || a.RemoveRow?
  }

  /** No two workers are in the middle of the same message. */
  ghost predicate HandledOnce(s: State) {
    forall v, w | v in s.workers && w in s.workers && v != w ::
      s.workers[v].phase != Idle && s.workers[w].phase != Idle ==> s.workers[v].phase.m != s.workers[w].phase.m
  }

  /** A run of that kind in which no message is handled by two workers at once. */
  ghost predicate Trace(slip: Slip, acts: seq<Action>, s: State)
    decreases |acts|
  {
    && Exec(INIT, acts) == Some(s) && HandledOnce(s)
    && (acts == [] || (
          var before := Exec(INIT, acts[..|acts| - 1]).value;
          Allowed(slip, before, acts[|acts| - 1]) && Trace(slip, acts[..|acts| - 1], before)))
  }

  lemma Extend(slip: Slip, acts: seq<Action>, s: State, a: Action) returns (more: seq<Action>, t: State)
    requires Trace(slip, acts, s) && Enabled(s, a) && Allowed(slip, s, a) && HandledOnce(Apply(s, a))
    ensures more == acts + [a] && t == Apply(s, a) && Trace(slip, more, t)
  {
    more, t := acts + [a], Apply(s, a);
    assert more[..|more| - 1] == acts;
  }

  /** Two build Jobs were created for a deployment. */
  predicate BuiltAgain(h: seq<Event>, dep: string) {
    exists i, j | 0 <= i < j < |h| :: h[i].JobCreated? && h[j].JobCreated? && h[i].dep == dep && h[j].dep == dep
  }

  predicate NeverFailed(h: seq<Event>) { forall e | e in h && e.Wrote? :: e.state != Failed }

  /** A deployment was built twice and its row was never set to Failed. */
  predicate BuiltTwice(h: seq<Event>, dep: string) { BuiltAgain(h, dep) && NeverFailed(h) }

  predicate Plain(msg: Msg) { !msg.rollback && msg.dep != "" && msg.repo != "" && msg.image != "" }

  // ---------------------------------------------------------------- what the runs look at

  /** One message's row, its Job, the history, and whether the message is pending. */
  datatype Seen = Seen(row: Option<RowState>, job: Option<JobStatus>, h: seq<Event>, pending: bool)

  ghost predicate ShowsStore(d: Store, msg: Msg, x: Seen) {
    && d.stream == [msg] && d.delivered == 1 && d.ids.Keys == {msg.dep}
    && d.hist == x.h && (0 in d.pending <==> x.pending)
    && (if x.row.Some? then msg.dep in d.rows && d.rows[msg.dep] == Row(msg.image, x.row.value) else msg.dep !in d.rows)
    && JobOf(d, msg.dep) == (if x.job.Some? then Some(Job(msg.dep, msg.image, x.job.value)) else None)
  }

  /** What a call for this message makes of it. */
  function SeenAfter(x: Seen, c: Call, msg: Msg): Seen {
    match c
    case ReadRow(m, _) => if x.row.Some? then x.(h := x.h + [GuardRead(m, x.row.value)]) else x
    case WriteRow(dep, st, writer) =>
      x.(row := if x.row.Some? then Some(st) else None, h := x.h + [Wrote(dep, st, writer)])
    case CascadeRow(_) => x.(row := None)
    case AckEntry(_) => x.(pending := false)
    case MakeJob(m, dep, image) => x.(job := Some(Active), h := x.h + [JobCreated(m, dep, image)])
    case EndJob(_, _) => x.(job := Some(Succeeded), h := x.h + [JobSucceeded(msg.image)])
    case DeleteJob(_) => x.(job := None)
    case NotePass(image) => x.(h := x.h + [GatePassed(image)])
    case _ => x
  }

  predicate Concerns(c: Call, msg: Msg) {
    match c
    case ReadRow(m, dep) => m == 0 && dep == msg.dep
    case WriteRow(dep, _, _) => dep == msg.dep
    case CascadeRow(dep) => dep == msg.dep
    case AckEntry(m) => m == 0
    case MakeJob(m, dep, image) => m == 0 && dep == msg.dep && image == msg.image
    case EndJob(key, success) => key == JobKey(msg.dep) && success
    case DeleteJob(dep) => dep == msg.dep
    case NotePass(image) => image == msg.image
    case TakeOver(_, ms) => ms == [0]
    case CopyToDlq(copy) => copy == msg
    case NoCall => true
    case _ => false
  }

  lemma CallShows(d: Store, c: Call, msg: Msg, x: Seen)
    requires ShowsStore(d, msg, x) && CallEnabled(d, c) && Concerns(c, msg) && (c.TakeOver? ==> x.pending)
    ensures ShowsStore(Perform(d, c), msg, SeenAfter(x, c, msg))
  {
  }

  datatype MonView = NotYet | At(phase: MonPhase) | Gone

  /** Two workers, the first of which may be dead, and the monitor that the first one starts. */
  datatype View = View(x: Seen, wa: Option<Worker>, wb: Worker, mon: MonView)

  ghost predicate Shows(s: State, msg: Msg, a: string, b: string, v: View) {
    && ShowsStore(s.store, msg, v.x)
    && a != b && s.workers.Keys == (if v.wa.Some? then {a, b} else {b})
    && (v.wa.Some? ==> s.workers[a] == v.wa.value) && s.workers[b] == v.wb
    && match v.mon
       case NotYet => s.nextMon == 0
       case At(ph) => 0 in s.mons && s.mons[0] == Mon(a, msg.dep, msg.image, ph)
       case Gone => true
  }

  // ---------------------------------------------------------------- moves

  /** A step of worker a or b or of the monitor that goes well or is lost; the Job's success;
      b's sweep; the death of a; the removal of the row. */
  datatype Move = A | ALost | B | M | MLost | JobDone | Sweep | Death | Removal

  function Clean(n: nat): (r: seq<ScanGate.Answer>)
    ensures |r| == n && forall i | 0 <= i < n :: r[i] == ScanGate.Complete(0)
  {
    if n == 0 then [] else Clean(n - 1) + [ScanGate.Complete(0)]
  }

  /** The answers of a scan that finds nothing. */
  const PASSING := Clean(ScanGate.LOOKS)

  function ActionOf(v: View, mv: Move, msg: Msg, a: string, b: string): Action {
    match mv
    case A => if v.wa.Some? && v.wa.value.phase == Idle then Begin(a) else Step(a, true, true)
    case ALost => Step(a, false, false)
    case B => if v.wb.phase == Idle then Begin(b) else Step(b, true, true)
    case M => if v.mon == At(Gate) then MonGate(0, PASSING) else MonStep(0, true, true)
    case MLost => MonStep(0, false, false)
    case JobDone => JobEnd(JobKey(msg.dep), true)
    case Sweep => Claim(b, [0], false)
    case Death => Crash(a)
    case Removal => RemoveRow(msg.dep)
  }

  predicate Ready(wk: Worker) { if wk.phase == Idle then wk.batch == [0] else wk.phase.m == 0 && wk.batch == [] }

  predicate Can(v: View, mv: Move) {
    match mv
    case A =>
      && v.wa.Some? && Ready(v.wa.value)
      && (v.wa.value.phase.Build? ==> v.x.job.None?) && (v.wa.value.phase.Spawn? ==> v.mon == NotYet)
    case ALost => v.wa.Some? && Ready(v.wa.value) && v.wa.value.phase != Idle
    case B => Ready(v.wb) && (v.wb.phase.Build? ==> v.x.job.None?) && !v.wb.phase.Spawn?
    case M => v.mon.At?
    case MLost => v.mon.At? && v.mon.phase != Cleanup
    case JobDone => v.x.job == Some(Active)
    case Sweep => v.x.pending && v.wb == IDLE
    case Death => v.wa.Some?
    case Removal => v.x.row.Some?
  }

  const IDLE := Worker([], Idle)
  const HOLDS := Worker([0], Idle)

  function WorkerAfter(wk: Worker, msg: Msg, busy: bool, ok: bool): Worker
    requires Ready(wk)
  {
    if wk.phase == Idle then Worker([], Check(0))
    else
      var next := PhaseNext(wk.phase, msg, busy, ok);
      if next.Some? then Worker([], next.value) else IDLE
  }

  function MonAfter(mon: MonView, job: Option<Job>, ok: bool): MonView
    requires mon.At?
  {
    if mon.phase == Gate && ok then At(WriteDeploying)
    else
      var next := MonNext(mon.phase, job, ok);
      if next.Some? then At(next.value) else Gone
  }

  /** The call behind each move. */
  function CallAt(v: View, mv: Move, msg: Msg, b: string): Call
    requires Can(v, mv)
  {
    match mv
    case A => PhaseCall(v.wa.value.phase, msg)
    case B => PhaseCall(v.wb.phase, msg)
    case M =>
      if v.mon == At(Gate) then NotePass(msg.image) else MonCall(Mon("", msg.dep, msg.image, v.mon.phase))
    case JobDone => EndJob(JobKey(msg.dep), true)
    case Sweep => TakeOver(b, [0])
    case Removal => CascadeRow(msg.dep)
    case ALost | MLost | Death => NoCall
  }

  function After(v: View, mv: Move, msg: Msg): View
    requires Can(v, mv)
  {
    var busy := v.x.row.Some? && InFlight(v.x.row.value);
    var job := if v.x.job.Some? then Some(Job(msg.dep, msg.image, v.x.job.value)) else None;
    var u := v.(x := SeenAfter(v.x, CallAt(v, mv, msg, ""), msg));
    match mv
    case A =>
      u.(wa := Some(WorkerAfter(v.wa.value, msg, busy, true)),
         mon := if v.wa.value.phase.Spawn? then At(AwaitPod) else v.mon)
    case ALost => u.(wa := Some(WorkerAfter(v.wa.value, msg, busy, false)))
    case B => u.(wb := WorkerAfter(v.wb, msg, busy, true))
    case M => u.(mon := MonAfter(v.mon, job, true))
    case MLost => u.(mon := MonAfter(v.mon, job, false))
    case Sweep => u.(wb := HOLDS)
    case Death => u.(wa := None, mon := Gone)
    case JobDone | Removal => u
  }

  predicate Handled(v: View) {
    v.wa.Some? && v.wa.value.phase != Idle && v.wb.phase != Idle ==> v.wa.value.phase.m != v.wb.phase.m
  }

  predicate Permitted(slip: Slip, v: View, mv: Move) {
    && (slip == StaleClaim ==> mv in {A, B, M, JobDone, Sweep})
    && match mv
       case ALost => Can(v, mv) && (v.wa.value.phase.FailWrite? ==> slip == HandlerLoss)
       case MLost => Can(v, mv) && (v.mon.phase == FailOuter ==> slip == MonitorLoss)
       case Sweep => slip == StaleClaim || v.wa.None? || v.wa.value == IDLE
       case Removal => slip == RowRemoval
       case _ => true
  }

  // ---------------------------------------------------------------- the moves are the protocol's

  lemma Passes()
    ensures |PASSING| == ScanGate.LOOKS && !ScanGate.Blocked(PASSING)
  {
  }

  lemma MoveCall(s: State, msg: Msg, a: string, b: string, v: View, mv: Move)
    requires Shows(s, msg, a, b, v) && Can(v, mv)
    ensures CallOf(s, ActionOf(v, mv, msg, a, b)) == CallAt(v, mv, msg, b)
  {
    Passes();
  }

  lemma CallFits(d: Store, msg: Msg, b: string, v: View, mv: Move)
    requires ShowsStore(d, msg, v.x) && Can(v, mv)
    ensures var c := CallAt(v, mv, msg, b);
            Concerns(c, msg) && CallEnabled(d, c) && After(v, mv, msg).x == SeenAfter(v.x, c, msg)
  {
    match mv
    case A => PhaseConcerns(v.wa.value, msg);
    case B => PhaseConcerns(v.wb, msg);
    case _ =>
  }

  lemma MoveShowsStore(s: State, msg: Msg, a: string, b: string, v: View, mv: Move)
    requires Shows(s, msg, a, b, v) && Can(v, mv)
    ensures var act := ActionOf(v, mv, msg, a, b);
            && CallEnabled(s.store, CallOf(s, act))
            && ShowsStore(Perform(s.store, CallOf(s, act)), msg, After(v, mv, msg).x)
  {
    MoveCall(s, msg, a, b, v, mv);
    hide CallOf, ActionOf, Perform, ShowsStore, After, SeenAfter, Concerns, CallEnabled;
    CallFits(s.store, msg, b, v, mv);
    CallShows(s.store, CallAt(v, mv, msg, b), msg, v.x);
  }

  lemma PhaseConcerns(wk: Worker, msg: Msg)
    requires Ready(wk)
    ensures Concerns(PhaseCall(wk.phase, msg), msg)
  {
  }

  /** The action of each move is enabled. */
  lemma MoveEnabled(s: State, msg: Msg, a: string, b: string, v: View, mv: Move)
    requires Shows(s, msg, a, b, v) && Can(v, mv)
    ensures Enabled(s, ActionOf(v, mv, msg, a, b))
  {
    hide Perform, SeenAfter;
    Passes();
    MoveShowsStore(s, msg, a, b, v, mv);
  }

  lemma MoveShowsWorkers(s: State, msg: Msg, a: string, b: string, v: View, mv: Move)
    requires Shows(s, msg, a, b, v) && Can(v, mv) && Enabled(s, ActionOf(v, mv, msg, a, b))
    ensures var ws, v' := WorkersAfter(s, ActionOf(v, mv, msg, a, b)), After(v, mv, msg);
            && ws.Keys == (if v'.wa.Some? then {a, b} else {b})
            && (v'.wa.Some? ==> ws[a] == v'.wa.value) && ws[b] == v'.wb
  {
    hide SeenAfter, CallEnabled, MonAfter;
    match mv
    case A => assert [0][1..] == [];
    case B => assert [0][1..] == [];
    case Sweep => assert IDLE.batch + [0] == [0];
    case _ =>
  }

  lemma MoveShowsMonitor(s: State, msg: Msg, a: string, b: string, v: View, mv: Move)
    requires Shows(s, msg, a, b, v) && Can(v, mv) && Enabled(s, ActionOf(v, mv, msg, a, b))
    ensures var mons, v' := MonsAfter(s, ActionOf(v, mv, msg, a, b)), After(v, mv, msg);
            match v'.mon
            case NotYet => !Spawns(s, ActionOf(v, mv, msg, a, b)) && v.mon == NotYet
            case At(ph) => 0 in mons && mons[0] == Mon(a, msg.dep, msg.image, ph)
            case Gone => true
  {
    hide SeenAfter, CallEnabled, WorkerAfter;
    Passes();
  }

  /** So the view after a move is a view of the state after its action. */
  lemma MoveShows(s: State, msg: Msg, a: string, b: string, v: View, mv: Move)
    requires Shows(s, msg, a, b, v) && Can(v, mv)
    ensures Enabled(s, ActionOf(v, mv, msg, a, b))
    ensures Shows(Apply(s, ActionOf(v, mv, msg, a, b)), msg, a, b, After(v, mv, msg))
  {
    MoveEnabled(s, msg, a, b, v, mv);
    MoveShowsStore(s, msg, a, b, v, mv);
    MoveShowsWorkers(s, msg, a, b, v, mv);
    MoveShowsMonitor(s, msg, a, b, v, mv);
    hide Perform, CallOf, WorkersAfter, MonsAfter, After, ActionOf, ShowsStore, Can;
  }

  lemma MoveAllowed(slip: Slip, s: State, msg: Msg, a: string, b: string, v: View, mv: Move)
    requires Shows(s, msg, a, b, v) && Can(v, mv) && Permitted(slip, v, mv)
    ensures Allowed(slip, s, ActionOf(v, mv, msg, a, b))
  {
  }

  lemma HandledShows(s: State, msg: Msg, a: string, b: string, v: View)
    requires Shows(s, msg, a, b, v) && Handled(v)
    ensures HandledOnce(s)
  {
  }

  /** One move of a run. */
  lemma Go(slip: Slip, acts: seq<Action>, s: State, msg: Msg, a: string, b: string, v: View, mv: Move, v': View)
    returns (more: seq<Action>, t: State)
    requires Trace(slip, acts, s) && Shows(s, msg, a, b, v)
    requires Can(v, mv) && Permitted(slip, v, mv) && v' == After(v, mv, msg) && Handled(v')
    ensures Trace(slip, more, t) && Shows(t, msg, a, b, v')
  {
    hide Trace, Exec, Shows, Can, Permitted, Allowed, HandledOnce, Handled, ActionOf, After, Enabled;
    MoveShows(s, msg, a, b, v, mv);
    MoveAllowed(slip, s, msg, a, b, v, mv);
    var act := ActionOf(v, mv, msg, a, b);
    HandledShows(Apply(s, act), msg, a, b, v');
    more, t := Extend(slip, acts, s, act);
  }

  // ---------------------------------------------------------------- the common parts of the runs

  /** The message is committed, sent and delivered to `a`. */
  function Delivered(wb: Worker): View {
    View(Seen(Some(Queued), None, [], true), Some(HOLDS), wb, NotYet)
  }

  function Read(): Event { GuardRead(0, Queued) }

  function Made(msg: Msg): Event { JobCreated(0, msg.dep, msg.image) }

  lemma TraceBegins(slip: Slip)
    ensures Trace(slip, [], INIT)
  {
  }

  lemma SubmitFirst(slip: Slip, msg: Msg)
    ensures var a := Submit(0, Create, msg.dep, msg.repo, msg.image, true);
            Enabled(INIT, a) && Allowed(slip, INIT, a) && HandledOnce(Apply(INIT, a))
  {
  }

  lemma IsCommitted(slip: Slip, msg: Msg) returns (acts: seq<Action>, s: State)
    ensures Trace(slip, acts, s) && s.workers == map[] && s.nextMon == 0
    ensures s.reqs == map[0 := Req(Create, msg.dep, msg.repo, msg.image, Enqueueing)]
    ensures s.store == EMPTY_STORE.(rows := map[msg.dep := Row(msg.image, Queued)], ids := map[msg.dep := msg.image])
  {
    TraceBegins(slip);
    SubmitFirst(slip, msg);
    hide Trace, Exec, Allowed, HandledOnce, CallEnabled, WorkersAfter, MonsAfter;
    acts, s := Extend(slip, [], INIT, Submit(0, Create, msg.dep, msg.repo, msg.image, true));
    SubmitLeaves(msg);
  }

  lemma SubmitLeaves(msg: Msg)
    ensures var a := Submit(0, Create, msg.dep, msg.repo, msg.image, true);
            Enabled(INIT, a) && Apply(INIT, a).workers == map[] && Apply(INIT, a).nextMon == 0
  {
  }

  lemma IsSent(slip: Slip, acts: seq<Action>, s: State, msg: Msg) returns (more: seq<Action>, t: State)
    requires Trace(slip, acts, s) && s.workers == map[] && s.nextMon == 0 && !msg.rollback
    requires s.reqs == map[0 := Req(Create, msg.dep, msg.repo, msg.image, Enqueueing)]
    requires s.store == EMPTY_STORE.(rows := map[msg.dep := Row(msg.image, Queued)], ids := map[msg.dep := msg.image])
    ensures Trace(slip, more, t) && t.workers == map[] && t.nextMon == 0
    ensures t.store == EMPTY_STORE.(rows := map[msg.dep := Row(msg.image, Queued)], ids := map[msg.dep := msg.image],
                                    stream := [msg])
  {
    hide Trace, Exec;
    more, t := Extend(slip, acts, s, Enqueue(0, true, true));
  }

  lemma WorkersStart(slip: Slip, acts: seq<Action>, s: State, a: string, b: string)
    returns (more: seq<Action>, t: State)
    requires Trace(slip, acts, s) && a != b && s.workers == map[]
    ensures Trace(slip, more, t) && t.store == s.store && t.nextMon == s.nextMon
            && t.workers == map[a := IDLE, b := IDLE]
  {
    hide Trace, Exec;
    more, t := Extend(slip, acts, s, Start(a));
    more, t := Extend(slip, more, t, Start(b));
  }

  lemma IsDelivered(slip: Slip, acts: seq<Action>, s: State, msg: Msg, a: string, b: string)
    returns (more: seq<Action>, t: State)
    requires Trace(slip, acts, s) && a != b && s.workers == map[a := IDLE, b := IDLE] && s.nextMon == 0
    requires s.store == EMPTY_STORE.(rows := map[msg.dep := Row(msg.image, Queued)], ids := map[msg.dep := msg.image],
                                     stream := [msg])
    ensures Trace(slip, more, t) && Shows(t, msg, a, b, Delivered(IDLE))
  {
    hide Trace, Exec, Shows, Enabled, Allowed, HandledOnce;
    DeliveryShows(slip, s, msg, a, b);
    more, t := Extend(slip, acts, s, Deliver(a, 1, false));
  }

  lemma DeliveryShows(slip: Slip, s: State, msg: Msg, a: string, b: string)
    requires a != b && s.workers == map[a := IDLE, b := IDLE] && s.nextMon == 0
    requires s.store == EMPTY_STORE.(rows := map[msg.dep := Row(msg.image, Queued)], ids := map[msg.dep := msg.image],
                                     stream := [msg])
    ensures var d := Deliver(a, 1, false);
            && Enabled(s, d) && Allowed(slip, s, d) && HandledOnce(Apply(s, d))
            && Shows(Apply(s, d), msg, a, b, Delivered(IDLE))
  {
    hide PhaseCall, MonCall, PhaseNext, MonNext, ReqsAfter, MonsAfter, ShowsStore;
    assert Span(0, 1) == [0];
    assert Apply(s, Deliver(a, 1, false)).workers == map[a := HOLDS, b := IDLE];
    DeliveredStore(s.store, msg, a);
  }

  lemma DeliveredStore(d: Store, msg: Msg, a: string)
    requires d == EMPTY_STORE.(rows := map[msg.dep := Row(msg.image, Queued)], ids := map[msg.dep := msg.image],
                               stream := [msg])
    ensures CallEnabled(d, DeliverNew(a, 1)) && ShowsStore(Perform(d, DeliverNew(a, 1)), msg, Delivered(IDLE).x)
  {
    assert 0 in Span(0, 1) by { assert Span(0, 1)[0] == 0; }
  }

  lemma Prologue(slip: Slip, msg: Msg, a: string, b: string) returns (acts: seq<Action>, s: State)
    requires Plain(msg) && a != b
    ensures Trace(slip, acts, s) && Shows(s, msg, a, b, Delivered(IDLE))
  {
    hide Shows, Trace;
    acts, s := IsCommitted(slip, msg);
    acts, s := IsSent(slip, acts, s, msg);
    acts, s := WorkersStart(slip, acts, s, a, b);
    acts, s := IsDelivered(slip, acts, s, msg, a, b);
  }

  /** Worker `a` has created the Job and started the monitor, and is about to acknowledge. */
  function Started(msg: Msg, wb: Worker): View {
    View(Seen(Some(Queued), Some(Active), [Read(), Made(msg)], true), Some(Worker([], BuildAck(0))), wb, At(AwaitPod))
  }

  lemma ABuilds(slip: Slip, acts: seq<Action>, s: State, msg: Msg, a: string, b: string, wb: Worker)
    returns (more: seq<Action>, t: State)
    requires Trace(slip, acts, s) && Shows(s, msg, a, b, Delivered(wb)) && Plain(msg) && wb.phase == Idle
    ensures Trace(slip, more, t) && Shows(t, msg, a, b, Started(msg, wb))
  {
    hide Trace, Shows, MonCall, MonNext, CallEnabled, MonAfter;
    var v := Delivered(wb);
    var v1 := v.(wa := Some(Worker([], Check(0))));
    more, t := Go(slip, acts, s, msg, a, b, v, A, v1);
    var v2 := v.(wa := Some(Worker([], Guard(0))));
    more, t := Go(slip, more, t, msg, a, b, v1, A, v2);
    var v3 := v.(wa := Some(Worker([], Build(0))), x := v.x.(h := [Read()]));
    more, t := Go(slip, more, t, msg, a, b, v2, A, v3);
    var v4 := v.(wa := Some(Worker([], Spawn(0))), x := Started(msg, wb).x);
    assert [Read()] + [Made(msg)] == [Read(), Made(msg)];
    more, t := Go(slip, more, t, msg, a, b, v3, A, v4);
    more, t := Go(slip, more, t, msg, a, b, v4, A, Started(msg, wb));
  }

  /** The view once worker `b`, with the message in its batch, has found nothing to stop it. */
  function Passed(v: View): View {
    v.(wb := Worker([], Build(0)),
       x := v.x.(h := if v.x.row.Some? then v.x.h + [GuardRead(0, v.x.row.value)] else v.x.h))
  }

  lemma BPasses(slip: Slip, acts: seq<Action>, s: State, msg: Msg, a: string, b: string, v: View)
    returns (more: seq<Action>, t: State)
    requires Trace(slip, acts, s) && Shows(s, msg, a, b, v) && Plain(msg)
    requires v.wb == HOLDS && (v.x.row.Some? ==> !InFlight(v.x.row.value)) && (v.wa.Some? ==> v.wa.value == IDLE)
    ensures Trace(slip, more, t) && Shows(t, msg, a, b, Passed(v))
  {
    hide Trace, Shows;
    var v1, v2 := v.(wb := Worker([], Check(0))), v.(wb := Worker([], Guard(0)));
    more, t := Go(slip, acts, s, msg, a, b, v, B, v1);
    more, t := Go(slip, more, t, msg, a, b, v1, B, v2);
    more, t := Go(slip, more, t, msg, a, b, v2, B, Passed(v));
  }

  function GoodEnd(msg: Msg): seq<Event> {
    [Wrote(msg.dep, Building, ByMonitor), JobSucceeded(msg.image),
     GatePassed(msg.image), Wrote(msg.dep, Deploying, ByMonitor)]
  }

  /** The view once the build has ended well and the monitor has cleaned up. */
  function Concluded(v: View, msg: Msg): View {
    v.(x := v.x.(row := Some(Deploying), job := None, h := v.x.h + GoodEnd(msg)), mon := Gone)
  }

  lemma Succeeds(slip: Slip, acts: seq<Action>, s: State, msg: Msg, a: string, b: string, v: View)
    returns (more: seq<Action>, t: State)
    requires Trace(slip, acts, s) && Shows(s, msg, a, b, v) && Handled(v)
    requires v.mon == At(AwaitPod) && v.x.job == Some(Active) && v.x.row.Some?
    ensures Trace(slip, more, t) && Shows(t, msg, a, b, Concluded(v, msg))
  {
    hide Trace, Shows;
    var e := GoodEnd(msg);
    var v1 := v.(mon := At(WriteBuilding));
    more, t := Go(slip, acts, s, msg, a, b, v, M, v1);
    var v2 := v.(mon := At(AwaitJob), x := v.x.(row := Some(Building), h := v.x.h + e[..1]));
    more, t := Go(slip, more, t, msg, a, b, v1, M, v2);
    var v3 := v2.(x := v2.x.(job := Some(Succeeded), h := v.x.h + e[..2]));
    assert v2.x.h + [e[1]] == v3.x.h;
    more, t := Go(slip, more, t, msg, a, b, v2, JobDone, v3);
    var v4 := v3.(mon := At(Gate));
    more, t := Go(slip, more, t, msg, a, b, v3, M, v4);
    more, t := Concludes(slip, more, t, msg, a, b, v4, v.x.h);
  }

  lemma Concludes(slip: Slip, acts: seq<Action>, s: State, msg: Msg, a: string, b: string, v: View, h: seq<Event>)
    returns (more: seq<Action>, t: State)
    requires Trace(slip, acts, s) && Shows(s, msg, a, b, v) && Handled(v)
    requires v.mon == At(Gate) && v.x.row.Some? && v.x.h == h + GoodEnd(msg)[..2]
    ensures Trace(slip, more, t)
    ensures Shows(t, msg, a, b, v.(x := v.x.(row := Some(Deploying), job := None, h := h + GoodEnd(msg)), mon := Gone))
  {
    hide Trace, Shows;
    var e := GoodEnd(msg);
    var v1 := v.(mon := At(WriteDeploying), x := v.x.(h := h + e[..3]));
    assert v.x.h + [e[2]] == v1.x.h;
    more, t := Go(slip, acts, s, msg, a, b, v, M, v1);
    var v2 := v.(mon := At(Cleanup), x := v.x.(row := Some(Deploying), h := h + e));
    assert v1.x.h + [e[3]] == v2.x.h;
    more, t := Go(slip, more, t, msg, a, b, v1, M, v2);
    more, t := Go(slip, more, t, msg, a, b, v2, M, v2.(x := v2.x.(job := None), mon := Gone));
  }

  /** The second Job. */
  lemma BBuilds(slip: Slip, acts: seq<Action>, s: State, msg: Msg, a: string, b: string, v: View)
    returns (more: seq<Action>, t: State)
    requires Trace(slip, acts, s) && Shows(s, msg, a, b, v)
    requires v.wb == Worker([], Build(0)) && v.x.job.None? && (v.wa.Some? ==> v.wa.value == IDLE)
    requires [Read(), Made(msg)] <= v.x.h
    ensures Trace(slip, more, t) && BuiltAgain(t.store.hist, msg.dep)
    ensures NeverFailed(v.x.h) ==> BuiltTwice(t.store.hist, msg.dep)
  {
    hide Trace;
    var v' := v.(wb := Worker([], Spawn(0)), x := v.x.(job := Some(Active), h := v.x.h + [Made(msg)]));
    more, t := Go(slip, acts, s, msg, a, b, v, B, v');
    assert t.store.hist[1] == Made(msg) && t.store.hist[|v.x.h|] == Made(msg);
  }

  // ---------------------------------------------------------------- the four runs

  /** Taken over from a live worker's batch, a message is built twice without any fault. */
  lemma StaleBatchBuildsTwice(msg: Msg, a: string, b: string) returns (acts: seq<Action>, s: State)
    requires Plain(msg) && a != b
    ensures Trace(StaleClaim, acts, s) && BuiltTwice(s.store.hist, msg.dep)
  {
    hide Trace, Shows, BuiltTwice;
    acts, s := Prologue(StaleClaim, msg, a, b);
    acts, s := Go(StaleClaim, acts, s, msg, a, b, Delivered(IDLE), Sweep, Delivered(HOLDS));
    acts, s := ABuilds(StaleClaim, acts, s, msg, a, b, HOLDS);
    var v1 := Started(msg, HOLDS);
    var v2 := v1.(wa := Some(IDLE), x := v1.x.(pending := false));
    acts, s := Go(StaleClaim, acts, s, msg, a, b, v1, A, v2);
    acts, s := BPasses(StaleClaim, acts, s, msg, a, b, v2);
    acts, s := Succeeds(StaleClaim, acts, s, msg, a, b, Passed(v2));
    acts, s := BBuilds(StaleClaim, acts, s, msg, a, b, Concluded(Passed(v2), msg));
  }

  /** The acknowledgement and the handler's write of Failed are lost. */
  lemma LostFailureBuildsTwice(msg: Msg, a: string, b: string) returns (acts: seq<Action>, s: State)
    requires Plain(msg) && a != b
    ensures Trace(HandlerLoss, acts, s) && BuiltTwice(s.store.hist, msg.dep)
  {
    hide Trace, Shows, BuiltTwice;
    acts, s := Prologue(HandlerLoss, msg, a, b);
    acts, s := ABuilds(HandlerLoss, acts, s, msg, a, b, IDLE);
    var v1 := Started(msg, IDLE);
    var v2, v3 := v1.(wa := Some(Worker([], FailWrite(0)))), v1.(wa := Some(IDLE));
    acts, s := Go(HandlerLoss, acts, s, msg, a, b, v1, ALost, v2);
    acts, s := Go(HandlerLoss, acts, s, msg, a, b, v2, ALost, v3);
    var v4 := v3.(wb := HOLDS);
    acts, s := Go(HandlerLoss, acts, s, msg, a, b, v3, Sweep, v4);
    acts, s := BPasses(HandlerLoss, acts, s, msg, a, b, v4);
    acts, s := Succeeds(HandlerLoss, acts, s, msg, a, b, Passed(v4));
    acts, s := BBuilds(HandlerLoss, acts, s, msg, a, b, Concluded(Passed(v4), msg));
  }

  /** The wait for the pod fails, the monitor's write of Failed is lost, it deletes the Job,
      and the worker dies before its acknowledgement. */
  lemma LostVerdictBuildsTwice(msg: Msg, a: string, b: string) returns (acts: seq<Action>, s: State)
    requires Plain(msg) && a != b
    ensures Trace(MonitorLoss, acts, s) && BuiltTwice(s.store.hist, msg.dep)
  {
    hide Trace, Shows, BuiltTwice;
    acts, s := Prologue(MonitorLoss, msg, a, b);
    acts, s := ABuilds(MonitorLoss, acts, s, msg, a, b, IDLE);
    var v1 := Started(msg, IDLE);
    acts, s := Go(MonitorLoss, acts, s, msg, a, b, v1, MLost, v1.(mon := At(FailOuter)));
    acts, s := Go(MonitorLoss, acts, s, msg, a, b, v1.(mon := At(FailOuter)), MLost, v1.(mon := At(Cleanup)));
    var v2 := v1.(mon := Gone, x := v1.x.(job := None));
    acts, s := Go(MonitorLoss, acts, s, msg, a, b, v1.(mon := At(Cleanup)), M, v2);
    var v3 := v2.(wa := None);
    acts, s := Go(MonitorLoss, acts, s, msg, a, b, v2, Death, v3);
    acts, s := Go(MonitorLoss, acts, s, msg, a, b, v3, Sweep, v3.(wb := HOLDS));
    acts, s := BPasses(MonitorLoss, acts, s, msg, a, b, v3.(wb := HOLDS));
    acts, s := BBuilds(MonitorLoss, acts, s, msg, a, b, Passed(v3.(wb := HOLDS)));
  }

  /** The build goes well, the worker dies before its acknowledgement, and the row is removed. */
  lemma RemovedRowBuildsTwice(msg: Msg, a: string, b: string) returns (acts: seq<Action>, s: State)
    requires Plain(msg) && a != b
    ensures Trace(RowRemoval, acts, s) && BuiltTwice(s.store.hist, msg.dep)
  {
    hide Trace, Shows, BuiltTwice;
    acts, s := Prologue(RowRemoval, msg, a, b);
    acts, s := ABuilds(RowRemoval, acts, s, msg, a, b, IDLE);
    acts, s := Succeeds(RowRemoval, acts, s, msg, a, b, Started(msg, IDLE));
    var v1 := Concluded(Started(msg, IDLE), msg);
    var v2 := v1.(wa := None);
    acts, s := Go(RowRemoval, acts, s, msg, a, b, v1, Death, v2);
    var v3 := v2.(x := v2.x.(row := None));
    acts, s := Go(RowRemoval, acts, s, msg, a, b, v2, Removal, v3);
    acts, s := Go(RowRemoval, acts, s, msg, a, b, v3, Sweep, v3.(wb := HOLDS));
    acts, s := BPasses(RowRemoval, acts, s, msg, a, b, v3.(wb := HOLDS));
    acts, s := BBuilds(RowRemoval, acts, s, msg, a, b, Passed(v3.(wb := HOLDS)));
  }

  // ---------------------------------------------------------------- a repeated build after a failure

  lemma {:induction false} TraceIsOrderly(acts: seq<Action>, s: State)
    requires Trace(NoSlip, acts, s)
    ensures Exec(INIT, acts) == Some(s) && OrderlyRun(acts)
    decreases |acts|
  {
    if acts != [] { TraceIsOrderly(acts[..|acts| - 1], Exec(INIT, acts[..|acts| - 1]).value); }
  }

  /** Worker `a` has written Failed for the message whose acknowledgement was lost, and could
      not copy it to the dead-letter stream. */
  function LetGo(msg: Msg): View {
    var v := Started(msg, IDLE);
    v.(wa := Some(IDLE), x := v.x.(row := Some(Failed), h := v.x.h + [Wrote(msg.dep, Failed, ByHandler(0))]))
  }

  /** The monitor has failed too, and cleaned up. */
  function GivenUp(msg: Msg): View {
    var v := LetGo(msg);
    v.(mon := Gone, x := v.x.(job := None, h := v.x.h + [Wrote(msg.dep, Failed, ByMonitor)]))
  }

  lemma LetsGo(slip: Slip, acts: seq<Action>, s: State, msg: Msg, a: string, b: string)
    returns (more: seq<Action>, t: State)
    requires Trace(slip, acts, s) && Shows(s, msg, a, b, Started(msg, IDLE)) && slip != StaleClaim
    ensures Trace(slip, more, t) && Shows(t, msg, a, b, LetGo(msg))
  {
    hide Trace, Shows;
    var v1, end := Started(msg, IDLE), LetGo(msg);
    var v2, v3 := v1.(wa := Some(Worker([], FailWrite(0)))), end.(wa := Some(Worker([], DlqAdd(0))));
    more, t := Go(slip, acts, s, msg, a, b, v1, ALost, v2);
    more, t := Go(slip, more, t, msg, a, b, v2, A, v3);
    more, t := Go(slip, more, t, msg, a, b, v3, ALost, end);
  }

  lemma GivesUp(slip: Slip, acts: seq<Action>, s: State, msg: Msg, a: string, b: string)
    returns (more: seq<Action>, t: State)
    requires Trace(slip, acts, s) && Shows(s, msg, a, b, LetGo(msg)) && slip != StaleClaim
    ensures Trace(slip, more, t) && Shows(t, msg, a, b, GivenUp(msg))
  {
    hide Trace, Shows;
    var v1, end := LetGo(msg), GivenUp(msg);
    var v2, v3 := v1.(mon := At(FailOuter)), end.(mon := At(Cleanup), x := end.x.(job := v1.x.job));
    more, t := Go(slip, acts, s, msg, a, b, v1, MLost, v2);
    more, t := Go(slip, more, t, msg, a, b, v2, M, v3);
    more, t := Go(slip, more, t, msg, a, b, v3, M, end);
  }

  /** An orderly run can build twice: after the first build was given up, the message is swept
      and built again. */
  lemma FailedBuildRepeats(msg: Msg, a: string, b: string) returns (acts: seq<Action>, s: State)
    requires Plain(msg) && a != b
    ensures Exec(INIT, acts) == Some(s) && OrderlyRun(acts) && BuiltAgain(s.store.hist, msg.dep)
  {
    hide Trace, Shows, Exec, OrderlyRun, BuiltAgain;
    acts, s := Prologue(NoSlip, msg, a, b);
    acts, s := ABuilds(NoSlip, acts, s, msg, a, b, IDLE);
    acts, s := LetsGo(NoSlip, acts, s, msg, a, b);
    acts, s := GivesUp(NoSlip, acts, s, msg, a, b);
    var v := GivenUp(msg).(wb := HOLDS);
    acts, s := Go(NoSlip, acts, s, msg, a, b, GivenUp(msg), Sweep, v);
    acts, s := BPasses(NoSlip, acts, s, msg, a, b, v);
    acts, s := BBuilds(NoSlip, acts, s, msg, a, b, Passed(v));
    TraceIsOrderly(acts, s);
  }
}
