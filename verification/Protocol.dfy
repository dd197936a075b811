/**
 The deployment protocol as one state machine: the API that commits rows and
 enqueues messages, any number of workers reading the stream, the monitor threads
 they spawn, the build Jobs, and the controller's row writes.

 The processes share a database, a stream with one consumer group, and a build
 namespace; these are the `Store`.  A process step makes at most one store call, so
 a crash, a lost reply or another process can come between any two calls.  A step
 carries the environment's choice of outcome: `ok` is "the caller saw no exception"
 and `applied` is "the effect took place", for a call may take effect although its
 reply is lost.
 */
module Protocol {
  import opened Wrappers
  import ScanGate

  // ---------------------------------------------------------------- the shared stores

  datatype RowState = Queued | Building | Deploying | Verifying | Running | Failed

  datatype Row = Row(image: string, state: RowState)

  datatype Msg = Msg(dep: string, repo: string, image: string, rollback: bool)

  /** Who issued an UPDATE of a deployment row. */
  datatype Writer = ByRollback(m: nat) | ByHandler(m: nat) | ByMonitor | ByController | ByApi

  /** The history of the effects the properties speak about, in order. */
  datatype Event =
    | JobCreated(m: nat, dep: string, image: string)
    | JobSucceeded(image: string)
    | JobFailed(image: string)
    | GatePassed(image: string)
    | Wrote(dep: string, state: RowState, writer: Writer)
    | GuardRead(m: nat, state: RowState)

  datatype JobStatus = Active | Succeeded | Broken

  datatype Job = Job(dep: string, image: string, status: JobStatus)

  datatype Store = Store(
    rows: map<string, Row>,
    ids: map<string, string>,   // every deployment id ever committed, with its image
    stream: seq<Msg>,           // entry ids are positions
    delivered: nat,             // last-delivered id of the consumer group
    pending: map<nat, string>,  // pending entries list: entry -> owner
    acked: set<nat>,
    dlq: seq<Msg>,
    jobs: map<string, Job>,     // Jobs in the build namespace, by JobKey
    hist: seq<Event>)

  datatype Call =
    | NoCall
    | CommitRow(dep: string, image: string)
    | ReadRow(m: nat, dep: string)
    | WriteRow(dep: string, state: RowState, writer: Writer)
    | CascadeRow(dep: string)
    | AddEntry(msg: Msg)
    | DeliverNew(owner: string, k: nat)
    | TakeOver(owner: string, ms: seq<nat>)
    | AckEntry(m: nat)
    | CopyToDlq(msg: Msg)
    | MakeJob(m: nat, dep: string, image: string)
    | EndJob(key: string, success: bool)
    | DeleteJob(dep: string)
    | NotePass(image: string)  // no store is called: the history notes that the scan gate let the image through

  /** What tells build Jobs apart: the Job is named `build-` plus these characters of the id. */
  function JobKey(dep: string): string {
    if |dep| <= 8 then dep else dep[..8]
  }

  predicate CallEnabled(d: Store, c: Call) {
    match c
    case CommitRow(dep, _) => dep !in d.ids
    case CascadeRow(dep) => dep in d.rows
    case DeliverNew(_, k) => k <= 5 && d.delivered + k <= |d.stream|
    case TakeOver(_, ms) => forall m | m in ms :: m in d.pending
    case MakeJob(_, dep, _) => JobKey(dep) !in d.jobs
    case EndJob(key, _) => key in d.jobs && d.jobs[key].status == Active
    case _ => true
  }

  function Span(lo: nat, k: nat): (ms: seq<nat>)
    ensures |ms| == k && forall j :: 0 <= j < k ==> ms[j] == lo + j
  {
    seq(k, (j: nat) => lo + j)
  }

  /** The effect of one store call. */
  function Perform(d: Store, c: Call): Store
    requires CallEnabled(d, c)
  {
    match c
    case NoCall => d
    case CommitRow(dep, image) => d.(rows := d.rows[dep := Row(image, Queued)], ids := d.ids[dep := image])
    case ReadRow(m, dep) =>
      if dep in d.rows then d.(hist := d.hist + [GuardRead(m, d.rows[dep].state)]) else d
    case WriteRow(dep, st, writer) =>  // an UPDATE of a missing row matches nothing and raises nothing
      d.(rows := if dep in d.rows then d.rows[dep := d.rows[dep].(state := st)] else d.rows,
         hist := d.hist + [Wrote(dep, st, writer)])
    case CascadeRow(dep) => d.(rows := d.rows - {dep})
    case AddEntry(msg) => d.(stream := d.stream + [msg])
    case DeliverNew(owner, k) =>
      d.(pending := d.pending + (map m | m in Span(d.delivered, k) :: owner), delivered := d.delivered + k)
    case TakeOver(owner, ms) => d.(pending := d.pending + (map m | m in ms :: owner))
    case AckEntry(m) =>  // acknowledging twice has no effect
      if m in d.pending then d.(pending := d.pending - {m}, acked := d.acked + {m}) else d
    case CopyToDlq(msg) => d.(dlq := d.dlq + [msg])
    case MakeJob(m, dep, image) =>
      d.(jobs := d.jobs[JobKey(dep) := Job(dep, image, Active)], hist := d.hist + [JobCreated(m, dep, image)])
    case EndJob(key, success) =>
      if success then
        d.(jobs := d.jobs[key := d.jobs[key].(status := Succeeded)],
           hist := d.hist + [JobSucceeded(d.jobs[key].image)])
      else
        d.(jobs := d.jobs[key := d.jobs[key].(status := Broken)],
           hist := d.hist + [JobFailed(d.jobs[key].image)])
    case DeleteJob(dep) => d.(jobs := d.jobs - {JobKey(dep)})
    case NotePass(image) => d.(hist := d.hist + [GatePassed(image)])
  }

  // ---------------------------------------------------------------- workers

  /** Where `process_message` stands; each phase is about to make one call. */
  datatype Phase =
    | Idle
    | Check(m: nat)      // the required fields are about to be checked
    | Guard(m: nat)      // the row is about to be read
    | ActiveAck(m: nat)  // the row was already being built or served
    | RollWrite(m: nat)  // rollback: write Deploying
    | RollAck(m: nat)
    | Build(m: nat)      // clone, detect a builder, then create the Job
    | Spawn(m: nat)      // the Job exists, the monitor thread does not yet
    | BuildAck(m: nat)
    | FailWrite(m: nat)  // in the exception handler: write Failed
    | DlqAdd(m: nat)
    | DlqAck(m: nat)

  /** A live worker process: the messages it has in hand and what it is doing. */
  datatype Worker = Worker(batch: seq<nat>, phase: Phase)

  predicate InFlight(st: RowState) { st in {Building, Deploying, Running} }

  function PhaseCall(ph: Phase, msg: Msg): Call {
    match ph
    case Idle | Check(_) | Spawn(_) => NoCall
    case Guard(m) => ReadRow(m, msg.dep)
    case RollWrite(m) => WriteRow(msg.dep, Deploying, ByRollback(m))
    case Build(m) => MakeJob(m, msg.dep, msg.image)
    case FailWrite(m) => WriteRow(msg.dep, Failed, ByHandler(m))
    case DlqAdd(_) => CopyToDlq(msg)
    case ActiveAck(_) | RollAck(_) | BuildAck(_) | DlqAck(_) => AckEntry(ph.m)
  }

  /** Where `process_message` goes next; None is an exception that leaves it. */
  function PhaseNext(ph: Phase, msg: Msg, busy: bool, ok: bool): Option<Phase> {
    match ph
    case Idle => Some(Idle)
    case Check(m) =>
      Some(if msg.dep == "" || msg.repo == "" || msg.image == "" then DlqAdd(m) else Guard(m))
    case Guard(m) =>
      if !ok then None
      else Some(if busy then ActiveAck(m) else if msg.rollback then RollWrite(m) else Build(m))
    case RollWrite(m) => if ok then Some(RollAck(m)) else None
    case Build(m) => Some(if ok then Spawn(m) else FailWrite(m))
    case Spawn(m) => Some(if ok then BuildAck(m) else FailWrite(m))
    case BuildAck(m) => Some(if ok then Idle else FailWrite(m))
    case FailWrite(m) => if ok then Some(DlqAdd(m)) else None
    case DlqAdd(m) => if ok then Some(DlqAck(m)) else None
    case ActiveAck(_) | RollAck(_) | DlqAck(_) => if ok then Some(Idle) else None
  }

  // ---------------------------------------------------------------- monitor threads

  datatype MonPhase =
    | AwaitPod | WriteBuilding | AwaitJob | Gate | WriteDeploying | FailInner | FailOuter | Cleanup

  /** A live monitor thread; it dies with the worker process `owner`. */
  datatype Mon = Mon(owner: string, dep: string, image: string, phase: MonPhase)

  function MonCall(mon: Mon): Call {
    match mon.phase
    case AwaitPod | AwaitJob | Gate => NoCall
    case WriteBuilding => WriteRow(mon.dep, Building, ByMonitor)
    case WriteDeploying => WriteRow(mon.dep, Deploying, ByMonitor)
    case FailInner | FailOuter => WriteRow(mon.dep, Failed, ByMonitor)
    case Cleanup => DeleteJob(mon.dep)
  }

  /** Where `monitor_job` goes next, given the Job it can see; None is the end of the thread. */
  function MonNext(ph: MonPhase, job: Option<Job>, ok: bool): Option<MonPhase> {
    match ph
    case AwaitPod => Some(if ok then WriteBuilding else FailOuter)
    case WriteBuilding => Some(if ok then AwaitJob else FailOuter)
    case AwaitJob =>
      if !ok || job.None? then Some(FailOuter)
      else Some(match job.value.status case Active => AwaitJob case Succeeded => Gate case Broken => FailInner)
    case Gate => Some(FailOuter)  // something raises before the scan is asked about; see `GateNext`
    case WriteDeploying => Some(if ok then Cleanup else FailOuter)
    case FailInner => Some(if ok then Cleanup else FailOuter)
    case FailOuter => Some(Cleanup)
    case Cleanup => None
  }

  /** Where the answers of the scan lead. */
  function GateNext(answers: seq<ScanGate.Answer>): MonPhase
    requires |answers| >= ScanGate.LOOKS
  {
    if ScanGate.Blocked(answers) then FailInner else WriteDeploying
  }

  // ---------------------------------------------------------------- API requests

  datatype Kind = Create | Webhook | AppHook | Rollback

  /** How a deploy request ended: sent as stream entry `at`; not sent and then repaired by
      the compensating update, or repaired in vain, or not repaired; with an error from a
      commit that took effect; or cut off by the end of its process.  An XADD that raised
      may have `added` the entry all the same. */
  datatype End =
    | Sent(at: nat)
    | Repaired(added: bool)
    | RepairFailed(added: bool)
    | Unrepaired(added: bool)
    | Uncertain
    | Crashed(added: bool)

  datatype ReqPhase = Selected | Enqueueing | Repairing(added: bool) | Ended(end: End)

  datatype Req = Req(kind: Kind, dep: string, repo: string, image: string, phase: ReqPhase)

  /** The request's message is in the stream. */
  predicate Added(ph: ReqPhase) {
    match ph
    case Selected | Enqueueing | Ended(Uncertain) => false
    case Repairing(added) => added
    case Ended(Sent(_)) => true
    case Ended(Repaired(added)) => added
    case Ended(RepairFailed(added)) => added
    case Ended(Unrepaired(added)) => added
    case Ended(Crashed(added)) => added
  }

  function ReqMsg(req: Req): Msg { Msg(req.dep, req.repo, req.image, req.kind == Rollback) }

  // ---------------------------------------------------------------- the system

  datatype State = State(
    store: Store,
    workers: map<string, Worker>, // live worker processes
    mons: map<nat, Mon>,          // live monitor threads
    nextMon: nat,
    ctrl: map<string, RowState>,  // rows as the controller's current tick read them
    reqs: map<nat, Req>)

  const EMPTY_STORE := Store(map[], map[], [], 0, map[], {}, [], map[], [])
  const INIT := State(EMPTY_STORE, map[], map[], 0, map[], map[])

  datatype Action =
    | Start(w: string)
    | Crash(w: string)
    | Deliver(w: string, k: nat, lost: bool)
    | Claim(w: string, ms: seq<nat>, lost: bool)
    | Begin(w: string)
    | Step(w: string, ok: bool, applied: bool)
    | Repeat(w: string)     // an UPDATE took effect, the connection dropped, and `update_state` tries again
    | MonStep(i: nat, ok: bool, applied: bool)
    | MonRepeat(i: nat)
    | MonGate(i: nat, answers: seq<ScanGate.Answer>)
    | JobEnd(key: string, success: bool)
    | RemoveRow(dep: string)
    | CtrlRead(deps: set<string>)
    | CtrlPromote(dep: string)
    | CtrlFail(dep: string)
    | Submit(r: nat, kind: Kind, dep: string, repo: string, image: string, ok: bool)  // the row is committed
    | RollbackSelect(r: nat, src: string, repo: string)
    | RollbackInsert(r: nat, dep: string, ok: bool)
    | Enqueue(r: nat, ok: bool, applied: bool)
    | Repair(r: nat, ok: bool, applied: bool)
    | ApiCrash(r: nat)

  predicate Working(s: State, w: string) {
    w in s.workers && s.workers[w].phase != Idle && s.workers[w].phase.m < |s.store.stream|
  }

  function WorkMsg(s: State, w: string): Msg
    requires Working(s, w)
  {
    s.store.stream[s.workers[w].phase.m]
  }

  function JobOf(d: Store, dep: string): Option<Job> {
    if JobKey(dep) in d.jobs then Some(d.jobs[JobKey(dep)]) else None
  }

  /** The store call that an action makes if it is applied. */
  function CallOf(s: State, a: Action): Call {
    match a
    case Deliver(w, k, _) => DeliverNew(w, k)
    case Claim(w, ms, _) => TakeOver(w, ms)
    case Step(w, _, applied) =>
      if applied && Working(s, w) then PhaseCall(s.workers[w].phase, WorkMsg(s, w)) else NoCall
    case Repeat(w) => if Working(s, w) then PhaseCall(s.workers[w].phase, WorkMsg(s, w)) else NoCall
    case MonStep(i, _, applied) => if applied && i in s.mons then MonCall(s.mons[i]) else NoCall
    case MonRepeat(i) => if i in s.mons then MonCall(s.mons[i]) else NoCall
    case MonGate(i, answers) =>
      if i in s.mons && |answers| >= ScanGate.LOOKS && !ScanGate.Blocked(answers) then NotePass(s.mons[i].image)
      else NoCall
    case JobEnd(key, success) => EndJob(key, success)
    case RemoveRow(dep) => CascadeRow(dep)
    case CtrlPromote(dep) => WriteRow(dep, Running, ByController)
    case CtrlFail(dep) => WriteRow(dep, Failed, ByController)
    case Submit(_, _, dep, _, image, _) => CommitRow(dep, image)
    case RollbackInsert(r, dep, _) => if r in s.reqs then CommitRow(dep, s.reqs[r].image) else NoCall
    case Enqueue(r, _, applied) => if applied && r in s.reqs then AddEntry(ReqMsg(s.reqs[r])) else NoCall
    case Repair(r, _, applied) =>
      if applied && r in s.reqs then WriteRow(s.reqs[r].dep, Failed, ByApi) else NoCall
    case _ => NoCall
  }

  predicate Enabled(s: State, a: Action) {
    && CallEnabled(s.store, CallOf(s, a))
    && match a
       case Start(w) => w !in s.workers
       case Crash(w) => w in s.workers
       case Deliver(w, _, _) => w in s.workers && s.workers[w] == Worker([], Idle)
       case Claim(w, _, _) => w in s.workers && s.workers[w].phase == Idle
       case Begin(w) => w in s.workers && s.workers[w].phase == Idle && s.workers[w].batch != []
       case Step(w, ok, applied) => Working(s, w) && (ok ==> applied)
       case Repeat(w) => Working(s, w) && PhaseCall(s.workers[w].phase, WorkMsg(s, w)).WriteRow?
       case MonStep(i, ok, applied) => i in s.mons && (ok ==> applied) && (s.mons[i].phase == Gate ==> !ok)
       case MonRepeat(i) => i in s.mons && MonCall(s.mons[i]).WriteRow?
       case MonGate(i, answers) => i in s.mons && s.mons[i].phase == Gate && |answers| >= ScanGate.LOOKS
       case JobEnd(_, _) | RemoveRow(_) | CtrlRead(_) => true
       case CtrlPromote(dep) => dep in s.ctrl && s.ctrl[dep] in {Deploying, Verifying}
       case CtrlFail(dep) => dep in s.ctrl && s.ctrl[dep] == Running
       case Submit(r, kind, _, _, _, _) => r !in s.reqs && kind != Rollback
       case RollbackSelect(r, src, _) =>
         r !in s.reqs && src in s.store.rows && s.store.rows[src].state == Running
       case RollbackInsert(r, _, _) => r in s.reqs && s.reqs[r].phase == Selected
       case Enqueue(r, ok, applied) => r in s.reqs && s.reqs[r].phase == Enqueueing && (ok ==> applied)
       case Repair(r, ok, applied) => r in s.reqs && s.reqs[r].phase.Repairing? && (ok ==> applied)
       case ApiCrash(r) => r in s.reqs && !s.reqs[r].phase.Ended?
  }

  predicate Busy(s: State, w: string)
    requires Working(s, w)
  {
    var dep := WorkMsg(s, w).dep;
    dep in s.store.rows && InFlight(s.store.rows[dep].state)
  }

  /** The worker processes after an action; a crash takes one away, an exception out of
      `process_message` empties the batch it came from. */
  function WorkersAfter(s: State, a: Action): map<string, Worker>
    requires Enabled(s, a)
  {
    match a
    case Start(w) => s.workers[w := Worker([], Idle)]
    case Crash(w) => s.workers - {w}
    case Deliver(w, k, lost) => s.workers[w := Worker(if lost then [] else Span(s.store.delivered, k), Idle)]
    case Claim(w, ms, lost) => s.workers[w := Worker(if lost then [] else s.workers[w].batch + ms, Idle)]
    case Begin(w) => s.workers[w := Worker(s.workers[w].batch[1..], Check(s.workers[w].batch[0]))]
    case Step(w, ok, applied) =>
      var next := PhaseNext(s.workers[w].phase, WorkMsg(s, w), Busy(s, w), ok);
      s.workers[w := if next.Some? then s.workers[w].(phase := next.value) else Worker([], Idle)]
    case _ => s.workers
  }

  predicate Spawns(s: State, a: Action) {
    a.Step? && a.ok && a.w in s.workers && s.workers[a.w].phase.Spawn?
  }

  function MonsAfter(s: State, a: Action): map<nat, Mon>
    requires Enabled(s, a)
  {
    match a
    case Crash(w) => map i | i in s.mons && s.mons[i].owner != w :: s.mons[i]
    case Step(w, _, _) =>
      if Spawns(s, a) then s.mons[s.nextMon := Mon(w, WorkMsg(s, w).dep, WorkMsg(s, w).image, AwaitPod)] else s.mons
    case MonStep(i, ok, _) =>
      var next := MonNext(s.mons[i].phase, JobOf(s.store, s.mons[i].dep), ok);
      if next.Some? then s.mons[i := s.mons[i].(phase := next.value)] else s.mons - {i}
    case MonGate(i, answers) => s.mons[i := s.mons[i].(phase := GateNext(answers))]
    case _ => s.mons
  }

  function ReqsAfter(s: State, a: Action): map<nat, Req>
    requires Enabled(s, a)
  {
    match a
    case Submit(r, kind, dep, repo, image, ok) =>
      s.reqs[r := Req(kind, dep, repo, image, if ok then Enqueueing else Ended(Uncertain))]
    case RollbackSelect(r, src, repo) =>
      s.reqs[r := Req(Rollback, src, repo, s.store.rows[src].image, Selected)]
    case RollbackInsert(r, dep, ok) =>
      s.reqs[r := s.reqs[r].(dep := dep, phase := if ok then Enqueueing else Ended(Uncertain))]
    case Enqueue(r, ok, applied) =>
      s.reqs[r := s.reqs[r].(phase := if ok then Ended(Sent(|s.store.stream|))
                                      else if s.reqs[r].kind in {Create, Webhook} then Repairing(applied)
                                      else Ended(Unrepaired(applied)))]
    case Repair(r, ok, _) =>
      var added := s.reqs[r].phase.added;
      s.reqs[r := s.reqs[r].(phase := Ended(if ok then Repaired(added) else RepairFailed(added)))]
    case ApiCrash(r) =>  // a rollback that has only selected leaves nothing behind
      if s.reqs[r].phase == Selected then s.reqs - {r}
      else s.reqs[r := s.reqs[r].(phase := Ended(Crashed(Added(s.reqs[r].phase))))]
    case _ => s.reqs
  }

  /** A controller tick remembers the row states it read and acts on those. */
  function CtrlAfter(s: State, a: Action): map<string, RowState> {
    match a
    case CtrlRead(deps) => map d | d in deps && d in s.store.rows :: s.store.rows[d].state
    case _ => s.ctrl
  }

  function Apply(s: State, a: Action): State
    requires Enabled(s, a)
  {
    State(Perform(s.store, CallOf(s, a)), WorkersAfter(s, a), MonsAfter(s, a),
          if Spawns(s, a) then s.nextMon + 1 else s.nextMon, CtrlAfter(s, a), ReqsAfter(s, a))
  }

  /** The state a run of actions ends in, if every action is enabled when its turn comes. */
  function Exec(s: State, acts: seq<Action>): Option<State>
    decreases |acts|
  {
    if acts == [] then Some(s)
    else
      var before := Exec(s, acts[..|acts| - 1]);
      var a := acts[|acts| - 1];
      if before.Some? && Enabled(before.value, a) then Some(Apply(before.value, a)) else None
  }
}
