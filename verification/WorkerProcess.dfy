/**
 The worker's own code, statement by statement, as a refinement of `Protocol`: every
 execution of `ProcessMessage`, of the consumer loop and of `MonitorJob`, interleaved
 with anything the other processes do, is a run of the state machine.
 */
module WorkerProcess {
  import opened Wrappers
  import opened Protocol
  import opened ProtocolQueue
  import opened ProtocolImages
  import opened ProtocolHistory
  import ScanGate

  /** The whole system, with the run that led to its present state. */
  class System {
    var s: State
    ghost var log: seq<Action>

    ghost predicate Valid()
      reads this
    {
      Exec(INIT, log) == Some(s)
    }

    constructor ()
      ensures Valid() && log == [] && s == INIT
    {
      s, log := INIT, [];
    }

    method Do(a: Action)
      requires Valid() && Enabled(s, a)
      modifies this
      ensures Valid() && s == Apply(old(s), a) && log == old(log) + [a]
      ensures Kept(old(s.store), s.store)
    {
      assert (log + [a])[..|log|] == log;
      PerformGrows(s.store, CallOf(s, a));
      s, log := Apply(s, a), log + [a];
    }

    /** What is on record stays there. */
    static ghost predicate Kept(d: Store, e: Store) {
      d.hist <= e.hist && d.dlq <= e.dlq && d.stream <= e.stream && d.acked <= e.acked && d.delivered <= e.delivered
    }

    /** Whether an action belongs to the main thread of worker `w`, or ends its process. */
    static predicate OfWorker(w: string, a: Action) {
      (a.Start? || a.Crash? || a.Deliver? || a.Claim? || a.Begin? || a.Step? || a.Repeat?) && a.w == w
    }

    /** Whatever the other processes do before the main thread of `w` gets its turn. */
    method OthersRun(w: string)
      requires Valid() && w in s.workers
      modifies this
      ensures Valid() && old(log) <= log && w in s.workers && s.workers[w] == old(s.workers[w])
      ensures Kept(old(s.store), s.store)
    {
      var turns: nat := *;
      while turns > 0
        invariant Valid() && old(log) <= log && w in s.workers && s.workers[w] == old(s.workers[w])
        invariant Kept(old(s.store), s.store)
      {
        var a: Action := *;
        if Enabled(s, a) && !OfWorker(w, a) { Do(a); }
        turns := turns - 1;
      }
    }

    /** Whether an action is one of monitor `i`, or ends the process it belongs to. */
    static predicate OfMonitor(i: nat, owner: string, a: Action) {
      match a
      case MonStep(j, _, _) => i == j
      case MonRepeat(j) => i == j
      case MonGate(j, _) => i == j
      case Crash(w) => w == owner
      case _ => false
    }

    /** Whatever happens before monitor `i` gets its turn, as long as its process lives. */
    method OthersWhileMonitored(i: nat)
      requires Valid() && i in s.mons
      modifies this
      ensures Valid() && old(log) <= log && i in s.mons && s.mons[i] == old(s.mons[i])
      ensures Kept(old(s.store), s.store)
    {
      hide Exec, JobsInv, SpawnInv, RowsInv, StreamInv, CtrlInv, ReqsInv, MonOk, Perform, PhaseNext, MonNext;
      var turns: nat := *;
      while turns > 0
        invariant Valid() && old(log) <= log && i in s.mons && s.mons[i] == old(s.mons[i])
        invariant Kept(old(s.store), s.store)
      {
        var a: Action := *;
        ImageInvReachable(log, s);
        if Enabled(s, a) && !OfMonitor(i, s.mons[i].owner, a) { Do(a); }
        turns := turns - 1;
      }
    }
  }

  /** Which of the calls of one handler return; those that do not may take effect all the same. */
  datatype Calls = Calls(
    read: bool,    // the row
    write: bool,   // Deploying, for a rollback
    job: bool,     // the Job's creation, and what comes before it: clone and detection
    thread: bool,  // the monitor's start
    ack: bool,
    fail: bool,    // the write of Failed in the exception handler
    copy: bool,    // the copy to the dead-letter stream
    dlqAck: bool)

  const ALL_RETURN := Calls(true, true, true, true, true, true, true, true)

  /** The main thread of one worker process. */
  class Consumer {
    const name: string
    const sys: System

    constructor (name: string, sys: System)
      ensures this.name == name && this.sys == sys
    {
      this.name, this.sys := name, sys;
    }

    /** The process is live and about to make the next call for message `m`. */
    ghost predicate At(ph: Phase, batch: seq<nat>)
      reads this, sys
    {
      sys.Valid() && name in sys.s.workers && sys.s.workers[name] == Protocol.Worker(batch, ph)
    }

    ghost predicate Data(m: nat, msg: Msg)
      reads this, sys
    {
      m < |sys.s.store.stream| && sys.s.store.stream[m] == msg
    }

    /** What a call that returns leaves on record. */
    static ghost predicate Recorded(d: Store, ph: Phase, msg: Msg) {
      match ph
      case RollWrite(m) => Wrote(msg.dep, Deploying, ByRollback(m)) in d.hist
      case Build(m) => JobCreated(m, msg.dep, msg.image) in d.hist
      case FailWrite(m) => Wrote(msg.dep, Failed, ByHandler(m)) in d.hist
      case DlqAdd(_) => msg in d.dlq
      case ActiveAck(m) => m in d.acked
      case RollAck(m) => m in d.acked
      case BuildAck(m) => m in d.acked
      case DlqAck(m) => m in d.acked
      case _ => true
    }

    /** What a call of the handler leaves. */
    static lemma CallLeaves(s: State, w: string, ok: bool, applied: bool)
      requires Ledger(s.store) && HandsDelivered(s) && Enabled(s, Step(w, ok, applied)) && !s.workers[w].phase.Guard?
      ensures var ph, msg, t := s.workers[w].phase, WorkMsg(s, w), Apply(s, Step(w, ok, applied));
              var next := PhaseNext(ph, msg, false, ok);
              && w in t.workers
              && t.workers[w] == (if next.Some? then s.workers[w].(phase := next.value) else Worker([], Idle))
              && s.store.stream <= t.store.stream && s.store.acked <= t.store.acked
              && (ok ==> Recorded(t.store, ph, msg))
    {
      var ph, msg, t := s.workers[w].phase, WorkMsg(s, w), Apply(s, Step(w, ok, applied));
      assert InHand(s.workers[w], s.workers[w].phase.m);
      if ok && |t.store.hist| > |s.store.hist| { assert t.store.hist[|s.store.hist|] in t.store.hist; }
    }

    static lemma StillRecorded(d: Store, e: Store, ph: Phase, msg: Msg)
      requires Recorded(d, ph, msg) && System.Kept(d, e)
      ensures Recorded(e, ph, msg)
    {
    }

    /** An UPDATE that takes effect although the connection drops. */
    method FirstAttempt(m: nat, msg: Msg, ph: Phase, ghost batch: seq<nat>)
      requires At(ph, batch) && Data(m, msg) && ph != Idle && ph.m == m
      modifies sys
      ensures At(ph, batch) && old(sys.log) <= sys.log && Data(m, msg)
      ensures System.Kept(old(sys.s.store), sys.s.store)
    {
      hide Exec;
      sys.OthersRun(name);
      var dropped: bool := *;
      if dropped && PhaseCall(ph, msg).WriteRow? { sys.Do(Repeat(name)); }
    }

    /** One store call: the others run, then the call takes effect or not and returns or raises.
        An UPDATE is tried again if the connection drops, with the others running in between.
        The creation of a Job raises if there is one of that name. */
    method StoreCall(m: nat, msg: Msg, ph: Phase, ghost batch: seq<nat>, ok: bool) returns (raised: bool)
      requires At(ph, batch) && Data(m, msg) && ph != Idle && ph.m == m && !ph.Guard?
      modifies sys
      ensures sys.Valid() && old(sys.log) <= sys.log && Data(m, msg)
      ensures var next := PhaseNext(ph, msg, false, !raised);
              if next.Some? then At(next.value, batch) else At(Idle, [])
      ensures !raised ==> Recorded(sys.s.store, ph, msg)
      ensures System.Kept(old(sys.s.store), sys.s.store)
      ensures !ok ==> raised
      ensures ok && raised ==> ph.Build? && NameTaken(sys.s.store, msg.dep)
    {
      hide Exec, OutcomeInv, WorkersAfter, Ledger, HandsDelivered, PhaseNext, Perform, Recorded, NameTaken;
      FirstAttempt(m, msg, ph, batch);
      sys.OthersRun(name);
      var applied: bool := *;
      raised := !ok;
      if ok && !CallEnabled(sys.s.store, CallOf(sys.s, Step(name, ok, true))) {
        raised := true;  // HTTP 409
        NameWasTaken(sys.log, sys.s, m, msg.dep, msg.image);
      }
      applied := !raised || (applied && CallEnabled(sys.s.store, CallOf(sys.s, Step(name, false, true))));
      QueueInvReachable(sys.log, sys.s);
      CallLeaves(sys.s, name, !raised, applied);
      ghost var d := sys.s.store;
      sys.Do(Step(name, !raised, applied));
      if ok && raised { StillTaken(d, sys.s.store, msg.dep); }
    }

    /** `get_deployment`: the row as it is when the query runs. */
    method GetDeployment(m: nat, msg: Msg, ghost batch: seq<nat>, ok: bool) returns (row: Option<Row>, raised: bool)
      requires At(Guard(m), batch) && Data(m, msg)
      modifies sys
      ensures sys.Valid() && old(sys.log) <= sys.log && Data(m, msg) && (raised <==> !ok)
      ensures System.Kept(old(sys.s.store), sys.s.store)
      ensures row.Some? ==> GuardRead(m, row.value.state) in sys.s.store.hist
      ensures if raised then At(Idle, []) else
              var busy := row.Some? && row.value.state in {Building, Deploying, Running};
              At(if busy then ActiveAck(m) else if msg.rollback then RollWrite(m) else Build(m), batch)
    {
      hide Exec, QueueInv;
      sys.OthersRun(name);
      row := if msg.dep in sys.s.store.rows then Some(sys.s.store.rows[msg.dep]) else None;
      raised := !ok;
      sys.Do(Step(name, ok, true));
      if row.Some? { assert sys.s.store.hist[|sys.s.store.hist| - 1] == GuardRead(m, row.value.state); }
    }

    /** `add_to_dlq`: copy first, acknowledge second. */
    method AddToDlq(m: nat, msg: Msg, ghost batch: seq<nat>, e: Calls) returns (raised: bool)
      requires At(DlqAdd(m), batch) && Data(m, msg)
      modifies sys
      ensures sys.Valid() && old(sys.log) <= sys.log && Data(m, msg)
      ensures System.Kept(old(sys.s.store), sys.s.store)
      ensures raised <==> !(e.copy && e.dlqAck)
      ensures e.copy ==> msg in sys.s.store.dlq
      ensures if raised then At(Idle, []) else At(Idle, batch) && m in sys.s.store.acked
    {
      raised := StoreCall(m, msg, DlqAdd(m), batch, e.copy);
      if !raised { raised := StoreCall(m, msg, DlqAck(m), batch, e.dlqAck); }
    }

    /**
     `process_message`, given which of its calls return.  An incomplete message goes to the
     dead-letter stream.  One whose row was read as being built or served is acknowledged.  A
     rollback writes Deploying.  Any other message gets its Job and its monitor, or has
     Failed written and goes to the dead-letter stream, which happens when a call raises or a
     Job has the name.  It returns normally only after the message was acknowledged;
     otherwise an exception leaves it and the rest of the batch is dropped.
     */
    method ProcessMessage(m: nat, msg: Msg, ghost batch: seq<nat>, e: Calls)
      returns (raised: bool, seen: Option<RowState>, made: bool)
      requires At(Check(m), batch) && Data(m, msg)
      modifies sys
      ensures sys.Valid() && old(sys.log) <= sys.log && Data(m, msg) && System.Kept(old(sys.s.store), sys.s.store)
      ensures if raised then At(Idle, []) else At(Idle, batch) && m in sys.s.store.acked && Outcome(sys.s.store, m)
      ensures raised ==> e != ALL_RETURN
      ensures Processed(sys.s.store, m, msg, e, raised, seen, made)
    {
      raised, seen, made := Handle(m, msg, batch, e);
      QueueInvReachable(sys.log, sys.s);
    }

    /** What is on record afterwards, and whether an exception leaves the handler. */
    static ghost predicate Processed(d: Store, m: nat, msg: Msg, e: Calls, raised: bool, seen: Option<RowState>,
        made: bool) {
      if msg.dep == "" || msg.repo == "" || msg.image == "" then
        (raised <==> !(e.copy && e.dlqAck)) && (e.copy ==> msg in d.dlq)
      else if !e.read then raised
      else
        && (seen.Some? ==> GuardRead(m, seen.value) in d.hist)
        && if seen in {Some(Building), Some(Deploying), Some(Running)} then raised <==> !e.ack
           else Advanced(d, m, msg, e, raised, made)
    }

    static ghost predicate Advanced(d: Store, m: nat, msg: Msg, e: Calls, raised: bool, made: bool) {
      if msg.rollback then
        && (raised <==> !(e.write && e.ack))
        && (e.write ==> Wrote(msg.dep, Deploying, ByRollback(m)) in d.hist)
      else
        && (made ==> e.job && JobCreated(m, msg.dep, msg.image) in d.hist)
        && (e.job && !made ==> NameTaken(d, msg.dep))
        && if made && e.thread && e.ack then !raised
           else
             && (raised <==> !(e.fail && e.copy && e.dlqAck))
             && (e.fail ==> Wrote(msg.dep, Failed, ByHandler(m)) in d.hist)
             && (e.fail && e.copy ==> msg in d.dlq)
    }

    method Handle(m: nat, msg: Msg, ghost batch: seq<nat>, e: Calls)
      returns (raised: bool, seen: Option<RowState>, made: bool)
      requires At(Check(m), batch) && Data(m, msg)
      modifies sys
      ensures sys.Valid() && old(sys.log) <= sys.log && Data(m, msg) && System.Kept(old(sys.s.store), sys.s.store)
      ensures if raised then At(Idle, []) else At(Idle, batch) && m in sys.s.store.acked
      ensures Processed(sys.s.store, m, msg, e, raised, seen, made)
    {
      hide Exec, NameTaken, Advanced;
      seen, made := None, false;
      raised := StoreCall(m, msg, Check(m), batch, true);
      if msg.dep == "" || msg.repo == "" || msg.image == "" {
        raised := AddToDlq(m, msg, batch, e);
        return;
      }
      var row;
      row, raised := GetDeployment(m, msg, batch, e.read);
      if row.Some? { seen := Some(row.value.state); }
      if raised { return; }
      if row.Some? && InFlight(row.value.state) {
        raised := StoreCall(m, msg, ActiveAck(m), batch, e.ack);
        return;
      }
      raised, made := Advance(m, msg, batch, e);
    }

    /** Deploy or build, as the message asks. */
    method Advance(m: nat, msg: Msg, ghost batch: seq<nat>, e: Calls) returns (raised: bool, made: bool)
      requires At(if msg.rollback then RollWrite(m) else Build(m), batch) && Data(m, msg)
      modifies sys
      ensures sys.Valid() && old(sys.log) <= sys.log && Data(m, msg) && System.Kept(old(sys.s.store), sys.s.store)
      ensures if raised then At(Idle, []) else At(Idle, batch) && m in sys.s.store.acked
      ensures Advanced(sys.s.store, m, msg, e, raised, made)
    {
      hide Exec, NameTaken, PhaseNext;
      made := false;
      if msg.rollback {
        raised := AdvanceRollback(m, msg, batch, e);
      } else {
        raised, made := BuildImage(m, msg, batch, e);
      }
    }

    /** A rollback has its image: write Deploying, then acknowledge. */
    method AdvanceRollback(m: nat, msg: Msg, ghost batch: seq<nat>, e: Calls) returns (raised: bool)
      requires At(RollWrite(m), batch) && Data(m, msg)
      modifies sys
      ensures sys.Valid() && old(sys.log) <= sys.log && Data(m, msg)
      ensures System.Kept(old(sys.s.store), sys.s.store)
      ensures raised <==> !(e.write && e.ack)
      ensures e.write ==> Wrote(msg.dep, Deploying, ByRollback(m)) in sys.s.store.hist
      ensures if raised then At(Idle, []) else At(Idle, batch) && m in sys.s.store.acked
    {
      raised := StoreCall(m, msg, RollWrite(m), batch, e.write);
      if !raised { raised := StoreCall(m, msg, RollAck(m), batch, e.ack); }
    }

    /** Clone, detect, create the Job, start the monitor, acknowledge; one handler for all exceptions. */
    method BuildImage(m: nat, msg: Msg, ghost batch: seq<nat>, e: Calls) returns (raised: bool, made: bool)
      requires At(Build(m), batch) && Data(m, msg)
      modifies sys
      ensures sys.Valid() && old(sys.log) <= sys.log && Data(m, msg)
      ensures System.Kept(old(sys.s.store), sys.s.store)
      ensures made ==> e.job && JobCreated(m, msg.dep, msg.image) in sys.s.store.hist
      ensures e.job && !made ==> NameTaken(sys.s.store, msg.dep)
      ensures if made && e.thread && e.ack then !raised
              else
                && (raised <==> !(e.fail && e.copy && e.dlqAck))
                && (e.fail ==> Wrote(msg.dep, Failed, ByHandler(m)) in sys.s.store.hist)
                && (e.fail && e.copy ==> msg in sys.s.store.dlq)
      ensures if raised then At(Idle, []) else At(Idle, batch) && m in sys.s.store.acked
    {
      hide Exec, NameTaken;
      raised := StoreCall(m, msg, Build(m), batch, e.job);
      made := !raised;
      ghost var d := sys.s.store;
      if !raised { raised := StoreCall(m, msg, Spawn(m), batch, e.thread); }
      if !raised { raised := StoreCall(m, msg, BuildAck(m), batch, e.ack); }
      if raised { raised := HandleException(m, msg, batch, e); }
      if e.job && !made { StillTaken(d, sys.s.store, msg.dep); }
    }

    /** Record the failure in the row, then move the message to the dead-letter stream. */
    method HandleException(m: nat, msg: Msg, ghost batch: seq<nat>, e: Calls) returns (raised: bool)
      requires At(FailWrite(m), batch) && Data(m, msg)
      modifies sys
      ensures sys.Valid() && old(sys.log) <= sys.log && Data(m, msg)
      ensures System.Kept(old(sys.s.store), sys.s.store)
      ensures raised <==> !(e.fail && e.copy && e.dlqAck)
      ensures e.fail ==> Wrote(msg.dep, Failed, ByHandler(m)) in sys.s.store.hist
      ensures e.fail && e.copy ==> msg in sys.s.store.dlq
      ensures if raised then At(Idle, []) else At(Idle, batch) && m in sys.s.store.acked
    {
      raised := StoreCall(m, msg, FailWrite(m), batch, e.fail);
      if !raised { raised := AddToDlq(m, msg, batch, e); }
    }

    /** Handle the first message in hand. */
    method ProcessNext(es: nat -> Calls) returns (m: nat, raised: bool)
      requires sys.Valid() && name in sys.s.workers && sys.s.workers[name].phase == Idle
      requires sys.s.workers[name].batch != []
      modifies sys
      ensures m == old(sys.s.workers)[name].batch[0]
      ensures At(Idle, if raised then [] else old(sys.s.workers)[name].batch[1..])
      ensures old(sys.log) <= sys.log && System.Kept(old(sys.s.store), sys.s.store)
      ensures !raised ==> m in sys.s.store.acked
      ensures raised ==> es(m) != ALL_RETURN
    {
      hide Exec, QueueInv, Processed;
      ghost var rest := sys.s.workers[name].batch[1..];
      m := sys.s.workers[name].batch[0];
      InHandIsSent(sys.log, sys.s, name, m);
      var msg := sys.s.store.stream[m];
      sys.Do(Begin(name));
      var seen, made;
      raised, seen, made := ProcessMessage(m, msg, rest, es(m));
    }

    /** Process the messages in hand one by one, until an exception drops the rest; those that
        were `handled` are acknowledged. */
    method ProcessBatch(es: nat -> Calls) returns (handled: seq<nat>, raised: bool)
      requires sys.Valid() && name in sys.s.workers && sys.s.workers[name].phase == Idle
      modifies sys
      ensures At(Idle, []) && old(sys.log) <= sys.log && System.Kept(old(sys.s.store), sys.s.store)
      ensures handled <= old(sys.s.workers)[name].batch
      ensures !raised ==> handled == old(sys.s.workers)[name].batch
      ensures raised ==> |handled| < |old(sys.s.workers)[name].batch|
                         && es(old(sys.s.workers)[name].batch[|handled|]) != ALL_RETURN
      ensures forall m | m in handled :: m in sys.s.store.acked
    {
      hide Exec;
      handled, raised := [], false;
      ghost var all := sys.s.workers[name].batch;
      while !raised && sys.s.workers[name].batch != []
        invariant sys.Valid() && old(sys.log) <= sys.log && System.Kept(old(sys.s.store), sys.s.store)
        invariant name in sys.s.workers && sys.s.workers[name].phase == Idle
        invariant |handled| <= |all| && handled == all[..|handled|]
        invariant sys.s.workers[name].batch == if raised then [] else all[|handled|..]
        invariant raised ==> |handled| < |all| && es(all[|handled|]) != ALL_RETURN
        invariant forall m | m in handled :: m in sys.s.store.acked
        decreases |sys.s.workers[name].batch|
      {
        var m;
        m, raised := ProcessNext(es);
        assert m == all[|handled|];
        if !raised { handled := handled + [m]; }
      }
    }

    /**
     One turn of the consumer loop: the messages of the sweep that are still pending are
     taken over and handled first, then up to five new ones; an exception anywhere ends the
     turn.  After one without, all of these are acknowledged, and fewer than five were new
     only if every message that was there when the turn began has been delivered.
     */
    method Turn(swept: seq<nat>, es: nat -> Calls, lostClaim: bool, lostRead: bool)
      returns (raised: bool, took: seq<nat>, got: seq<nat>)
      requires At(Idle, []) && forall m | m in swept :: m < sys.s.store.delivered
      modifies sys
      ensures At(Idle, []) && old(sys.log) <= sys.log
      ensures QueueInv(sys.s) && ImageInv(sys.s)
      ensures forall m | m in swept :: m in took || m in sys.s.store.acked
      ensures !raised ==> (forall m | m in took + got :: m in sys.s.store.acked) && |got| <= 5
      ensures !raised && |got| < 5 ==> |old(sys.s.store.stream)| <= sys.s.store.delivered
      ensures raised ==> lostClaim || lostRead || exists m | m in took + got :: es(m) != ALL_RETURN
    {
      hide Exec, QueueInv, ImageInv;
      took, got := [], [];
      raised, took := SweepHandled(swept, es, lostClaim);
      if !raised { raised, got := NewHandled(es, lostRead); }
      assert forall m | m in took || m in got :: m in took + got;
      QueueInvReachable(sys.log, sys.s);
      ImageInvReachable(sys.log, sys.s);
    }

    /** The first half of a turn. */
    method SweepHandled(swept: seq<nat>, es: nat -> Calls, lost: bool) returns (raised: bool, took: seq<nat>)
      requires At(Idle, []) && forall m | m in swept :: m < sys.s.store.delivered
      modifies sys
      ensures At(Idle, []) && old(sys.log) <= sys.log && System.Kept(old(sys.s.store), sys.s.store)
      ensures forall m | m in swept :: m in took || m in sys.s.store.acked
      ensures !raised ==> forall m | m in took :: m in sys.s.store.acked
      ensures raised ==> lost || exists m | m in took :: es(m) != ALL_RETURN
    {
      hide Exec;
      sys.OthersRun(name);
      took := StillPending(swept);
      sys.Do(Claim(name, took, lost));
      var handled;
      handled, raised := ProcessBatch(es);
      raised := raised || lost;
    }

    /** The entries of the sweep's list that XAUTOCLAIM finds pending. */
    method StillPending(swept: seq<nat>) returns (took: seq<nat>)
      requires sys.Valid() && forall m | m in swept :: m < sys.s.store.delivered
      ensures forall m | m in took :: m in sys.s.store.pending
      ensures forall m | m in swept :: m in took || m in sys.s.store.acked
    {
      took := [];
      QueueInvReachable(sys.log, sys.s);
      for j := 0 to |swept|
        invariant forall m | m in took :: m in sys.s.store.pending
        invariant forall m | m in swept[..j] :: m in took || m in sys.s.store.acked
      {
        assert swept[..j + 1] == swept[..j] + [swept[j]] && swept[j] in swept;
        if swept[j] in sys.s.store.pending { took := took + [swept[j]]; }
      }
      assert swept[..|swept|] == swept;
    }

    /** The second half. */
    method NewHandled(es: nat -> Calls, lost: bool) returns (raised: bool, got: seq<nat>)
      requires At(Idle, [])
      modifies sys
      ensures At(Idle, []) && old(sys.log) <= sys.log && System.Kept(old(sys.s.store), sys.s.store)
      ensures |got| <= 5 && (|got| < 5 ==> |old(sys.s.store.stream)| <= sys.s.store.delivered)
      ensures !raised ==> forall m | m in got :: m in sys.s.store.acked
      ensures raised ==> lost || exists m | m in got :: es(m) != ALL_RETURN
    {
      hide Exec;
      sys.OthersRun(name);
      QueueInvReachable(sys.log, sys.s);
      var left := |sys.s.store.stream| - sys.s.store.delivered;
      var k := if left < 5 then left else 5;
      got := Span(sys.s.store.delivered, k);
      sys.Do(Deliver(name, k, lost));
      var handled;
      handled, raised := ProcessBatch(es);
      raised := raised || lost;
    }
  }

  lemma InHandIsSent(acts: seq<Action>, s: State, w: string, m: nat)
    requires Exec(INIT, acts) == Some(s) && w in s.workers && InHand(s.workers[w], m)
    ensures m < |s.store.stream|
  {
    QueueInvReachable(acts, s);
  }

  /** Some Job was created for an id with the same first eight characters. */
  ghost predicate NameTaken(d: Store, dep: string) {
    exists m, other, image :: JobCreated(m, other, image) in d.hist && JobKey(other) == JobKey(dep)
  }

  lemma NameWasTaken(acts: seq<Action>, s: State, m: nat, dep: string, image: string)
    requires Exec(INIT, acts) == Some(s) && !CallEnabled(s.store, MakeJob(m, dep, image))
    ensures NameTaken(s.store, dep)
  {
    HistoryInvReachable(acts, s);
    ImageInvReachable(acts, s);
    var job := s.store.jobs[JobKey(dep)];
    assert Made(s.store.hist, job.dep, job.image);
    var n :| JobCreated(n, job.dep, job.image) in s.store.hist;
  }

  lemma StillTaken(d: Store, e: Store, dep: string)
    requires NameTaken(d, dep) && System.Kept(d, e)
    ensures NameTaken(e, dep)
  {
    var m, other, image :| JobCreated(m, other, image) in d.hist && JobKey(other) == JobKey(dep);
    assert JobCreated(m, other, image) in e.hist;
  }

  /** Which of the calls of one monitor return, and what the scan answers; None if something
      raises before the scan is asked about. */
  datatype Watch = Watch(
    pod: bool,
    building: bool,    // the write of Building
    polls: seq<bool>,  // of the Job
    scan: Option<seq<ScanGate.Answer>>,
    last: bool,        // the write of the outcome
    fail: bool,        // the write of Failed in the outer exception handler
    delete: bool)

  /** What the monitor found out. */
  datatype Learned = Polling | Raised | BuildFailed | Blocked | Passed

  /** The thread that follows one build Job. */
  class MonitorThread {
    const i: nat
    const sys: System

    constructor (i: nat, sys: System)
      ensures this.i == i && this.sys == sys
    {
      this.i, this.sys := i, sys;
    }

    ghost predicate At(mon: Mon, ph: MonPhase)
      reads this, sys
    {
      sys.Valid() && i in sys.s.mons && sys.s.mons[i] == mon.(phase := ph)
    }

    /** The row this monitor writes is in this state, if it is there. */
    ghost predicate RowIs(mon: Mon, st: RowState)
      reads this, sys
    {
      mon.dep in sys.s.store.rows ==> sys.s.store.rows[mon.dep].state == st
    }

    /** What a call leaves whose only outcomes are to return or to raise. */
    static lemma CallLeaves(s: State, i: nat, ok: bool, applied: bool)
      requires Enabled(s, MonStep(i, ok, applied)) && s.mons[i].phase !in {AwaitJob, Gate, Cleanup}
      ensures var t, c := Apply(s, MonStep(i, ok, applied)), MonCall(s.mons[i]);
              && i in t.mons && t.mons[i] == s.mons[i].(phase := MonNext(s.mons[i].phase, None, ok).value)
              && (ok && c.WriteRow? ==>
                    && Wrote(s.mons[i].dep, c.state, ByMonitor) in t.store.hist
                    && (s.mons[i].dep in t.store.rows ==> t.store.rows[s.mons[i].dep].state == c.state))
    {
      hide PhaseNext, PhaseCall, ReqsAfter, CtrlAfter, WorkersAfter;
      var t := Apply(s, MonStep(i, ok, applied));
      if ok && MonCall(s.mons[i]).WriteRow? { assert t.store.hist[|s.store.hist|] in t.store.hist; }
    }

    /** What comes before it: the others, and an UPDATE that takes effect although the connection drops. */
    method FirstAttempt(mon: Mon, ph: MonPhase)
      requires At(mon, ph) && ph !in {AwaitJob, Gate, Cleanup}
      modifies sys
      ensures At(mon, ph) && old(sys.log) <= sys.log && System.Kept(old(sys.s.store), sys.s.store)
    {
      hide Exec, MonNext, PhaseNext, PhaseCall, ReqsAfter, CtrlAfter, WorkersAfter;
      sys.OthersWhileMonitored(i);
      var dropped: bool := *;
      if dropped && MonCall(mon.(phase := ph)).WriteRow? {
        sys.Do(MonRepeat(i));
        sys.OthersWhileMonitored(i);
      }
    }

    /** Such a call; an UPDATE may be repeated. */
    method StoreCall(mon: Mon, ph: MonPhase, ok: bool) returns (raised: bool)
      requires At(mon, ph) && ph !in {AwaitJob, Gate, Cleanup}
      modifies sys
      ensures old(sys.log) <= sys.log && At(mon, MonNext(ph, None, ok).value) && (raised <==> !ok)
      ensures System.Kept(old(sys.s.store), sys.s.store)
      ensures ok && MonCall(mon.(phase := ph)).WriteRow? ==>
                var st := MonCall(mon.(phase := ph)).state;
                Wrote(mon.dep, st, ByMonitor) in sys.s.store.hist && RowIs(mon, st)
    {
      hide Exec, MonNext, Perform, PhaseNext, PhaseCall, ReqsAfter, CtrlAfter, WorkersAfter;
      FirstAttempt(mon, ph);
      var applied: bool := *;
      raised := !ok;
      MonEnabled(sys.s, i, ok, applied || ok);
      CallLeaves(sys.s, i, ok, applied || ok);
      sys.Do(MonStep(i, ok, applied || ok));
    }

    static lemma MonEnabled(s: State, i: nat, ok: bool, applied: bool)
      requires i in s.mons && (ok ==> applied) && s.mons[i].phase != Gate
      ensures Enabled(s, MonStep(i, ok, applied))
    {
    }

    /** The scan gate: what comes before it may raise; then the answers of the scan decide. */
    method ScanImage(mon: Mon, scan: Option<seq<ScanGate.Answer>>) returns (passed: bool, raised: bool)
      requires At(mon, Gate) && (scan.Some? ==> |scan.value| >= 12)
      modifies sys
      ensures old(sys.log) <= sys.log && System.Kept(old(sys.s.store), sys.s.store)
      ensures At(mon, if raised then FailOuter else if passed then WriteDeploying else FailInner)
      ensures raised <==> scan.None?
      ensures scan.Some? ==> (passed <==> !ScanGate.Blocked(scan.value))
      ensures passed ==> !raised && GatePassed(mon.image) in sys.s.store.hist
    {
      hide Exec;
      sys.OthersWhileMonitored(i);
      raised := scan.None?;
      if raised {
        sys.Do(MonStep(i, false, false));
        return false, true;
      }
      var attempts;
      passed, attempts := ScanGate.Gate(scan.value);
      sys.Do(MonGate(i, scan.value));
      if passed { assert sys.s.store.hist[|sys.s.store.hist| - 1] == GatePassed(mon.image); }
    }

    /** `read_namespaced_job`.  The Job of a live monitor is there. */
    method ReadJob(mon: Mon, ok: bool) returns (job: Option<Job>, raised: bool)
      requires At(mon, AwaitJob)
      modifies sys
      ensures old(sys.log) <= sys.log && System.Kept(old(sys.s.store), sys.s.store) && (raised <==> !ok)
      ensures job.Some? && job.value.dep == mon.dep && job.value.image == mon.image
      ensures job.value.status == Succeeded ==> JobSucceeded(mon.image) in sys.s.store.hist
      ensures job.value.status == Broken ==> JobFailed(mon.image) in sys.s.store.hist
      ensures At(mon, if raised then FailOuter
                      else match job.value.status
                           case Active => AwaitJob
                           case Succeeded => Gate
                           case Broken => FailInner)
    {
      hide Exec;
      sys.OthersWhileMonitored(i);
      job := JobOf(sys.s.store, mon.dep);
      raised := !ok;
      WatchedJob(sys.log, sys.s, i);
      sys.Do(MonStep(i, ok, ok));
    }

    /** The `finally` clause: delete the Job, whatever comes of it. */
    method Finally(mon: Mon, ok: bool)
      requires At(mon, Cleanup)
      modifies sys
      ensures sys.Valid() && old(sys.log) <= sys.log && i !in sys.s.mons && System.Kept(old(sys.s.store), sys.s.store)
      ensures ok ==> JobKey(mon.dep) !in sys.s.store.jobs
    {
      sys.OthersWhileMonitored(i);
      sys.Do(MonStep(i, ok, ok));
    }

    /** Wait for the pod, then write Building. */
    method AwaitStart(mon: Mon, e: Watch) returns (raised: bool)
      requires At(mon, AwaitPod)
      modifies sys
      ensures old(sys.log) <= sys.log && System.Kept(old(sys.s.store), sys.s.store)
      ensures raised <==> !(e.pod && e.building)
      ensures !raised ==> Wrote(mon.dep, Building, ByMonitor) in sys.s.store.hist && RowIs(mon, Building)
      ensures At(mon, if raised then FailOuter else AwaitJob)
    {
      raised := StoreCall(mon, AwaitPod, e.pod);
      if !raised { raised := StoreCall(mon, WriteBuilding, e.building); }
    }

    /** Poll the Job until it has ended or the read raises, or as often as it is granted. */
    method AwaitEnd(mon: Mon, polls: seq<bool>) returns (status: JobStatus, raised: bool)
      requires At(mon, AwaitJob)
      modifies sys
      ensures old(sys.log) <= sys.log && System.Kept(old(sys.s.store), sys.s.store)
      ensures raised ==> false in polls && At(mon, FailOuter)
      ensures !raised && status == Active ==> false !in polls && At(mon, AwaitJob)
      ensures !raised && status == Succeeded ==> JobSucceeded(mon.image) in sys.s.store.hist && At(mon, Gate)
      ensures !raised && status == Broken ==> JobFailed(mon.image) in sys.s.store.hist && At(mon, FailInner)
    {
      hide Exec;
      status, raised := Active, false;
      var k := 0;
      while k < |polls| && !raised && status == Active
        invariant 0 <= k <= |polls|
        invariant old(sys.log) <= sys.log && System.Kept(old(sys.s.store), sys.s.store)
        invariant raised ==> false in polls && At(mon, FailOuter)
        invariant !raised ==> false !in polls[..k]
        invariant !raised && status == Active ==> At(mon, AwaitJob)
        invariant !raised && status == Succeeded ==> JobSucceeded(mon.image) in sys.s.store.hist && At(mon, Gate)
        invariant !raised && status == Broken ==> JobFailed(mon.image) in sys.s.store.hist && At(mon, FailInner)
      {
        var job;
        job, raised := ReadJob(mon, polls[k]);
        assert polls[..k + 1] == polls[..k] + [polls[k]];
        status := job.value.status;
        k := k + 1;
      }
      assert k == |polls| ==> polls[..k] == polls;
    }

    /** The Job has ended: the scan gate and the last write of the row. */
    method Conclude(mon: Mon, succeeded: bool, e: Watch) returns (learned: Learned, raised: bool)
      requires At(mon, if succeeded then Gate else FailInner) && (e.scan.Some? ==> |e.scan.value| >= 12)
      modifies sys
      ensures old(sys.log) <= sys.log && System.Kept(old(sys.s.store), sys.s.store)
      ensures At(mon, if raised then FailOuter else Cleanup)
      ensures learned == if !succeeded then BuildFailed
                         else if e.scan.None? then Learned.Raised
                         else if ScanGate.Blocked(e.scan.value) then Blocked else Passed
      ensures raised <==> (learned == Learned.Raised || !e.last)
      ensures learned == Passed ==> GatePassed(mon.image) in sys.s.store.hist
      ensures !raised ==>
                var st := if learned == Passed then Deploying else Failed;
                Wrote(mon.dep, st, ByMonitor) in sys.s.store.hist && RowIs(mon, st)
    {
      hide Exec, ScanGate.Blocked;
      if succeeded {
        var passed;
        passed, raised := ScanImage(mon, e.scan);
        learned := if raised then Learned.Raised else if passed then Passed else Blocked;
        if !raised { raised := StoreCall(mon, if passed then WriteDeploying else FailInner, e.last); }
      } else {
        learned := BuildFailed;
        raised := StoreCall(mon, FailInner, e.last);
      }
    }

    /** The `try` block. */
    method Follow(mon: Mon, e: Watch) returns (learned: Learned, raised: bool)
      requires At(mon, AwaitPod) && (e.scan.Some? ==> |e.scan.value| >= 12)
      modifies sys
      ensures old(sys.log) <= sys.log && System.Kept(old(sys.s.store), sys.s.store)
      ensures At(mon, if learned == Polling then AwaitJob else if raised then FailOuter else Cleanup)
      ensures learned == Polling ==> e.pod && e.building && false !in e.polls && !raised
      ensures e.pod && e.building ==> Wrote(mon.dep, Building, ByMonitor) in sys.s.store.hist
      ensures !(e.pod && e.building) ==> learned == Learned.Raised
      ensures learned == Learned.Raised ==> !(e.pod && e.building) || false in e.polls || e.scan.None?
      ensures learned == BuildFailed ==> JobFailed(mon.image) in sys.s.store.hist
      ensures learned in {Blocked, Passed} ==>
                JobSucceeded(mon.image) in sys.s.store.hist && e.scan.Some?
                && (learned == Blocked <==> ScanGate.Blocked(e.scan.value))
      ensures learned == Passed ==> GatePassed(mon.image) in sys.s.store.hist
      ensures learned != Polling ==> (raised <==> learned == Learned.Raised || !e.last)
      ensures learned in {BuildFailed, Blocked, Passed} && !raised ==>
                Wrote(mon.dep, if learned == Passed then Deploying else Failed, ByMonitor) in sys.s.store.hist
    {
      hide Exec, ScanGate.Blocked;
      learned := Learned.Raised;
      raised := AwaitStart(mon, e);
      if raised { return; }
      var status;
      status, raised := AwaitEnd(mon, e.polls);
      if raised { return; }
      if status == Active { return Polling, false; }
      learned, raised := Conclude(mon, status == Succeeded, e);
    }

    /**
     `monitor_job`, given which of its calls return.  What it learned decides the last state it
     `recorded`: Deploying for an image that the gate let through, Failed otherwise; if that
     write raises, and in every other case, the outer handler tries to record Failed.  Then it
     deletes the Job.  The poll of the Job has no limit of its own: the thread gets as many
     reads as `polls` holds, and may be left polling.
     */
    method MonitorJob(mon: Mon, e: Watch) returns (learned: Learned, recorded: Option<RowState>)
      requires At(mon, AwaitPod) && (e.scan.Some? ==> |e.scan.value| >= 12)
      modifies sys
      ensures sys.Valid() && old(sys.log) <= sys.log && System.Kept(old(sys.s.store), sys.s.store)
      ensures if learned == Polling then At(mon, AwaitJob) else i !in sys.s.mons
      ensures learned == Polling ==> e.pod && e.building && false !in e.polls && recorded == None
      ensures e.pod && e.building ==> Wrote(mon.dep, Building, ByMonitor) in sys.s.store.hist
      ensures !(e.pod && e.building) ==> learned == Learned.Raised
      ensures learned == Learned.Raised ==> !(e.pod && e.building) || false in e.polls || e.scan.None?
      ensures learned == BuildFailed ==> JobFailed(mon.image) in sys.s.store.hist
      ensures learned in {Blocked, Passed} ==>
                JobSucceeded(mon.image) in sys.s.store.hist && e.scan.Some?
                && (learned == Blocked <==> ScanGate.Blocked(e.scan.value))
      ensures learned == Passed ==> GatePassed(mon.image) in sys.s.store.hist
      ensures learned != Polling ==>
                recorded == if learned == Passed && e.last then Some(Deploying)
                            else if (learned in {BuildFailed, Blocked} && e.last) || e.fail then Some(Failed)
                            else None
      ensures recorded.Some? ==> Wrote(mon.dep, recorded.value, ByMonitor) in sys.s.store.hist
      ensures learned != Polling && e.delete ==> JobKey(mon.dep) !in sys.s.store.jobs
    {
      hide Exec, ScanGate.Blocked, JobKey;
      var raised;
      learned, raised := Follow(mon, e);
      if learned == Polling { return learned, None; }
      recorded := if raised then None else Some(if learned == Passed then Deploying else Failed);
      if raised {
        raised := StoreCall(mon, FailOuter, e.fail);
        if !raised { recorded := Some(Failed); }
      }
      Finally(mon, e.delete);
    }
  }

  /** The Job of a live monitor is in the namespace, and its end is on record. */
  lemma WatchedJob(acts: seq<Action>, s: State, i: nat)
    requires Exec(INIT, acts) == Some(s) && i in s.mons
    ensures var mon, job := s.mons[i], JobOf(s.store, s.mons[i].dep);
            && job.Some? && job.value.dep == mon.dep && job.value.image == mon.image
            && (job.value.status == Succeeded ==> JobSucceeded(mon.image) in s.store.hist)
            && (job.value.status == Broken ==> JobFailed(mon.image) in s.store.hist)
  {
    ImageInvReachable(acts, s);
    assert MonOk(s.store, s.mons[i]);
  }
}
