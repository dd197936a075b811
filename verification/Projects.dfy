/**
 The life of a project: the API creates and deletes, the controller's ticks provision,
 repair, and clean up.  A tick reads all rows first and then takes its turns on that copy.
 */
module Projects {
  import opened Wrappers

  datatype Status = Provisioning | Ready | Terminating | Failed

  datatype Project = Project(status: Status, deleted: bool)

  datatype Event =
    | Checked(id: string, seen: bool)                      // the namespace, as the controller found it
    | Wrote(id: string, was: Status, now: Status)          // by the controller
    | Deleted(id: string, was: Status)                     // set to Terminating by a delete request
    | Removed(id: string, row: Project)

  datatype State = State(
    rows: map<string, Project>,
    ids: set<string>,                        // ever used; ids are random
    admitted: map<nat, string>,              // delete requests past their access check, with their project
    turns: Option<map<string, Project>>,     // in a tick: the rows as read, whose turn is to come
    spoiled: Option<string>,                 // the project that left the tick's transaction aborted
    drift: nat,
    hist: seq<Event>)

  const INIT := State(map[], {}, map[], None, None, 0, [])

  /** How a statement ends: fine, or with an error, in effect or not. */
  datatype Write = Fine | Broken(applied: bool)

  predicate Takes(w: Write) { w.Fine? || w.applied }

  /** What a project's turn meets. */
  datatype Env = Env(
    early: bool,          // something raises before the namespace is checked
    seen: Option<bool>,   // the check; None if it raises
    cluster: bool,        // deleting the namespace, or reading the deployments, does not raise
    write: Write,         // the UPDATE or DELETE and its commit
    failWrite: Write,     // the UPDATE to Failed, on a connection of its own
    swallowed: bool)      // the UPDATE of a deployment fails, and `reconcile_deployments` logs that only

  /** None of the project's own calls fails. */
  predicate Smooth(e: Env) { !e.early && e.seen.Some? && e.cluster && e.write.Fine? }

  datatype Verdict = Nothing | Move(to: Status) | Drop | Error

  /** What the controller decides to do, from the status it read.  In an aborted transaction
      every statement raises, the SELECT of the deployments too. */
  function Decide(st: Status, e: Env, aborted: bool): Verdict {
    if e.early then Error
    else match st
      case Failed => Nothing
      case Provisioning =>
        if e.seen.None? then Error else if e.seen.value then Statement(Move(Ready), aborted) else Nothing
      case Terminating =>
        if e.seen.None? then Error
        else if !e.seen.value then Statement(Drop, aborted)
        else if e.cluster then Nothing else Error
      case Ready =>
        if e.seen.None? then Error
        else if !e.seen.value then Statement(Move(Provisioning), aborted)
        else if e.cluster then Statement(Nothing, aborted) else Error
  }

  function Statement(v: Verdict, aborted: bool): Verdict { if aborted then Error else v }

  /** What the turn leaves of the transaction: all of them commit or roll back, but those of
      a failed project, which use it for nothing, and of a Ready one. */
  function LeavesSpoiled(spoiled: Option<string>, id: string, st: Status, e: Env): Option<string> {
    if st == Failed && !e.early then spoiled
    else if st == Ready && Decide(st, e, spoiled.Some?) == Nothing && e.swallowed then Some(id)
    else None
  }

  datatype Action =
    | Create(id: string)
    | Admit(r: nat, id: string)  // a delete request passes `verify_project_access`
    | Delete(r: nat)             // and runs its UPDATE
    | StartTick
    | Turn(id: string, env: Env)
    | EndTick              // the loop is over, or the controller died

  /** An UPDATE of the status; it matches nothing if the row is gone. */
  function SetStatus(s: State, id: string, to: Status): State {
    if id in s.rows then
      s.(rows := s.rows[id := s.rows[id].(status := to)], hist := s.hist + [Wrote(id, s.rows[id].status, to)])
    else s
  }

  function RemoveRow(s: State, id: string): State {
    if id in s.rows then s.(rows := s.rows - {id}, hist := s.hist + [Removed(id, s.rows[id])]) else s
  }

  /** The namespace is checked; one that a Ready project misses is counted at once. */
  function Look(s: State, id: string, st: Status, e: Env): State {
    if e.early || st == Failed || e.seen.None? then s
    else s.(hist := s.hist + [Checked(id, e.seen.value)],
            drift := if st == Ready && !e.seen.value then s.drift + 1 else s.drift)
  }

  /** The verdict's own write, as far as it takes effect. */
  function Act(s: State, id: string, v: Verdict, w: Write): State {
    if !Takes(w) then s
    else match v
      case Move(to) => SetStatus(s, id, to)
      case Drop => RemoveRow(s, id)
      case _ => s
  }

  predicate Erred(v: Verdict, w: Write) { v == Error || ((v.Move? || v.Drop?) && !w.Fine?) }

  /** One project's turn, with the status `st` that the tick read. */
  function TakeTurn(s: State, id: string, st: Status, e: Env): State {
    var v := Decide(st, e, s.spoiled.Some?);
    var acted := Act(Look(s, id, st, e), id, v, e.write);
    var ended := if Erred(v, e.write) && Takes(e.failWrite) then SetStatus(acted, id, Failed) else acted;
    ended.(spoiled := LeavesSpoiled(s.spoiled, id, st, e))
  }

  predicate Enabled(s: State, a: Action) {
    match a
    case Create(id) => id !in s.ids
    case Admit(r, id) => r !in s.admitted && id in s.rows && !s.rows[id].deleted
    case Delete(r) => r in s.admitted
    case StartTick => s.turns.None?
    case Turn(id, _) => s.turns.Some? && id in s.turns.value
    case EndTick => s.turns.Some?
  }

  function Apply(s: State, a: Action): State
    requires Enabled(s, a)
  {
    match a
    case Create(id) => s.(rows := s.rows[id := Project(Provisioning, false)], ids := s.ids + {id})
    case Admit(r, id) => s.(admitted := s.admitted[r := id])
    case Delete(r) =>
      var id, u := s.admitted[r], s.(admitted := s.admitted - {r});
      if id in s.rows then
        u.(rows := s.rows[id := Project(Terminating, true)], hist := s.hist + [Deleted(id, s.rows[id].status)])
      else u
    case StartTick => s.(turns := Some(s.rows), spoiled := None)  // with a new connection
    case Turn(id, e) =>
      var st := s.turns.value[id].status;
      TakeTurn(s.(turns := Some(s.turns.value - {id})), id, st, e)
    case EndTick => s.(turns := None, spoiled := None)
  }

  function Exec(acts: seq<Action>): Option<State> {
    if acts == [] then Some(INIT)
    else
      var s := Exec(acts[..|acts| - 1]);
      if s.Some? && Enabled(s.value, acts[|acts| - 1]) then Some(Apply(s.value, acts[|acts| - 1])) else None
  }

  /** No API write lands inside a tick. */
  predicate Apart(acts: seq<Action>) {
    acts == [] ||
    var s := Exec(acts[..|acts| - 1]);
    var a := acts[|acts| - 1];
    Apart(acts[..|acts| - 1]) && (s.Some? && (a.Create? || a.Delete?) ==> s.value.turns.None?)
  }

  // ---------------------------------------------------------------- what the history shows

  /** One entry of the history is as it should be, given the entry before it. */
  predicate Lawful(h: seq<Event>, k: nat)
    requires k < |h|
  {
    match h[k]
    case Checked(_, _) | Deleted(_, _) => true
    case Wrote(id, was, now) =>
      (match now
       case Ready => was == Provisioning && k > 0 && h[k - 1] == Checked(id, true)
       case Provisioning => was == Ready && k > 0 && h[k - 1] == Checked(id, false)
       case Terminating => false
       case Failed => true)
    case Removed(id, row) => row == Project(Terminating, true) && k > 0 && h[k - 1] == Checked(id, false)
  }

  ghost predicate AllLawful(h: seq<Event>) { forall k | 0 <= k < |h| :: Lawful(h, k) }

  /** The tick's copy agrees with the rows; only deleted projects terminate. */
  ghost predicate LifeInv(s: State) {
    && AllLawful(s.hist)
    && s.rows.Keys <= s.ids
    && (s.turns.Some? ==> forall id | id in s.turns.value :: id in s.rows && s.turns.value[id] == s.rows[id])
    && (forall id | id in s.rows && s.rows[id].status == Terminating :: s.rows[id].deleted)
  }

  lemma LawfulMore(h: seq<Event>, e: Event)
    requires AllLawful(h) && Lawful(h + [e], |h|)
    ensures AllLawful(h + [e])
  {
    forall k | 0 <= k < |h| ensures Lawful(h + [e], k) { assert Lawful(h, k); }
  }

  /** The rows of other projects are not touched, nor the requests, nor the rest of the tick's copy. */
  predicate Local(s: State, t: State, id: string) {
    && t.ids == s.ids && t.admitted == s.admitted && t.turns == s.turns && t.rows.Keys <= s.rows.Keys
    && (forall x | x in s.rows && x != id :: x in t.rows && t.rows[x] == s.rows[x])
    && (id in t.rows ==> t.rows[id].deleted == s.rows[id].deleted)
    && (id in t.rows ==> t.rows[id].status in {s.rows[id].status, Ready, Provisioning, Failed})
  }

  lemma ActIsLocal(s: State, id: string, v: Verdict, w: Write)
    requires v.Move? ==> v.to in {Ready, Provisioning}
    ensures Local(s, Act(s, id, v, w), id)
  {
  }

  lemma MovesTo(st: Status, e: Env, aborted: bool)
    ensures Decide(st, e, aborted).Move? ==> Decide(st, e, aborted).to in {Ready, Provisioning}
  {
  }

  lemma EndIsLocal(s: State, u: State, id: string, spoiled: Option<string>)
    requires Local(s, u, id)
    ensures Local(s, u.(spoiled := spoiled), id) && Local(s, SetStatus(u, id, Failed).(spoiled := spoiled), id)
  {
  }

  lemma TurnIsLocal(s: State, id: string, st: Status, e: Env)
    ensures Local(s, TakeTurn(s, id, st, e), id)
  {
    hide Decide, LeavesSpoiled, Erred, Takes, SetStatus;
    var v, looked := Decide(st, e, s.spoiled.Some?), Look(s, id, st, e);
    MovesTo(st, e, s.spoiled.Some?);
    ActIsLocal(looked, id, v, e.write);
    hide Act, Look;
    assert Local(s, Act(looked, id, v, e.write), id);
    hide Local;
    EndIsLocal(s, Act(looked, id, v, e.write), id, LeavesSpoiled(s.spoiled, id, st, e));
  }

  /**
   A turn with the status `st` that the tick read, from the data alone.  It writes when a
   provisioned namespace is there, or a deleted or a lost one is not; it ends in the handler
   when a call of its own raises, or when it has a statement to run and the transaction is
   aborted; and Failed is what the handler writes.
   */
  lemma TurnExactly(s: State, id: string, st: Status, e: Env)
    ensures var t, aborted := TakeTurn(s, id, st, e), s.spoiled.Some?;
            var writes := !e.early && ((st == Provisioning && e.seen == Some(true))
                                       || (st in {Terminating, Ready} && e.seen == Some(false)));
            var errs := e.early || (st != Failed && (
                          || e.seen.None? || (e.seen == Some(true) && st in {Terminating, Ready} && !e.cluster)
                          || (st == Ready && aborted) || (writes && (aborted || !e.write.Fine?))));
            var acts := writes && !aborted && (e.write.Fine? || e.write.applied);
            var marks := errs && (e.failWrite.Fine? || e.failWrite.applied);
            && (forall x | x != id || id !in s.rows :: x in t.rows <==> x in s.rows)
            && (forall x | x in s.rows && x != id :: t.rows[x] == s.rows[x])
            && (id in s.rows ==> (id in t.rows <==> !(acts && st == Terminating)))
            && (id in s.rows && id in t.rows ==>
                  t.rows[id] == Project(if marks then Failed
                                        else if acts then (if st == Provisioning then Ready else Provisioning)
                                        else s.rows[id].status, s.rows[id].deleted))
            && t.drift == s.drift + (if !e.early && st == Ready && e.seen == Some(false) then 1 else 0)
            && (Erred(Decide(st, e, aborted), e.write) <==> errs)
            && t.spoiled == (if st == Failed && !e.early then s.spoiled
                             else if st == Ready && !errs && e.seen == Some(true) && e.swallowed then Some(id)
                             else None)
  {
  }

  /** What the API's requests write. */
  lemma RequestsExactly(s: State, a: Action)
    requires Enabled(s, a)
    ensures a.Create? ==> a.id !in s.ids && Apply(s, a).rows == s.rows[a.id := Project(Provisioning, false)]
    ensures a.Admit? ==> a.id in s.rows && !s.rows[a.id].deleted && Apply(s, a).rows == s.rows
    ensures a.Delete? ==> var id := s.admitted[a.r];
              Apply(s, a).rows == if id in s.rows then s.rows[id := Project(Terminating, true)] else s.rows
  {
  }

  /** A turn taken on the row as it is adds only lawful entries. */
  lemma TurnIsLawful(s: State, id: string, e: Env)
    requires AllLawful(s.hist) && id in s.rows && (s.rows[id].status == Terminating ==> s.rows[id].deleted)
    ensures AllLawful(TakeTurn(s, id, s.rows[id].status, e).hist)
  {
    var st := s.rows[id].status;
    var v := Decide(st, e, s.spoiled.Some?);
    var looked := Look(s, id, st, e);
    if looked.hist != s.hist { LawfulMore(s.hist, Checked(id, e.seen.value)); }
    var acted := Act(looked, id, v, e.write);
    if acted.hist != looked.hist { LawfulMore(looked.hist, acted.hist[|looked.hist|]); }
    var failed := SetStatus(acted, id, Failed);
    if failed.hist != acted.hist { LawfulMore(acted.hist, failed.hist[|acted.hist|]); }
    assert TakeTurn(s, id, st, e).hist == if Erred(v, e.write) && Takes(e.failWrite) then failed.hist else acted.hist;
  }

  lemma LifeInvStep(s: State, a: Action)
    requires LifeInv(s) && Enabled(s, a) && (a.Create? || a.Delete? ==> s.turns.None?)
    ensures LifeInv(Apply(s, a))
  {
    match a
    case Turn(id, e) =>
      var u := s.(turns := Some(s.turns.value - {id}));
      TurnIsLocal(u, id, s.turns.value[id].status, e);
      TurnIsLawful(u, id, e);
    case Delete(r) =>
      var id := s.admitted[r];
      if id in s.rows { LawfulMore(s.hist, Deleted(id, s.rows[id].status)); }
    case _ =>
  }

  lemma {:induction false} Reachable(acts: seq<Action>, s: State)
    requires Exec(acts) == Some(s) && Apart(acts)
    ensures LifeInv(s)
  {
    if acts != [] {
      var before := Exec(acts[..|acts| - 1]).value;
      Reachable(acts[..|acts| - 1], before);
      LifeInvStep(before, acts[|acts| - 1]);
    }
  }

  /**
   In every run in which no API write lands inside a tick: `Ready` is written only over
   `Provisioning` and directly after the namespace was seen; a row is removed only from
   `Terminating`, after its deletion was asked for, directly after its namespace was
   found absent; and a row leaves `Failed` only by a delete request.
   */
  lemma LifeIsLawful(acts: seq<Action>, s: State, k: nat)
    requires Exec(acts) == Some(s) && Apart(acts) && k < |s.hist|
    ensures s.hist[k].Wrote? && s.hist[k].now == Ready ==>
              s.hist[k].was == Provisioning && k > 0 && s.hist[k - 1] == Checked(s.hist[k].id, true)
    ensures s.hist[k].Removed? ==>
              s.hist[k].row == Project(Terminating, true) && k > 0 && s.hist[k - 1] == Checked(s.hist[k].id, false)
    ensures s.hist[k].Wrote? && s.hist[k].was == Failed ==> s.hist[k].now == Failed
  {
    Reachable(acts, s);
    assert Lawful(s.hist, k);
  }

  // ---------------------------------------------------------------- how a deletion ends

  /** The project's turn ends in the handler. */
  predicate TurnErrs(s: State, a: Action)
    requires a.Turn? && Enabled(s, a)
  {
    Erred(Decide(s.turns.value[a.id].status, a.env, s.spoiled.Some?), a.env.write)
  }

  /** In the run `acts + more`, no turn of this project from `acts` on meets an error. */
  predicate ErrorFree(acts: seq<Action>, more: seq<Action>, id: string)
    requires Exec(acts + more).Some?
    decreases |more|
  {
    more == [] ||
    var front, a := more[..|more| - 1], more[|more| - 1];
    assert (acts + more)[..|acts + more| - 1] == acts + front;
    ErrorFree(acts, front, id) && (a.Turn? && a.id == id ==> !TurnErrs(Exec(acts + front).value, a))
  }

  /** The deletion is under way, and a tick that has read the row knows. */
  predicate Ending(s: State, id: string) {
    && id in s.rows && s.rows[id] == Project(Terminating, true)
    && (s.turns.Some? && id in s.turns.value ==> s.turns.value[id].status == Terminating)
  }

  predicate Ended(s: State, id: string) {
    id in s.ids && id !in s.rows && (s.turns.Some? ==> id !in s.turns.value)
  }

  lemma EndingStep(s: State, a: Action, id: string)
    requires Enabled(s, a) && id in s.ids && (a.Turn? && a.id == id ==> !TurnErrs(s, a))
    ensures Ended(s, id) ==> Ended(Apply(s, a), id) && !(a.Turn? && a.id == id)
    ensures Ending(s, id) ==>
              if a.Turn? && a.id == id && a.env.seen != Some(true) then Ended(Apply(s, a), id)
              else Ending(Apply(s, a), id)
  {
    if a.Turn? {
      TurnIsLocal(s.(turns := Some(s.turns.value - {a.id})), a.id, s.turns.value[a.id].status, a.env);
    }
  }

  /**
   In every run: a project whose deletion is under way, and whose turns meet no error from
   then on, is kept as long as they see its namespace, and removed for good by the first
   that does not; whatever other projects and the API do meanwhile.
   */
  lemma {:induction false} RemovedWhenNamespaceGone(
      acts: seq<Action>, s: State, more: seq<Action>, t: State, id: string)
    requires Exec(acts) == Some(s) && Ending(s, id) && Exec(acts + more) == Some(t) && ErrorFree(acts, more, id)
    ensures id in t.ids
    ensures if forall a | a in more && a.Turn? && a.id == id :: a.env.seen == Some(true)
            then Ending(t, id) else Ended(t, id)
    decreases |more|
  {
    if more == [] {
      assert acts + more == acts;
      RowsKnown(acts, s);
    } else {
      var front, last := more[..|more| - 1], more[|more| - 1];
      assert (acts + more)[..|acts + more| - 1] == acts + front;
      assert more == front + [last];
      var u := Exec(acts + front).value;
      assert Enabled(u, last) && t == Apply(u, last);
      assert ErrorFree(acts, front, id) && (last.Turn? && last.id == id ==> !TurnErrs(u, last));
      hide Ending, Ended, TurnErrs, Exec, Apply, Enabled, ErrorFree;
      RemovedWhenNamespaceGone(acts, s, front, u, id);
      EndingStep(u, last, id);
    }
  }

  /** Ids are kept, and only a deletion makes a row Terminating, in this tick's copy too. */
  ghost predicate KnownInv(s: State) {
    && s.rows.Keys <= s.ids
    && (forall id | id in s.rows && s.rows[id].status == Terminating :: s.rows[id].deleted)
    && (s.turns.Some? ==> forall id | id in s.turns.value && s.turns.value[id].status == Terminating ::
          id in s.rows && s.rows[id].status == Terminating)
  }

  lemma {:induction false} RowsKnown(acts: seq<Action>, s: State)
    requires Exec(acts) == Some(s)
    ensures KnownInv(s)
  {
    if acts != [] {
      var before, a := Exec(acts[..|acts| - 1]).value, acts[|acts| - 1];
      RowsKnown(acts[..|acts| - 1], before);
      if a.Turn? {
        TurnIsLocal(before.(turns := Some(before.turns.value - {a.id})), a.id, before.turns.value[a.id].status, a.env);
        hide TakeTurn;
      }
    }
  }

  /** In the run `acts + more`, no delete request for this project is carried out from `acts` on. */
  predicate NotDeleted(acts: seq<Action>, more: seq<Action>, id: string)
    requires Exec(acts + more).Some?
    decreases |more|
  {
    more == [] ||
    var front, a := more[..|more| - 1], more[|more| - 1];
    assert (acts + more)[..|acts + more| - 1] == acts + front;
    NotDeleted(acts, front, id) && (a.Delete? ==> Exec(acts + front).value.admitted[a.r] != id)
  }

  /** The row is Failed, and so is a tick's copy of it. */
  predicate Stuck(s: State, id: string, row: Project) {
    && id in s.ids && id in s.rows && s.rows[id] == row && row.status == Failed
    && (s.turns.Some? && id in s.turns.value ==> s.turns.value[id].status == Failed)
  }

  /** In every run, a project that has failed stays as it is, whatever the ticks meet, until a
      delete request for it is carried out. */
  lemma {:induction false} FailedStays(acts: seq<Action>, s: State, more: seq<Action>, t: State, id: string)
    requires Exec(acts) == Some(s) && id in s.rows && Stuck(s, id, s.rows[id])
    requires Exec(acts + more) == Some(t) && NotDeleted(acts, more, id)
    ensures Stuck(t, id, s.rows[id])
    decreases |more|
  {
    if more == [] {
      assert acts + more == acts;
    } else {
      var front, last := more[..|more| - 1], more[|more| - 1];
      assert (acts + more)[..|acts + more| - 1] == acts + front;
      var u := Exec(acts + front).value;
      assert Enabled(u, last) && t == Apply(u, last);
      assert NotDeleted(acts, front, id) && (last.Delete? ==> u.admitted[last.r] != id);
      hide Stuck, Exec, Apply, Enabled, NotDeleted;
      FailedStays(acts, s, front, u, id);
      StuckStep(u, last, id, s.rows[id]);
    }
  }

  lemma StuckStep(s: State, a: Action, id: string, row: Project)
    requires Stuck(s, id, row) && Enabled(s, a) && (a.Delete? ==> s.admitted[a.r] != id)
    ensures Stuck(Apply(s, a), id, row)
  {
    if a.Turn? {
      TurnIsLocal(s.(turns := Some(s.turns.value - {a.id})), a.id, s.turns.value[a.id].status, a.env);
    }
  }

  /** A deletion was asked for and is not under way: the row has `deleted_at` but is not
      Terminating, no delete request is past its access check, and no tick has a copy of
      the row in which it is Terminating. */
  predicate DeletionLost(s: State, id: string) {
    && id in s.ids && id in s.rows && s.rows[id].deleted && s.rows[id].status != Terminating
    && (forall r | r in s.admitted :: s.admitted[r] != id)
    && (s.turns.Some? && id in s.turns.value ==> s.turns.value[id].status != Terminating)
  }

  /** It has failed as well, and no tick believes otherwise. */
  predicate DeletionFailed(s: State, id: string) {
    && DeletionLost(s, id) && s.rows[id].status == Failed
    && (s.turns.Some? && id in s.turns.value ==> s.turns.value[id].status == Failed)
  }

  lemma LostStep(s: State, a: Action, id: string)
    requires DeletionLost(s, id) && Enabled(s, a)
    ensures DeletionLost(Apply(s, a), id)
    ensures DeletionFailed(s, id) ==> DeletionFailed(Apply(s, a), id)
  {
    if a.Turn? {
      TurnIsLocal(s.(turns := Some(s.turns.value - {a.id})), a.id, s.turns.value[a.id].status, a.env);
    }
  }

  /**
   A lost deletion is lost for good: in every continuation of every run, API writes inside
   ticks included, the row is neither removed nor set to Terminating again; `deleted_at`
   keeps later delete requests out.  A row that has failed stays Failed.
   */
  lemma {:induction false} LostForGood(acts: seq<Action>, s: State, more: seq<Action>, t: State, id: string)
    requires Exec(acts) == Some(s) && DeletionLost(s, id) && Exec(acts + more) == Some(t)
    ensures DeletionLost(t, id)
    ensures DeletionFailed(s, id) ==> DeletionFailed(t, id)
    decreases |more|
  {
    if more == [] {
      assert acts + more == acts;
    } else {
      var front, last := more[..|more| - 1], more[|more| - 1];
      assert (acts + more)[..|acts + more| - 1] == acts + front;
      LostForGood(acts, s, front, Exec(acts + front).value, id);
      hide DeletionLost, DeletionFailed;
      LostStep(Exec(acts + front).value, last, id);
    }
  }

  /** Its row takes the deletion there exactly if the turn ends in the handler, which can write
      Failed, and the row was not deleted all the same. */
  lemma ErrorWhileTerminating(s: State, id: string, e: Env)
    requires id in s.rows && s.rows[id] == Project(Terminating, true)
    ensures var t, v := TakeTurn(s, id, Terminating, e), Decide(Terminating, e, s.spoiled.Some?);
            (id in t.rows && t.rows[id] == Project(Failed, true)) <==>
              Erred(v, e.write) && Takes(e.failWrite) && !(v == Drop && Takes(e.write))
  {
  }

  /**
   A deletion that falls between the tick's read and the project's turn: the turn goes by
   the stale status `st`.  It overwrites the deletion exactly if it writes a status, be it
   its own verdict or Failed after an error; otherwise it leaves the row as it is.
   */
  lemma DeletionInsideTick(s: State, id: string, e: Env)
    requires s.turns.Some? && id in s.turns.value && s.turns.value[id].status != Terminating
    requires id in s.rows && s.rows[id] == Project(Terminating, true)
    ensures var t, st := Apply(s, Turn(id, e)), s.turns.value[id].status;
            && id in t.rows && t.rows[id].deleted
            && (t.rows[id] == Project(Terminating, true) <==>
                  var v := Decide(st, e, s.spoiled.Some?);
                  !(v.Move? && Takes(e.write)) && !(Erred(v, e.write) && Takes(e.failWrite)))
  {
  }

  /** And once overwritten, it is lost for good, unless another delete request was already admitted. */
  lemma OverwrittenIsLost(s: State, id: string, e: Env)
    requires id in s.ids && s.turns.Some? && id in s.turns.value && s.turns.value[id].status != Terminating
    requires id in s.rows && s.rows[id] == Project(Terminating, true)
    requires forall r | r in s.admitted :: s.admitted[r] != id
    ensures Apply(s, Turn(id, e)).rows[id] != Project(Terminating, true) ==> DeletionLost(Apply(s, Turn(id, e)), id)
  {
    DeletionInsideTick(s, id, e);
    TurnIsLocal(s.(turns := Some(s.turns.value - {id})), id, s.turns.value[id].status, e);
  }

  /** A run goes on by one action. */
  lemma Then(acts: seq<Action>, more: seq<Action>, s: State, a: Action) returns (longer: seq<Action>, t: State)
    requires Exec(acts + more) == Some(s) && Enabled(s, a)
    ensures longer == more + [a] && t == Apply(s, a) && Exec(acts + longer) == Some(t)
  {
    longer, t := more + [a], Apply(s, a);
    assert (acts + longer)[..|acts + longer| - 1] == acts + more;
  }

  /** A turn that nothing disturbs. */
  function Calm(seen: bool): Env { Env(false, Some(seen), true, Fine, Fine, false) }

  /** An admitted delete request can end what was lost. */
  lemma AdmittedEndsIt(acts: seq<Action>, s: State, id: string, r: nat) returns (more: seq<Action>, t: State)
    requires Exec(acts) == Some(s) && id in s.rows && r in s.admitted && s.admitted[r] == id
    ensures Exec(acts + more) == Some(t) && id !in t.rows
  {
    hide Exec;
    assert acts + [] == acts;
    more, t := [], s;
    if s.turns.Some? { more, t := Then(acts, more, t, EndTick); }
    more, t := Then(acts, more, t, Delete(r));
    more, t := Then(acts, more, t, StartTick);
    more, t := Then(acts, more, t, Turn(id, Calm(false)));
  }

  /**
   In every run, a deletion that was asked for and is not under way is lost for good exactly
   if no delete request for the project is past its access check.
   */
  lemma LostExactly(acts: seq<Action>, s: State, id: string)
    requires Exec(acts) == Some(s) && id in s.rows && s.rows[id].deleted && s.rows[id].status != Terminating
    ensures (forall r | r in s.admitted :: s.admitted[r] != id) <==>
            (forall more :: Exec(acts + more).Some? ==> id in Exec(acts + more).value.rows)
  {
    if r :| r in s.admitted && s.admitted[r] == id {
      var more, t := AdmittedEndsIt(acts, s, id, r);
      assert id !in Exec(acts + more).value.rows;
    } else {
      RowsKnown(acts, s);
      assert DeletionLost(s, id);
      forall more | Exec(acts + more).Some? ensures id in Exec(acts + more).value.rows {
        LostForGood(acts, s, more, Exec(acts + more).value, id);
      }
    }
  }

  /** A deletion can be overwritten for any project: here the row ends `Ready` with `deleted_at` set. */
  lemma DeletionOverwritten(id: string) returns (acts: seq<Action>, s: State)
    ensures Exec(acts) == Some(s) && !Apart(acts)
    ensures DeletionLost(s, id) && s.rows[id] == Project(Ready, true)
  {
    acts, s := [], INIT;
    assert Exec([] + acts) == Some(s);
    hide Exec, TakeTurn, Apart;
    acts, s := Then([], acts, s, Create(id));
    acts, s := Then([], acts, s, Admit(0, id));
    acts, s := Then([], acts, s, StartTick);
    NotApart(acts, s, Delete(0));
    acts, s := Then([], acts, s, Delete(0));
    SeenTurn(s, id);
    NotApart(acts, s, Turn(id, Calm(true)));
    acts, s := Then([], acts, s, Turn(id, Calm(true)));
    assert [] + acts == acts;
  }

  lemma NotApart(acts: seq<Action>, s: State, a: Action)
    requires Exec([] + acts) == Some(s) && (!Apart(acts) || ((a.Create? || a.Delete?) && s.turns.Some?))
    ensures !Apart(acts + [a])
  {
    assert (acts + [a])[..|acts|] == acts && [] + acts == acts;
  }

  /** A turn of a project read as Provisioning or Ready, and seen. */
  lemma SeenTurn(s: State, id: string)
    requires s.turns.Some? && id in s.turns.value && id in s.rows && s.spoiled.None?
    requires s.turns.value[id].status in {Provisioning, Ready}
    ensures var t := Apply(s, Turn(id, Calm(true)));
            && t.rows == (if s.turns.value[id].status == Ready then s.rows
                          else s.rows[id := Project(Ready, s.rows[id].deleted)])
            && t.turns == Some(s.turns.value - {id}) && t.spoiled == None && t.ids == s.ids && t.admitted == s.admitted
  {
  }

  // ---------------------------------------------------------------- one connection for all projects

  /** An UPDATE of a deployment of the Ready project `x` fails, and the turn goes on. */
  predicate Swallows(s: State, a: Action, x: string) {
    && a.Turn? && a.id == x && s.turns.Some? && x in s.turns.value && s.turns.value[x].status == Ready
    && s.spoiled.None? && !a.env.early && a.env.seen == Some(true) && a.env.cluster && a.env.swallowed
  }

  /** The tick goes on, without a use of its connection. */
  predicate Idles(s: State, a: Action) {
    match a
    case StartTick | EndTick => false
    case Turn(id, e) => s.turns.Some? && id in s.turns.value && s.turns.value[id].status == Failed && !e.early
    case _ => true
  }

  function At(acts: seq<Action>, k: nat): Option<State>
    requires k <= |acts|
  {
    Exec(acts[..k])
  }

  /** Action `k` did so, and the connection was not used since. */
  predicate SpoiledSince(acts: seq<Action>, k: nat, x: string)
    requires k < |acts|
  {
    && At(acts, k).Some? && Swallows(At(acts, k).value, acts[k], x)
    && forall j: nat | k < j < |acts| :: At(acts, j).Some? && Idles(At(acts, j).value, acts[j])
  }

  lemma SameAt(acts: seq<Action>, n: nat, k: nat)
    requires k <= n <= |acts|
    ensures At(acts[..n], k) == At(acts, k)
  {
    assert acts[..n][..k] == acts[..k];
  }

  lemma SpoiledMore(acts: seq<Action>, k: nat, x: string)
    requires k < |acts| && At(acts, |acts| - 1).Some?
    ensures var n := |acts| - 1;
            SpoiledSince(acts, k, x) <==>
              if k == n then Swallows(At(acts, n).value, acts[n], x)
              else SpoiledSince(acts[..n], k, x) && Idles(At(acts, n).value, acts[n])
  {
    hide At, Swallows, Idles;
    var n := |acts| - 1;
    forall j: nat | j < n ensures At(acts[..n], j) == At(acts, j) && acts[..n][j] == acts[j] { SameAt(acts, n, j); }
    if k < n && SpoiledSince(acts[..n], k, x) && Idles(At(acts, n).value, acts[n]) {
      forall j: nat | k < j < |acts| ensures At(acts, j).Some? && Idles(At(acts, j).value, acts[j]) {
        if j < n { assert At(acts[..n], j).Some?; }
      }
    }
  }

  /** In every run the transaction is aborted exactly since such an action, and its project's
      turn in this tick is over. */
  lemma {:induction false} SpoiledExactly(acts: seq<Action>, s: State, x: string)
    requires Exec(acts) == Some(s)
    ensures s.spoiled == Some(x) <==> exists k: nat :: k < |acts| && SpoiledSince(acts, k, x)
    ensures s.spoiled == Some(x) ==> s.turns.Some? && x !in s.turns.value
  {
    if acts != [] {
      var n := |acts| - 1;
      var before, a := Exec(acts[..n]).value, acts[n];
      SpoiledExactly(acts[..n], before, x);
      SpoiledStep(before, a, x);
      assert s == Apply(before, a) && At(acts, n) == Some(before);
      hide Exec, Apply, Swallows, Idles, Enabled, SpoiledSince, At;
      if s.spoiled == Some(x) {
        var k: nat := n;
        if !Swallows(before, a, x) { k :| k < n && SpoiledSince(acts[..n], k, x); }
        SpoiledMore(acts, k, x);
        assert SpoiledSince(acts, k, x);
      } else if k: nat :| k < |acts| && SpoiledSince(acts, k, x) {
        SpoiledMore(acts, k, x);
      }
    }
  }

  lemma SpoiledStep(s: State, a: Action, x: string)
    requires Enabled(s, a) && (s.spoiled == Some(x) ==> s.turns.Some? && x !in s.turns.value)
    ensures var t := Apply(s, a);
            && (t.spoiled == Some(x) <==> Swallows(s, a, x) || (s.spoiled == Some(x) && Idles(s, a)))
            && (t.spoiled == Some(x) ==> t.turns.Some? && x !in t.turns.value)
  {
    if a.Turn? {
      TurnIsLocal(s.(turns := Some(s.turns.value - {a.id})), a.id, s.turns.value[a.id].status, a.env);
    }
  }

  /** The turn has a statement to run. */
  predicate Queries(st: Status, seen: bool) {
    st == Ready || (st == Provisioning && seen) || (st == Terminating && !seen)
  }

  lemma FailedIfAborted(s: State, id: string, e: Env)
    requires Enabled(s, Turn(id, e)) && Smooth(e) && Takes(e.failWrite)
    requires id in s.rows && s.rows[id] == s.turns.value[id] && s.rows[id].status != Failed
    ensures var t := Apply(s, Turn(id, e));
            id in t.rows && t.rows[id].status == Failed <==> Queries(s.rows[id].status, e.seen.value) && s.spoiled.Some?
  {
  }

  /**
   When one project's deployments fail another project.  In every run, a turn none of whose
   own calls fails sets its project to Failed exactly if it has a statement to run and the
   transaction is aborted, which it is since the turn of another project in this tick, which
   was Ready and had an UPDATE of a deployment fail.
   */
  lemma FailedByNeighbour(acts: seq<Action>, s: State, id: string, e: Env)
    requires Exec(acts) == Some(s) && Enabled(s, Turn(id, e)) && Smooth(e) && Takes(e.failWrite)
    requires id in s.rows && s.rows[id] == s.turns.value[id] && s.rows[id].status != Failed
    ensures var t := Apply(s, Turn(id, e));
            id in t.rows && t.rows[id].status == Failed <==>
              && Queries(s.rows[id].status, e.seen.value)
              && exists x, k: nat :: x != id && k < |acts| && SpoiledSince(acts, k, x)
  {
    FailedIfAborted(s, id, e);
    hide Exec, Apply, SpoiledSince, Queries;
    if s.spoiled.Some? {
      var x := s.spoiled.value;
      SpoiledExactly(acts, s, x);
      var k: nat :| k < |acts| && SpoiledSince(acts, k, x);
      assert x != id;
    } else if x, k: nat :| x != id && k < |acts| && SpoiledSince(acts, k, x) {
      SpoiledExactly(acts, s, x);
    }
  }

  /** The first tick of two projects begins. */
  lemma TwoCreated(x: string, y: string) returns (acts: seq<Action>, s: State)
    requires x != y
    ensures acts == [Create(x), Create(y), StartTick] && Exec(acts) == Some(s)
    ensures s.rows == map[x := Project(Provisioning, false), y := Project(Provisioning, false)]
    ensures s.turns == Some(s.rows) && s.spoiled.None?
  {
    acts, s := [], INIT;
    assert Exec([] + acts) == Some(s);
    hide Exec;
    acts, s := Then([], acts, s, Create(x));
    acts, s := Then([], acts, s, Create(y));
    acts, s := Then([], acts, s, StartTick);
    assert [] + acts == acts;
  }

  /** Two projects that have become Ready. */
  lemma TwoReady(x: string, y: string) returns (acts: seq<Action>, s: State)
    requires x != y
    ensures acts == [Create(x), Create(y), StartTick, Turn(x, Calm(true)), Turn(y, Calm(true)), EndTick]
    ensures Exec(acts) == Some(s) && s.rows == map[x := Project(Ready, false), y := Project(Ready, false)]
    ensures s.turns.None? && s.spoiled.None?
  {
    hide Exec, TakeTurn;
    acts, s := TwoCreated(x, y);
    assert [] + acts == acts;
    SeenTurn(s, x);
    acts, s := Then([], acts, s, Turn(x, Calm(true)));
    SeenTurn(s, y);
    acts, s := Then([], acts, s, Turn(y, Calm(true)));
    acts, s := Then([], acts, s, EndTick);
    assert [] + acts == acts;
  }

  /** It happens to any two projects: the second ends Failed although each of its turns is calm. */
  lemma NeighbourFails(x: string, y: string) returns (acts: seq<Action>, s: State)
    requires x != y
    ensures Exec(acts) == Some(s) && y in s.rows && s.rows[y] == Project(Failed, false)
    ensures forall a | a in acts && a.Turn? && a.id == y :: a.env == Calm(true)
  {
    hide Exec;
    acts, s := TwoReady(x, y);
    assert [] + acts == acts;
    acts, s := Then([], acts, s, StartTick);
    acts, s := Then([], acts, s, Turn(x, Calm(true).(swallowed := true)));
    acts, s := Then([], acts, s, Turn(y, Calm(true)));
    assert [] + acts == acts;
  }

  /** Another project's deployments are to blame for an error in a turn without one of its own. */
  ghost predicate Blamed(read: map<string, Project>, envs: map<string, Env>, id: string) {
    exists x :: x != id && x in read && read[x].status == Ready && x in envs && envs[x].swallowed
  }

  /** How a turn without error leaves a project whose row was `was` and still is. */
  predicate LeftBy(rows: map<string, Project>, id: string, was: Project, e: Env) {
    match was.status
    case Provisioning =>
      id in rows && rows[id] == Project(if e.seen == Some(true) then Ready else Provisioning, was.deleted)
    case Ready => id in rows && rows[id] == Project(if e.seen == Some(true) then Ready else Provisioning, was.deleted)
    case Terminating => if e.seen == Some(true) then id in rows && rows[id] == was else id !in rows
    case Failed => id in rows && rows[id] == was
  }

  lemma LeftAlone(rows: map<string, Project>, now: map<string, Project>, id: string, was: Project, e: Env)
    requires LeftBy(rows, id, was, e) && (id in now <==> id in rows) && (id in rows ==> now[id] == rows[id])
    ensures LeftBy(now, id, was, e)
  {
  }

  class Controller {
    var s: State
    ghost var log: seq<Action>

    ghost predicate Valid()
      reads this
    {
      Exec(log) == Some(s)
    }

    method Do(a: Action)
      requires Valid() && Enabled(s, a)
      modifies this
      ensures Valid() && s == Apply(old(s), a) && log == old(log) + [a]
      ensures Apart(old(log)) && !a.Create? && !a.Delete? ==> Apart(log)
    {
      assert (log + [a])[..|log|] == log;
      s, log := Apply(s, a), log + [a];
    }

    /** The API's requests between two turns. */
    method ApiRuns()
      requires Valid()
      modifies this
      ensures Valid() && s.turns == old(s.turns) && s.spoiled == old(s.spoiled) && old(log) <= log
    {
      var requests: nat := *;
      while requests > 0
        invariant Valid() && s.turns == old(s.turns) && s.spoiled == old(s.spoiled) && old(log) <= log
      {
        var a: Action := *;
        if (a.Create? || a.Admit? || a.Delete?) && Enabled(s, a) { Do(a); }
        requests := requests - 1;
      }
    }

    /** One turn of the tick.  On a row that is still as the tick read it, a deletion whose turn
        meets no error ends exactly when the namespace is not seen. */
    method TurnOf(id: string, e: Env) returns (erred: bool)
      requires Valid() && s.turns.Some? && id in s.turns.value
      modifies this
      ensures Valid() && s.turns == Some(old(s.turns.value) - {id}) && (Apart(old(log)) ==> Apart(log))
      ensures s == Apply(old(s), Turn(id, e)) && log == old(log) + [Turn(id, e)]
      ensures forall x | x != id :: x in s.rows <==> x in old(s.rows)
      ensures forall x | x in old(s.rows) && x != id :: s.rows[x] == old(s.rows[x])
      ensures id in old(s.rows) && old(s.turns.value[id]) == old(s.rows[id]) && !erred ==>
                LeftBy(s.rows, id, old(s.rows[id]), e)
      ensures e.early ==> erred
      ensures erred ==> !Smooth(e) || old(s.spoiled).Some?
      ensures s.spoiled.None? || s.spoiled == old(s.spoiled)
              || (s.spoiled == Some(id) && old(s.turns.value[id]).status == Ready && e.swallowed)
    {
      erred := TurnErrs(s, Turn(id, e));
      TurnExactly(s.(turns := Some(s.turns.value - {id})), id, s.turns.value[id].status, e);
      TurnIsLocal(s.(turns := Some(s.turns.value - {id})), id, s.turns.value[id].status, e);
      Do(Turn(id, e));
    }

    /** What holds between two turns: `read` are the rows as read, `start` the run before the tick. */
    ghost predicate Ticking(read: map<string, Project>, start: seq<Action>, envs: map<string, Env>, quiet: bool,
        erred: set<string>)
      reads this
    {
      && Valid() && s.turns.Some? && start <= log
      && (forall id | id in s.turns.value :: id in read && s.turns.value[id] == read[id])
      && (forall id | id in s.turns.value :: id !in erred)
      && (s.spoiled.Some? ==>
            && s.spoiled.value in read && read[s.spoiled.value].status == Ready && s.spoiled.value !in s.turns.value
            && s.spoiled.value in envs && envs[s.spoiled.value].swallowed)
      && (forall id | id in erred && id in envs && Smooth(envs[id]) :: Blamed(read, envs, id))
      && (forall id | id in read && id !in s.turns.value && id in envs :: Turn(id, envs[id]) in log[|start|..])
      && (quiet ==>
            && Apart(log)
            && (forall id | id in s.turns.value :: id in s.rows && s.rows[id] == s.turns.value[id])
            && (forall id | id in read && id in envs && id !in s.turns.value && id !in erred ::
                  LeftBy(s.rows, id, read[id], envs[id])))
    }

    /** One more turn. */
    method TurnNext(ghost read: map<string, Project>, ghost start: seq<Action>, envs: map<string, Env>,
        ghost quiet: bool, erred: set<string>) returns (now: set<string>)
      requires Ticking(read, start, envs, quiet, erred) && s.turns.value != map[]
      modifies this
      ensures Ticking(read, start, envs, quiet, now) && s.turns.value.Keys < old(s.turns.value.Keys)
    {
      hide LifeInv, TakeTurn, Smooth, Apart, LeftBy, Exec, Apply;
      var id :| id in s.turns.value;
      var e := if id in envs then envs[id] else Env(true, None, false, Broken(false), Broken(false), false);
      ghost var before, rows := log, s.rows;
      var bad := TurnOf(id, e);
      now := if bad then erred + {id} else erred;
      assert log[|start|..] == before[|start|..] + [Turn(id, e)];
      forall x | quiet && x != id && x in read && x in envs && LeftBy(rows, x, read[x], envs[x])
        ensures LeftBy(s.rows, x, read[x], envs[x])
      {
        LeftAlone(rows, s.rows, x, read[x], envs[x]);
      }
    }

    /** The tick reads all rows, on a new connection. */
    method Begin()
      requires Valid() && s.turns.None?
      modifies this
      ensures Valid() && s.turns == Some(s.rows) && s.rows == old(s.rows) && s.spoiled.None?
      ensures log == old(log) + [StartTick] && (Apart(old(log)) ==> Apart(log))
    {
      Do(StartTick);
    }

    method End()
      requires Valid() && s.turns.Some?
      modifies this
      ensures Valid() && s.turns.None? && s.rows == old(s.rows)
      ensures log == old(log) + [EndTick] && (Apart(old(log)) ==> Apart(log))
    {
      Do(EndTick);
    }

    /** `reconcile`: read all rows, then one turn for each, the API running in between
        unless the tick is `quiet`.  A quiet tick leaves every project whose turn meets no
        error as its status and namespace ask for.  A turn without an error of its own meets
        one only if an UPDATE of a deployment of another project fails in this tick. */
    method Reconcile(envs: map<string, Env>, quiet: bool) returns (erred: set<string>)
      requires Valid() && s.turns.None? && (quiet ==> Apart(log))
      modifies this
      ensures Valid() && s.turns.None? && (quiet ==> Apart(log) && LifeInv(s))
      ensures old(log) <= log
      ensures forall id | id in old(s.rows) && id in envs :: Turn(id, envs[id]) in log[|old(log)|..]
      ensures quiet ==> forall id | id in old(s.rows) && id in envs && id !in erred ::
                LeftBy(s.rows, id, old(s.rows)[id], envs[id])
      ensures forall id | id in erred && id in envs && Smooth(envs[id]) :: Blamed(old(s.rows), envs, id)
    {
      hide LifeInv, Smooth, Apart, LeftBy, Exec;
      ghost var read, start := s.rows, log;
      erred := {};
      Begin();
      while s.turns.value != map[]
        invariant Ticking(read, start, envs, quiet, erred)
        decreases s.turns.value.Keys
      {
        if !quiet { ApiRuns(); }
        erred := TurnNext(read, start, envs, quiet, erred);
      }
      ghost var before := log;
      End();
      assert log[|start|..] == before[|start|..] + [EndTick];
      if quiet { Reachable(log, s); }
    }
  }
}
