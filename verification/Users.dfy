/**
 `get_or_create_user` called by any number of requests at once.  Each statement is a
 step of its own, with anything else between two of them; the users table has `id` as
 its primary key, and an INSERT waits for an uncommitted row of the same id.
 */
module Users {
  import opened Wrappers

  datatype Role = Admin | Plain

  /** A row, with the call that created it. */
  datatype User = User(id: string, role: Role, creator: nat)

  datatype Phase =
    | Select
    | Count
    | Insert(role: Role)
    | Commit(role: Role)
    | Reselect
    | Returned(role: Role)
    | Raised

  /** A call for `id`; `counted` is what its COUNT returned. */
  datatype Caller = Caller(id: string, counted: Option<nat>, phase: Phase)

  datatype State = State(users: seq<User>, callers: map<nat, Caller>)

  const INIT := State([], map[])

  datatype Action =
    | Call(c: nat, id: string)
    | Step(c: nat)
    | Fail(c: nat, applied: bool)      // an error: the call raises; a COMMIT may have taken effect all the same
    | SetRole(id: string, role: Role)  // the admin endpoint

  function IndexOf(users: seq<User>, id: string): (r: Option<nat>)
    ensures r.Some? ==> r.value < |users| && users[r.value].id == id
    ensures r.None? ==> forall u | u in users :: u.id != id
  {
    if users == [] then None
    else if users[|users| - 1].id == id then Some(|users| - 1)
    else IndexOf(users[..|users| - 1], id)
  }

  predicate Finished(ph: Phase) { ph.Returned? || ph.Raised? }

  /** Another call has inserted a row for `id` and not committed it. */
  predicate Locked(s: State, c: nat, id: string) {
    exists o | o in s.callers :: o != c && s.callers[o].id == id && s.callers[o].phase.Commit?
  }

  predicate Enabled(s: State, a: Action) {
    match a
    case Call(c, _) => c !in s.callers
    case Step(c) =>
      && c in s.callers && !Finished(s.callers[c].phase)
      && (s.callers[c].phase.Insert? ==> !Locked(s, c, s.callers[c].id))
      && (s.callers[c].phase.Reselect? ==> IndexOf(s.users, s.callers[c].id).Some?)
    case Fail(c, _) => c in s.callers && !Finished(s.callers[c].phase)
    case SetRole(_, _) => true
  }

  /** What the next statement of a call makes of it. */
  function Next(users: seq<User>, k: Caller): Caller {
    var found := IndexOf(users, k.id);
    match k.phase
    case Select => k.(phase := if found.Some? then Returned(users[found.value].role) else Count)
    case Count => k.(counted := Some(|users|), phase := Insert(if |users| == 0 then Admin else Plain))
    case Insert(role) => k.(phase := if found.Some? then Reselect else Commit(role))
    case Commit(role) => k.(phase := Returned(role))
    case Reselect => k.(phase := if found.Some? then Returned(users[found.value].role) else Raised)
    case Returned(_) | Raised => k
  }

  /** Whether an action is one of call `c`. */
  predicate By(a: Action, c: nat) {
    match a
    case Call(d, _) => d == c
    case Step(d) => d == c
    case Fail(d, _) => d == c
    case SetRole(_, _) => false
  }

  function Apply(s: State, a: Action): State
    requires Enabled(s, a)
  {
    match a
    case Call(c, id) => s.(callers := s.callers[c := Caller(id, None, Select)])
    case Step(c) =>
      var k := s.callers[c];
      State(if k.phase.Commit? then s.users + [User(k.id, k.phase.role, c)] else s.users,
            s.callers[c := Next(s.users, k)])
    case Fail(c, applied) =>
      var k := s.callers[c];
      State(if k.phase.Commit? && applied then s.users + [User(k.id, k.phase.role, c)] else s.users,
            s.callers[c := k.(phase := Raised)])
    case SetRole(id, role) =>
      var i := IndexOf(s.users, id);
      if i.Some? then s.(users := s.users[i.value := s.users[i.value].(role := role)]) else s
  }

  function Exec(acts: seq<Action>): Option<State> {
    if acts == [] then Some(INIT)
    else
      var s := Exec(acts[..|acts| - 1]);
      if s.Some? && Enabled(s.value, acts[|acts| - 1]) then Some(Apply(s.value, acts[|acts| - 1])) else None
  }

  // ---------------------------------------------------------------- one row for an id

  ghost predicate DistinctIds(users: seq<User>) {
    forall i, j | 0 <= i < j < |users| :: users[i].id != users[j].id
  }

  ghost predicate HasRow(users: seq<User>, id: string) {
    exists i | 0 <= i < |users| :: users[i].id == id
  }

  /** A call that is past its INSERT holds the key alone, or knows that the row is there. */
  ghost predicate CallerOk(s: State, c: nat)
    requires c in s.callers
  {
    var k := s.callers[c];
    match k.phase
    case Commit(_) =>
      && !HasRow(s.users, k.id)
      && forall o | o in s.callers && o != c && s.callers[o].phase.Commit? :: s.callers[o].id != k.id
    case Reselect | Returned(_) => HasRow(s.users, k.id)
    case _ => true
  }

  ghost predicate KeyInv(s: State) {
    DistinctIds(s.users) && forall c | c in s.callers :: CallerOk(s, c)
  }

  lemma KeyInvStep(s: State, a: Action)
    requires KeyInv(s) && Enabled(s, a)
    ensures KeyInv(Apply(s, a))
  {
    var t := Apply(s, a);
    forall id | HasRow(s.users, id) ensures HasRow(t.users, id) {
      var i :| 0 <= i < |s.users| && s.users[i].id == id;
      assert t.users[i].id == id;
    }
    if a.Step? || a.Fail? {
      assert CallerOk(s, a.c);
      forall c | c in t.callers ensures CallerOk(t, c) { MoveKeepsCaller(s, a, c); }
    } else {
      forall c | c in t.callers ensures CallerOk(t, c) { assert c in s.callers ==> CallerOk(s, c); }
    }
  }

  lemma MoveKeepsCaller(s: State, a: Action, c: nat)
    requires KeyInv(s) && Enabled(s, a) && (a.Step? || a.Fail?) && c in s.callers
    ensures CallerOk(Apply(s, a), c)
  {
    var t := Apply(s, a);
    var k := s.callers[a.c];
    assert CallerOk(s, c) && CallerOk(s, a.c);
    if HasRow(s.users, t.callers[c].id) {
      var i :| 0 <= i < |s.users| && s.users[i].id == t.callers[c].id;
      assert t.users[i].id == t.callers[c].id;
    }
    if |t.users| > |s.users| { assert t.users[|s.users|].id == k.id; }
  }

  // ---------------------------------------------------------------- who becomes admin

  /** Roles follow from the counts, as long as nobody sets a role by hand. */
  ghost predicate RoleInv(s: State) {
    && (forall c | c in s.callers && (s.callers[c].phase.Insert? || s.callers[c].phase.Commit?) ::
          s.callers[c].counted.Some? && s.callers[c].counted.value <= |s.users|
          && (s.callers[c].phase.role == Admin <==> s.callers[c].counted == Some(0)))
    && (forall i | 0 <= i < |s.users| ::
          var u := s.users[i];
          && u.creator in s.callers && s.callers[u.creator].id == u.id && s.callers[u.creator].counted.Some?
          && s.callers[u.creator].counted.value <= i
          && Finished(s.callers[u.creator].phase)
          && (u.role == Admin <==> s.callers[u.creator].counted == Some(0)))
    && (forall c | c in s.callers && s.callers[c].phase.Returned? ::
          exists i | 0 <= i < |s.users| ::
            s.users[i].id == s.callers[c].id && s.users[i].role == s.callers[c].phase.role)
  }

  ghost predicate NoSetRole(acts: seq<Action>) { forall a | a in acts :: !a.SetRole? }

  lemma RoleInvStep(s: State, a: Action)
    requires RoleInv(s) && Enabled(s, a) && !a.SetRole?
    ensures RoleInv(Apply(s, a))
  {
    var t := Apply(s, a);
    assert forall i | 0 <= i < |s.users| :: t.users[i] == s.users[i];
    forall c | c in t.callers && t.callers[c].phase.Returned?
      ensures exists i | 0 <= i < |t.users| ::
                t.users[i].id == t.callers[c].id && t.users[i].role == t.callers[c].phase.role
    {
      if c in s.callers && s.callers[c].phase.Returned? {
        var i :| 0 <= i < |s.users| && s.users[i].id == s.callers[c].id && s.users[i].role == s.callers[c].phase.role;
        assert t.users[i] == s.users[i];
      } else if s.callers[c].phase.Commit? {
        assert t.users[|s.users|] == User(s.callers[c].id, s.callers[c].phase.role, c);
      } else {
        var i := IndexOf(s.users, s.callers[c].id).value;
        assert t.users[i].id == t.callers[c].id;
      }
    }
  }

  lemma {:induction false} Reachable(acts: seq<Action>, s: State)
    requires Exec(acts) == Some(s)
    ensures KeyInv(s)
    ensures NoSetRole(acts) ==> RoleInv(s)
  {
    if acts != [] {
      var a := acts[|acts| - 1];
      var before := Exec(acts[..|acts| - 1]).value;
      Reachable(acts[..|acts| - 1], before);
      KeyInvStep(before, a);
      if NoSetRole(acts) {
        assert a in acts;
        RoleInvStep(before, a);
      }
    }
  }

  /** In every run, once any call for an id has returned, the table holds exactly one row
      for that id. */
  lemma ExactlyOneRow(acts: seq<Action>, s: State, c: nat)
    requires Exec(acts) == Some(s) && c in s.callers && s.callers[c].phase.Returned?
    ensures HasRow(s.users, s.callers[c].id) && DistinctIds(s.users)
  {
    Reachable(acts, s);
    assert CallerOk(s, c);
  }

  /** While no role is set by hand, every call for an id returns the role of its one row. */
  lemma EveryCallerReturnsTheRow(acts: seq<Action>, s: State, c: nat, i: nat)
    requires Exec(acts) == Some(s) && NoSetRole(acts) && c in s.callers && s.callers[c].phase.Returned?
    requires i < |s.users| && s.users[i].id == s.callers[c].id
    ensures s.users[i].role == s.callers[c].phase.role
  {
    Reachable(acts, s);
    var j :| 0 <= j < |s.users| && s.users[j].id == s.callers[c].id && s.users[j].role == s.callers[c].phase.role;
    assert j == i;
  }

  /** A created user is admin exactly when the count of the call that created it saw an
      empty table.  The first user is always one. */
  lemma AdminSawEmptyTable(acts: seq<Action>, s: State, i: nat)
    requires Exec(acts) == Some(s) && NoSetRole(acts) && i < |s.users|
    ensures s.users[i].creator in s.callers
    ensures s.users[i].role == Admin <==> s.callers[s.users[i].creator].counted == Some(0)
    ensures i == 0 ==> s.users[i].role == Admin
  {
    hide Exec, NoSetRole, KeyInv, Finished;
    Reachable(acts, s);
  }

  /** The count and the INSERT are not one step: two first users can both become admin. */
  lemma TwoAdmins(x: string, y: string) returns (acts: seq<Action>, s: State)
    requires x != y
    ensures Exec(acts) == Some(s) && NoSetRole(acts)
    ensures s.users == [User(x, Admin, 0), User(y, Admin, 1)]
  {
    acts, s := Then([], INIT, Call(0, x));
    acts, s := Then(acts, s, Call(1, y));
    acts, s := BothCount(acts, s, x, y);
    acts, s := BothInsert(acts, s, x, y);
  }

  lemma BothCount(acts: seq<Action>, s: State, x: string, y: string) returns (more: seq<Action>, t: State)
    requires Exec(acts) == Some(s) && NoSetRole(acts)
    requires s.users == [] && s.callers == map[0 := Caller(x, None, Select), 1 := Caller(y, None, Select)]
    ensures Exec(more) == Some(t) && NoSetRole(more)
    ensures t.users == [] && t.callers.Keys == {0, 1}
    ensures t.callers[0] == Caller(x, Some(0), Insert(Admin)) && t.callers[1] == Caller(y, Some(0), Insert(Admin))
  {
    hide Exec, NoSetRole;
    more, t := Then(acts, s, Step(0));
    more, t := Then(more, t, Step(1));
    more, t := Then(more, t, Step(0));
    more, t := Then(more, t, Step(1));
  }

  lemma BothInsert(acts: seq<Action>, s: State, x: string, y: string) returns (more: seq<Action>, t: State)
    requires Exec(acts) == Some(s) && NoSetRole(acts) && x != y
    requires s.users == [] && 0 in s.callers && 1 in s.callers
    requires s.callers[0] == Caller(x, Some(0), Insert(Admin)) && s.callers[1] == Caller(y, Some(0), Insert(Admin))
    requires s.callers.Keys == {0, 1}
    ensures Exec(more) == Some(t) && NoSetRole(more)
    ensures t.users == [User(x, Admin, 0), User(y, Admin, 1)]
  {
    hide Exec, NoSetRole;
    more, t := Then(acts, s, Step(0));
    more, t := Then(more, t, Step(1));
    more, t := Then(more, t, Step(0));
    more, t := Then(more, t, Step(1));
  }

  lemma Then(acts: seq<Action>, s: State, a: Action) returns (more: seq<Action>, t: State)
    requires Exec(acts) == Some(s) && NoSetRole(acts) && Enabled(s, a) && !a.SetRole?
    ensures Exec(more) == Some(t) && NoSetRole(more) && more == acts + [a] && t == Apply(s, a)
  {
    more, t := acts + [a], Apply(s, a);
    assert more[..|acts|] == acts;
  }

  /** A call that raises leaves its row behind exactly if its COMMIT took effect. */
  lemma RaisedCommit(s: State, c: nat, applied: bool)
    requires Enabled(s, Fail(c, applied))
    ensures var t := Apply(s, Fail(c, applied));
            && t.callers[c].phase == Raised
            && t.users == s.users + (if applied && s.callers[c].phase.Commit?
                                     then [User(s.callers[c].id, s.callers[c].phase.role, c)] else [])
  {
  }

  // ---------------------------------------------------------------- the code

  /** The table a call leaves behind when nothing comes between its statements. */
  function Created(users: seq<User>, id: string, c: nat): (r: seq<User>)
    ensures users <= r && HasRow(r, id)
  {
    var i := IndexOf(users, id);
    if i.Some? then users else
      var r := users + [User(id, if users == [] then Admin else Plain, c)];
      assert r[|users|].id == id;
      r
  }

  /** How a statement can move a call. */
  predicate After(k: Caller, n: Caller) {
    && n.id == k.id
    && match k.phase
       case Select => n.phase.Returned? || n.phase == Count
       case Count => n.phase.Insert?
       case Insert(role) => n.phase == Reselect || n.phase == Commit(role)
       case Commit(_) | Reselect => n.phase.Returned?
       case Returned(_) | Raised => n == k
  }

  class Database {
    var s: State
    ghost var log: seq<Action>

    ghost predicate Valid()
      reads this
    {
      Exec(log) == Some(s)
    }

    method Do(a: Action)
      requires Valid() && Enabled(s, a)
      modifies this
      ensures Valid() && s == Apply(old(s), a) && log == old(log) + [a]
    {
      assert (log + [a])[..|log|] == log;
      s, log := Apply(s, a), log + [a];
    }

    /** Whatever other requests do before call `c` gets its turn. */
    method OthersRun(c: nat)
      requires Valid() && c in s.callers
      modifies this
      ensures Valid() && c in s.callers && s.callers[c] == old(s.callers[c])
    {
      var turns: nat := *;
      while turns > 0
        invariant Valid() && c in s.callers && s.callers[c] == old(s.callers[c])
      {
        var a: Action := *;
        if Enabled(s, a) && !By(a, c) { Do(a); }
        turns := turns - 1;
      }
    }

    /** One statement: the others run first unless the call is alone; it may fail, and an
        INSERT that waits for another call's commit may never return. */
    method Statement(c: nat, alone: bool, fails: bool) returns (raised: bool)
      requires Valid() && c in s.callers && !Finished(s.callers[c].phase)
      requires alone ==> Enabled(s, Step(c))
      modifies this
      ensures Valid() && c in s.callers
      ensures raised ==> s.callers[c] == old(s.callers[c]).(phase := Raised)
      ensures !raised ==> After(old(s.callers[c]), s.callers[c])
      ensures alone && !raised ==> s == Apply(old(s), Step(c))
      ensures alone && raised ==> s == Apply(old(s), Fail(c, false)) || s == Apply(old(s), Fail(c, true))
      ensures fails ==> raised
      ensures raised ==> fails || (!alone && Rivalled(s, c))
    {
      if !alone { OthersRun(c); }
      raised := fails || !Enabled(s, Step(c));
      if raised {
        var applied: bool := *;
        if !fails { NeverStuck(log, s, c); }
        ghost var rivals := s;
        Do(Fail(c, applied));
        if !fails { StillRivalled(rivals, s, c); }
      } else {
        Do(Step(c));
      }
    }

    /**
     `get_or_create_user`; `errors` are the statements that raise: 0 for the SELECT, 1 for
     the COUNT, 2 for the INSERT, 3 for the COMMIT or the second SELECT.  When it returns, the
     table holds exactly one row for the id.  Without errors it returns, unless it waits for
     another call for the same id; and when nothing comes between its statements it returns
     the role of the row that is there, or adds one, as admin exactly to an empty table.
     */
    method GetOrCreateUser(c: nat, id: string, alone: bool, errors: set<nat>) returns (role: Option<Role>)
      requires Valid() && c !in s.callers
      requires alone ==> forall o | o in s.callers :: !s.callers[o].phase.Commit?
      modifies this
      ensures Valid() && c in s.callers
      ensures role.Some? ==> s.callers[c].phase == Returned(role.value)
      ensures role.Some? ==> HasRow(s.users, id) && DistinctIds(s.users)
      ensures role.None? ==> errors != {} || (!alone && Rivalled(s, c))
      ensures 0 in errors ==> role.None?
      ensures alone ==> s.users == Created(old(s.users), id, c) || (role.None? && s.users == old(s.users))
      ensures alone && role.Some? && HasRow(old(s.users), id) ==>
                s.users == old(s.users) && exists u | u in s.users :: u.id == id && u.role == role.value
      ensures alone && role.Some? && !HasRow(old(s.users), id) ==>
                && s.users == old(s.users) + [User(id, role.value, c)]
                && (role.value == Admin <==> old(s.users) == [])
    {
      hide Exec;
      Do(Call(c, id));
      ghost var was := s.users;
      RowFound(was, id);
      var raised := Statement(c, alone, 0 in errors);  // SELECT
      if !raised && !s.callers[c].phase.Returned? {
        assert alone ==> s.users == was && !HasRow(was, id);
        raised := Statement(c, alone, 1 in errors);    // COUNT
        if !raised {
          raised := Statement(c, alone, 2 in errors);  // INSERT
          if !raised {
            assert alone ==> s.users == was && s.callers[c].phase == Commit(if was == [] then Admin else Plain);
            raised := Statement(c, alone, 3 in errors);  // COMMIT, or ROLLBACK and SELECT again
          }
        }
      }
      if raised { return None; }
      role := Some(s.callers[c].phase.role);
      ExactlyOneRow(log, s, c);
      if alone { CreatedExactly(was, id, c); }
    }
  }

  /** Another call is for the same id. */
  ghost predicate Rivalled(s: State, c: nat)
    requires c in s.callers
  {
    exists o | o in s.callers :: o != c && s.callers[o].id == s.callers[c].id
  }

  lemma StillRivalled(s: State, t: State, c: nat)
    requires c in s.callers && Rivalled(s, c) && s.callers.Keys <= t.callers.Keys
    requires forall o | o in s.callers :: t.callers[o].id == s.callers[o].id
    ensures Rivalled(t, c)
  {
    var o :| o in s.callers && o != c && s.callers[o].id == s.callers[c].id;
    assert o in t.callers && t.callers[o].id == t.callers[c].id;
  }

  /** A statement of a call in a run waits for another call for the same id, or not at all. */
  lemma NeverStuck(acts: seq<Action>, s: State, c: nat)
    requires Exec(acts) == Some(s) && c in s.callers && !Finished(s.callers[c].phase) && !Enabled(s, Step(c))
    ensures Rivalled(s, c)
  {
    Reachable(acts, s);
    assert CallerOk(s, c);
  }

  lemma RowFound(users: seq<User>, id: string)
    ensures HasRow(users, id) <==> IndexOf(users, id).Some?
  {
    if HasRow(users, id) {
      var i :| 0 <= i < |users| && users[i].id == id;
      assert users[i] in users;
    }
  }

  lemma CreatedExactly(users: seq<User>, id: string, c: nat)
    ensures HasRow(users, id) ==> Created(users, id, c) == users
    ensures !HasRow(users, id) ==> Created(users, id, c) == users + [User(id, if users == [] then Admin else Plain, c)]
  {
    if HasRow(users, id) {
      var i :| 0 <= i < |users| && users[i].id == id;
      assert users[i] in users;
    }
  }

  // ---------------------------------------------------------------- one call after the other

  /** The table after calls for these ids, one after the other. */
  function Registered(ids: seq<string>): seq<User> {
    if ids == [] then [] else Created(Registered(ids[..|ids| - 1]), ids[|ids| - 1], |ids| - 1)
  }

  ghost predicate FirstIsAdmin(users: seq<User>) {
    forall i | 0 <= i < |users| :: users[i].role == Admin <==> i == 0
  }

  lemma CreatedKeeps(users: seq<User>, id: string, c: nat)
    requires DistinctIds(users) && FirstIsAdmin(users)
    ensures DistinctIds(Created(users, id, c)) && FirstIsAdmin(Created(users, id, c))
  {
    assert forall i | 0 <= i < |users| :: users[i] in users;
  }

  lemma CreatedRows(users: seq<User>, id: string, c: nat, x: string)
    ensures HasRow(Created(users, id, c), x) <==> HasRow(users, x) || x == id
  {
    var now := Created(users, id, c);
    if HasRow(users, x) {
      var i :| 0 <= i < |users| && users[i].id == x;
      assert now[i].id == x;
    }
  }

  /** Sequential calls make exactly the first user admin, and one row for each id. */
  lemma {:induction false} SequentialFirstIsAdmin(ids: seq<string>)
    ensures DistinctIds(Registered(ids)) && FirstIsAdmin(Registered(ids))
    ensures forall id :: id in ids <==> HasRow(Registered(ids), id)
  {
    if ids != [] {
      var before, last := ids[..|ids| - 1], ids[|ids| - 1];
      SequentialFirstIsAdmin(before);
      hide Created, HasRow, DistinctIds, FirstIsAdmin;
      CreatedKeeps(Registered(before), last, |before|);
      forall id ensures id in ids <==> HasRow(Registered(ids), id) {
        assert ids == before + [last];
        CreatedRows(Registered(before), last, |before|, id);
      }
    } else {
      assert Registered(ids) == [];
    }
  }
}
