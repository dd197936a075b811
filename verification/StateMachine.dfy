/**
 `StateMachine.update_state`: write the row, then publish; try once more when the
 connection drops.  Other writers may come between the two attempts.
 */
module StateMachine {
  /** What happens to one attempt's UPDATE: it goes through, the connection drops before
      or after the server applied it, or another error is raised. */
  datatype Attempt = Fine | Dropped(applied: bool) | Error(applied: bool)

  datatype Status = Status(state: string, error: string)

  predicate Takes(a: Attempt) { if a.Fine? then true else a.applied }

  function Written(rows: map<string, Status>, dep: string, st: Status): map<string, Status> {
    if dep in rows then rows[dep := st] else rows
  }

  /** The rows after the writes of others, in order. */
  function AllWritten(rows: map<string, Status>, writes: seq<(string, Status)>): (r: map<string, Status>)
    ensures r.Keys == rows.Keys
  {
    if writes == [] then rows else AllWritten(Written(rows, writes[0].0, writes[0].1), writes[1..])
  }

  /** The rows when the call ends: one attempt, or two with the others' writes between them. */
  function Outcome(rows: map<string, Status>, dep: string, st: Status, first: Attempt, second: Attempt,
      others: seq<(string, Status)>): map<string, Status> {
    var once := if Takes(first) then Written(rows, dep, st) else rows;
    if !first.Dropped? then once
    else
      var between := AllWritten(once, others);
      if Takes(second) then Written(between, dep, st) else between
  }

  /** Others' writes and a write to another row can change places. */
  lemma {:induction false} WriteCommutes(rows: map<string, Status>, dep: string, st: Status,
      others: seq<(string, Status)>)
    requires forall w | w in others :: w.0 != dep
    ensures AllWritten(Written(rows, dep, st), others) == Written(AllWritten(rows, others), dep, st)
  {
    if others != [] {
      var x, v := others[0].0, others[0].1;
      assert others[0] in others;
      assert Written(Written(rows, dep, st), x, v) == Written(Written(rows, x, v), dep, st);
      WriteCommutes(Written(rows, x, v), dep, st, others[1..]);
    }
  }

  /** As long as no other writes the same row in between, trying again leaves what one write
      leaves. */
  lemma RepeatIsOneWrite(rows: map<string, Status>, dep: string, st: Status, first: Attempt, second: Attempt,
      others: seq<(string, Status)>)
    requires first.Dropped? && forall w | w in others :: w.0 != dep
    ensures Outcome(rows, dep, st, first, second, others)
         == if Takes(first) || Takes(second) then Written(AllWritten(rows, others), dep, st)
            else AllWritten(rows, others)
  {
    WriteCommutes(rows, dep, st, others);
  }

  /** What a row has after the others' writes: the last of them to it, or what it had. */
  function LastOf(st: Status, dep: string, others: seq<(string, Status)>): Status {
    if others == [] then st
    else if others[|others| - 1].0 == dep then others[|others| - 1].1
    else LastOf(st, dep, others[..|others| - 1])
  }

  lemma {:induction false} AllWrittenAppend(
      rows: map<string, Status>, front: seq<(string, Status)>, w: (string, Status))
    ensures AllWritten(rows, front + [w]) == Written(AllWritten(rows, front), w.0, w.1)
  {
    if front == [] {
      assert ([] + [w])[1..] == [];
    } else {
      assert (front + [w])[1..] == front[1..] + [w];
      AllWrittenAppend(Written(rows, front[0].0, front[0].1), front[1..], w);
    }
  }

  lemma {:induction false} AllWrittenAt(rows: map<string, Status>, dep: string, others: seq<(string, Status)>)
    requires dep in rows
    ensures AllWritten(rows, others)[dep] == LastOf(rows[dep], dep, others)
  {
    if others != [] {
      var front, last := others[..|others| - 1], others[|others| - 1];
      assert others == front + [last];
      AllWrittenAt(rows, dep, front);
      AllWrittenAppend(rows, front, last);
    }
  }

  /**
   The repetition overwrites other writers' work in exactly one case.  After a first attempt
   that took effect, the outcome is that of one write followed by the others' if and only if
   the second attempt takes no effect, or there is no row, or the last of the others' writes
   to the row, if there is one, wrote the same.
   */
  lemma RepeatOverwrites(
      rows: map<string, Status>, dep: string, st: Status, second: Attempt, others: seq<(string, Status)>)
    ensures Outcome(rows, dep, st, Dropped(true), second, others) == AllWritten(Written(rows, dep, st), others)
       <==> !Takes(second) || dep !in rows || LastOf(st, dep, others) == st
  {
    var one := AllWritten(Written(rows, dep, st), others);
    if dep in rows {
      AllWrittenAt(Written(rows, dep, st), dep, others);
      assert Takes(second) ==> Outcome(rows, dep, st, Dropped(true), second, others)[dep] == st;
    }
  }

  /** `LastOf` is what the last of the writes to the row wrote, or `st` if there is none. */
  lemma {:induction false} LastOfExactly(st: Status, dep: string, others: seq<(string, Status)>)
    ensures || (LastOf(st, dep, others) == st && forall w | w in others :: w.0 != dep)
            || exists k | 0 <= k < |others| ::
                 && others[k] == (dep, LastOf(st, dep, others))
                 && forall j | k < j < |others| :: others[j].0 != dep
  {
    if others != [] && others[|others| - 1].0 != dep {
      var n := |others| - 1;
      LastOfExactly(st, dep, others[..n]);
      if k :| 0 <= k < n && others[..n][k] == (dep, LastOf(st, dep, others[..n]))
              && forall j | k < j < n :: others[..n][j].0 != dep {
        assert others[k] == others[..n][k] && forall j | k < j < n :: others[j] == others[..n][j];
      } else {
        assert others == others[..n] + [others[n]];
      }
    }
  }

  /** The outcome, row by row. */
  lemma OutcomeAt(rows: map<string, Status>, dep: string, st: Status, first: Attempt, second: Attempt,
      others: seq<(string, Status)>)
    ensures var t := Outcome(rows, dep, st, first, second, others);
            && (dep in rows ==>
                  t[dep] == if !first.Dropped? then (if first.Fine? || first.applied then st else rows[dep])
                            else if second.Fine? || second.applied then st
                            else LastOf(if first.applied then st else rows[dep], dep, others))
            && forall x | x in rows && x != dep ::
                 t[x] == if first.Dropped? then LastOf(rows[x], x, others) else rows[x]
  {
    var once := if Takes(first) then Written(rows, dep, st) else rows;
    forall x | x in rows ensures AllWritten(once, others)[x] == LastOf(once[x], x, others) {
      AllWrittenAt(once, x, others);
    }
  }

  class Updater {
    var rows: map<string, Status>               // the deployments table
    var published: seq<(string, Status)>        // what reached the status channels, in order
    var connected: bool

    method Execute(dep: string, st: Status, outcome: Attempt)
      modifies this`rows, this`connected
      ensures rows == (if Takes(outcome) then Written(old(rows), dep, st) else old(rows)) && connected
    {
      connected := true;
      if outcome.Fine? || outcome.applied {
        rows := if dep in rows then rows[dep := st] else rows;
      }
    }

    /** The other writers, while this call has no connection. */
    method OthersWrite(others: seq<(string, Status)>)
      modifies this`rows
      ensures rows == AllWritten(old(rows), others)
    {
      var i := 0;
      while i < |others|
        invariant 0 <= i <= |others|
        invariant AllWritten(rows, others[i..]) == AllWritten(old(rows), others)
      {
        var dep, st := others[i].0, others[i].1;
        rows := if dep in rows then rows[dep := st] else rows;
        assert others[i..][1..] == others[i + 1..];
        i := i + 1;
      }
    }

    /**
     The call returns normally exactly when one of its at most two attempts goes through
     with nothing but a dropped connection before it.  Then the row, if there is one, has
     the new state when the call ends, and the publish followed the write.  When it
     raises, nothing was published.
     */
    method UpdateState(dep: string, st: Status, first: Attempt, second: Attempt, others: seq<(string, Status)>,
        redisUp: bool) returns (raised: bool)
      modifies this
      ensures !raised && dep in rows ==> rows[dep] == st
      ensures raised <==> !(first.Fine? || (first.Dropped? && second.Fine?))
      ensures rows == Outcome(old(rows), dep, st, first, second, others) && rows.Keys == old(rows).Keys
      ensures dep in old(rows) ==>
                rows[dep] == if !first.Dropped? then (if first.Fine? || first.applied then st else old(rows)[dep])
                             else if second.Fine? || second.applied then st
                             else LastOf(if first.applied then st else old(rows)[dep], dep, others)
      ensures forall x | x in old(rows) && x != dep ::
                rows[x] == if first.Dropped? then LastOf(old(rows)[x], x, others) else old(rows)[x]
      ensures published == old(published) + (if !raised && redisUp then [(dep, st)] else [])
    {
      OutcomeAt(rows, dep, st, first, second, others);
      var attempt := 0;
      while attempt < 2
        invariant 0 <= attempt <= 1
        invariant attempt == 0 ==> rows == old(rows)
        invariant attempt == 1 ==> first.Dropped?
        invariant attempt == 1 ==>
            rows == AllWritten(if first.applied then Written(old(rows), dep, st) else old(rows), others)
        invariant published == old(published) && rows.Keys == old(rows).Keys
      {
        var outcome := if attempt == 0 then first else second;
        Execute(dep, st, outcome);
        if outcome.Fine? {
          if redisUp { published := published + [(dep, st)]; }
          return false;
        }
        if !outcome.Dropped? || attempt == 1 { return true; }
        connected := false;
        OthersWrite(others);
        attempt := attempt + 1;
      }
      return true;
    }
  }
}
