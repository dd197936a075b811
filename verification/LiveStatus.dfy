/**
 The status socket of one deployment against every writer of its row.  Writers update
 the row and then publish; the socket subscribes and then reads the row.
 */
module LiveStatus {
  import opened Wrappers

  datatype Status = Queued | Building | Deploying | Verifying | Running | Failed | Retry | Dlq

  /** The states after which the socket closes. */
  predicate Terminal(st: Status) { st in {Running, Failed, Dlq} }

  /** A published status.  `write` is the row write it reports, if it reports one: the
      monitor and the rollback also publish `Queued` without writing. */
  datatype Message = Message(status: Status, write: Option<nat>)

  datatype Row = Unborn | Alive | Removed

  /** What the socket read: nothing yet, no row, or the row as of this write. */
  datatype Sight = Unread | NoRow(removed: bool) | RowAsOf(write: nat)

  /** Which the socket does first. */
  datatype Order = SubscribeFirst | ReadFirst

  datatype Live = Live(
    row: Row,
    writes: seq<Status>,        // every UPDATE (and first the INSERT), in order; without effect once the row is gone
    owed: set<nat>,             // writes whose publish is still to come
    published: set<nat>,        // writes whose publish went through
    subscribed: bool,
    seen: Sight,
    arrived: seq<Message>,      // what was published since the subscription
    taken: nat)                 // how many of these the socket has forwarded

  const START := Live(Unborn, [], {}, {}, false, Unread, [], 0)

  datatype Step =
    | Insert
    | Write(status: Status, announced: bool)  // the API's compensating update announces nothing
    | Remove
    | Publish(write: nat)
    | Lose(write: nat)                        // the publish fails, or the writer crashes before it
    | Announce                                // `Queued`, published without a write
    | Subscribe
    | Read
    | Forward

  /** The socket closes once it has forwarded a terminal status. */
  predicate Closed(s: Live)
    requires s.taken <= |s.arrived|
  {
    s.taken > 0 && Terminal(s.arrived[s.taken - 1].status)
  }

  predicate Enabled(order: Order, s: Live, a: Step) {
    match a
    case Insert => s.row == Unborn
    case Write(_, _) => s.row != Unborn
    case Remove => s.row == Alive
    case Publish(i) => i in s.owed && i < |s.writes|
    case Lose(i) => i in s.owed
    case Announce => true
    case Subscribe => !s.subscribed && (order == SubscribeFirst || !s.seen.Unread?)
    case Read => s.seen.Unread? && (order == ReadFirst || s.subscribed)
    case Forward => s.subscribed && !s.seen.Unread? && s.taken < |s.arrived| && !Closed(s)
  }

  function Arrive(s: Live, m: Message): Live {
    if s.subscribed then s.(arrived := s.arrived + [m]) else s
  }

  function Apply(order: Order, s: Live, a: Step): Live
    requires Enabled(order, s, a)
  {
    match a
    case Insert => s.(row := Alive, writes := s.writes + [Queued])
    case Write(st, announced) =>
      s.(writes := s.writes + [st], owed := if announced then s.owed + {|s.writes|} else s.owed)
    case Remove => s.(row := Removed)
    case Publish(i) =>
      Arrive(s.(owed := s.owed - {i}, published := s.published + {i}), Message(s.writes[i], Some(i)))
    case Lose(i) => s.(owed := s.owed - {i})
    case Announce => Arrive(s, Message(Queued, None))
    case Subscribe => s.(subscribed := true)
    case Read =>
      s.(seen := if s.row == Alive && |s.writes| > 0 then RowAsOf(|s.writes| - 1) else NoRow(s.row == Removed))
    case Forward => s.(taken := s.taken + 1)
  }

  /** The state after a run, if every step was enabled. */
  function Run(order: Order, steps: seq<Step>): Option<Live> {
    if steps == [] then Some(START)
    else
      var s := Run(order, steps[..|steps| - 1]);
      if s.Some? && Enabled(order, s.value, steps[|steps| - 1])
      then Some(Apply(order, s.value, steps[|steps| - 1])) else None
  }

  /** The socket has sent a status that write `j` gave the row. */
  ghost predicate Sent(s: Live, j: nat) {
    || s.seen == RowAsOf(j)
    || exists k | 0 <= k < s.taken && k < |s.arrived| :: s.arrived[k].write == Some(j)
  }

  ghost predicate Sound(s: Live) {
    && s.taken <= |s.arrived|
    && (forall i | i in s.owed :: i < |s.writes|)
    && (forall i | i in s.published :: i < |s.writes|)
    && (forall k | 0 <= k < |s.arrived| && s.arrived[k].write.Some? ::
          s.arrived[k].write.value < |s.writes| && s.arrived[k].status == s.writes[s.arrived[k].write.value])
    && (forall k | 0 <= k < |s.arrived| && s.arrived[k].write.None? :: s.arrived[k].status == Queued)
    && (s.row == Unborn ==> s.writes == [])
    && (s.row == Alive ==> s.writes != [])
    && (s.seen.RowAsOf? ==> s.seen.write < |s.writes|)
    && (forall k | 0 <= k < s.taken - 1 :: !Terminal(s.arrived[k].status))
  }

  ghost predicate Arrived(s: Live, i: nat) { exists k | 0 <= k < |s.arrived| :: s.arrived[k].write == Some(i) }

  /** Nothing published is lost to a socket that subscribes first: it arrives, or is at
      most as new as the row the socket reads, or the row was removed before the read. */
  ghost predicate Covered(s: Live) {
    forall i | i in s.published ::
      || Arrived(s, i)
      || (s.seen.Unread? && !s.subscribed)
      || (s.seen.Unread? && s.subscribed && s.row != Unborn)
      || (s.seen.RowAsOf? && i <= s.seen.write)
      || (s.seen == NoRow(true) && s.row == Removed)
  }

  lemma SoundStep(order: Order, s: Live, a: Step)
    requires Sound(s) && Enabled(order, s, a)
    ensures Sound(Apply(order, s, a))
  {
  }

  lemma CoveredStep(s: Live, a: Step)
    requires Sound(s) && Covered(s) && (!s.seen.Unread? ==> s.subscribed) && Enabled(SubscribeFirst, s, a)
    ensures Covered(Apply(SubscribeFirst, s, a))
  {
    var t := Apply(SubscribeFirst, s, a);
    forall i | i in s.published && Arrived(s, i) ensures Arrived(t, i) {
      var k :| 0 <= k < |s.arrived| && s.arrived[k].write == Some(i);
      assert t.arrived[k].write == Some(i);
    }
    if a.Publish? && s.subscribed {
      assert t.arrived[|s.arrived|].write == Some(a.write);
    }
  }

  lemma {:induction false} Invariants(steps: seq<Step>, s: Live)
    requires Run(SubscribeFirst, steps) == Some(s)
    ensures Sound(s) && Covered(s) && (!s.seen.Unread? ==> s.subscribed)
  {
    if steps != [] {
      var last := steps[|steps| - 1];
      var p := Run(SubscribeFirst, steps[..|steps| - 1]).value;
      Invariants(steps[..|steps| - 1], p);
      SoundStep(SubscribeFirst, p, last);
      CoveredStep(p, last);
    }
  }

  /**
   No terminal status is missed.  Take any run after which the socket has read the row
   and has nothing left to forward.  For every write whose publish went through, terminal
   ones included, it has sent the status of that write or of a later one, or has closed on
   a terminal status; unless it found the row already removed, and the status did not
   arrive after the subscription.
   */
  lemma NoTerminalStatusMissed(steps: seq<Step>, s: Live, i: nat)
    requires Run(SubscribeFirst, steps) == Some(s)
    requires !s.seen.Unread? && !Enabled(SubscribeFirst, s, Forward)
    requires i in s.published
    ensures i < |s.writes| && s.taken <= |s.arrived|
    ensures || (exists j: nat | i <= j < |s.writes| :: Sent(s, j))
            || (s.taken > 0 && s.arrived[s.taken - 1].status in {Running, Failed, Dlq})
            || (s.seen == NoRow(true) && !Arrived(s, i))
  {
    Invariants(steps, s);
    if Closed(s) {
    } else if Arrived(s, i) {
      assert Sent(s, i);
    } else if s.seen.RowAsOf? {
      assert Sent(s, s.seen.write);
    }
  }

  /** What a closed socket sent last is the terminal status of some write. */
  lemma ClosedOnAWrite(steps: seq<Step>, s: Live)
    requires Run(SubscribeFirst, steps) == Some(s)
    requires s.taken <= |s.arrived| && Closed(s)
    ensures exists j: nat | j < |s.writes| :: Sent(s, j) && s.writes[j] in {Running, Failed, Dlq}
  {
    Invariants(steps, s);
    assert Sent(s, s.arrived[s.taken - 1].write.value);
  }

  /** A status published without a write reaches an open socket too, and closes none. */
  lemma AnnouncedArrives(order: Order, s: Live)
    requires s.subscribed && s.taken <= |s.arrived| && !Closed(s)
    ensures Apply(order, s, Announce) == s.(arrived := s.arrived + [Message(Queued, None)])
    ensures !Closed(Apply(order, s, Announce))
  {
  }

  // ---------------------------------------------------------------- what is missed

  /** Whatever arrived was published. */
  ghost predicate Published(s: Live) {
    forall k | 0 <= k < |s.arrived| && s.arrived[k].write.Some? :: s.arrived[k].write.value in s.published
  }

  lemma {:induction false} AlwaysPublished(order: Order, steps: seq<Step>, s: Live)
    requires Run(order, steps) == Some(s)
    ensures Sound(s) && Published(s)
  {
    if steps != [] {
      var p := Run(order, steps[..|steps| - 1]).value;
      AlwaysPublished(order, steps[..|steps| - 1], p);
      SoundStep(order, p, steps[|steps| - 1]);
    }
  }

  /** In every run, of either order, the status of a write that was not published is sent
      exactly if the socket read the row as that write left it. */
  lemma UnpublishedSentExactly(order: Order, steps: seq<Step>, s: Live, i: nat)
    requires Run(order, steps) == Some(s) && i !in s.published
    ensures Sent(s, i) <==> s.seen == RowAsOf(i)
  {
    AlwaysPublished(order, steps, s);
  }

  /** The socket has read the row as another write left it, and the publish of write `i` is
      neither to come nor among what arrived. */
  ghost predicate Missed(s: Live, i: nat) {
    i < |s.writes| && i !in s.owed && !Arrived(s, i) && !s.seen.Unread? && s.seen != RowAsOf(i)
  }

  lemma MissedStep(order: Order, s: Live, a: Step, i: nat)
    requires Missed(s, i) && Enabled(order, s, a)
    ensures Missed(Apply(order, s, a), i)
  {
    var t := Apply(order, s, a);
    forall k | 0 <= k < |t.arrived| ensures t.arrived[k].write != Some(i) {
      if k < |s.arrived| { assert t.arrived[k] == s.arrived[k]; }
    }
  }

  /** What is missed is missed for good: no continuation of the run sends its status. */
  lemma {:induction false} MissedForGood(order: Order, steps: seq<Step>, s: Live, more: seq<Step>, t: Live, i: nat)
    requires Run(order, steps) == Some(s) && Missed(s, i) && Run(order, steps + more) == Some(t)
    ensures Missed(t, i) && !Sent(t, i)
    decreases |more|
  {
    if more == [] {
      assert steps + more == steps;
    } else {
      var front, last := more[..|more| - 1], more[|more| - 1];
      assert (steps + more)[..|steps + more| - 1] == steps + front;
      var p := Run(order, steps + front).value;
      MissedForGood(order, steps, s, front, p, i);
      MissedStep(order, p, last, i);
    }
  }

  /** A write that announces nothing, like the API's compensating Failed, is missed by every
      socket that has read the row before it. */
  lemma SilentWriteIsMissed(order: Order, steps: seq<Step>, s: Live, st: Status)
    requires Run(order, steps) == Some(s) && !s.seen.Unread? && s.row != Unborn
    ensures Enabled(order, s, Write(st, false)) && Missed(Apply(order, s, Write(st, false)), |s.writes|)
  {
    AlwaysPublished(order, steps, s);
  }

  /** If all terminal writes are missed, the socket does not close. */
  lemma StaysOpen(steps: seq<Step>, s: Live)
    requires Run(SubscribeFirst, steps) == Some(s)
    requires forall i: nat | i < |s.writes| && s.writes[i] in {Running, Failed, Dlq} :: Missed(s, i)
    ensures s.taken <= |s.arrived| && !Closed(s)
  {
    Invariants(steps, s);
    if Closed(s) { ClosedOnAWrite(steps, s); }
  }

  /** A socket that reads before it subscribes misses every write whose publish falls
      between the two, unless that is the write it read. */
  lemma ReadFirstMisses(steps: seq<Step>, s: Live, i: nat)
    requires Run(ReadFirst, steps) == Some(s) && !s.seen.Unread? && !s.subscribed
    requires i in s.owed && s.seen != RowAsOf(i)
    ensures Enabled(ReadFirst, s, Publish(i)) && i in Apply(ReadFirst, s, Publish(i)).published
    ensures Missed(Apply(ReadFirst, s, Publish(i)), i)
  {
    AlwaysPublished(ReadFirst, steps, s);
    NothingArrivesUnsubscribed(steps, s);
  }

  lemma {:induction false} NothingArrivesUnsubscribed(steps: seq<Step>, s: Live)
    requires Run(ReadFirst, steps) == Some(s) && !s.subscribed
    ensures s.arrived == []
  {
    if steps != [] { NothingArrivesUnsubscribed(steps[..|steps| - 1], Run(ReadFirst, steps[..|steps| - 1]).value); }
  }

  /** And there is such a run for every status: the write and its publish fall between the two. */
  lemma ReadFirstCanMiss(st: Status) returns (steps: seq<Step>, s: Live)
    ensures Run(ReadFirst, steps) == Some(s) && s.subscribed
    ensures 1 in s.published && s.writes == [Queued, st] && Missed(s, 1)
  {
    assert Run(ReadFirst, []) == Some(START);
    hide Run;
    steps, s := Then(ReadFirst, [], START, Insert);
    steps, s := Then(ReadFirst, steps, s, Read);
    steps, s := Then(ReadFirst, steps, s, Write(st, true));
    steps, s := Then(ReadFirst, steps, s, Publish(1));
    steps, s := Then(ReadFirst, steps, s, Subscribe);
  }

  lemma Then(order: Order, steps: seq<Step>, s: Live, a: Step) returns (more: seq<Step>, t: Live)
    requires Run(order, steps) == Some(s) && Enabled(order, s, a)
    ensures Run(order, more) == Some(t) && more == steps + [a] && t == Apply(order, s, a)
  {
    more, t := steps + [a], Apply(order, s, a);
    assert more[..|steps|] == steps;
  }

  /** The part of the messages the socket forwards: up to the first terminal one. */
  function Forwarded(messages: seq<Message>): (r: seq<Message>)
    ensures r <= messages
    ensures forall k | 0 <= k < |r| - 1 :: !Terminal(r[k].status)
    ensures r == messages || (r != [] && Terminal(r[|r| - 1].status))
  {
    if messages == [] then []
    else if Terminal(messages[0].status) then [messages[0]]
    else [messages[0]] + Forwarded(messages[1..])
  }

  /** The socket's handler: the row's status if there is a row, then the messages, closing on a terminal one. */
  method Serve(row: Option<Status>, messages: seq<Message>) returns (sent: seq<Status>, closed: bool)
    ensures var n := |Forwarded(messages)|;
            var first := if row.Some? then [row.value] else [];
            && |sent| == |first| + n && first <= sent
            && (forall k | 0 <= k < n :: sent[|first| + k] == messages[k].status)
            && (forall k | 0 <= k < n - 1 :: messages[k].status !in {Running, Failed, Dlq})
            && (closed <==> n > 0 && messages[n - 1].status in {Running, Failed, Dlq})
            && (closed || n == |messages|)
  {
    hide Forwarded;
    var first := if row.Some? then [row.value] else [];
    sent, closed := first, false;
    var i := 0;
    while i < |messages| && !closed
      invariant 0 <= i <= |messages|
      invariant |sent| == |first| + i && first <= sent
      invariant forall k | 0 <= k < i :: sent[|first| + k] == messages[k].status
      invariant forall k | 0 <= k < i - 1 :: !Terminal(messages[k].status)
      invariant closed <==> i > 0 && Terminal(messages[i - 1].status)
    {
      sent := sent + [messages[i].status];
      closed := Terminal(messages[i].status);
      i := i + 1;
    }
    ForwardedLength(messages, i);
  }

  /** The socket forwards up to the first terminal message, or all. */
  lemma ForwardedLength(messages: seq<Message>, n: nat)
    requires n <= |messages| && forall k | 0 <= k < n - 1 :: !Terminal(messages[k].status)
    requires n == |messages| || (n > 0 && Terminal(messages[n - 1].status))
    ensures |Forwarded(messages)| == n
  {
    var r := Forwarded(messages);
    assert forall k | 0 <= k < |r| :: r[k] == messages[k];
  }

  /** A socket with nothing left to forward has forwarded exactly what `Serve` forwards. */
  lemma ForwardedWhenDone(steps: seq<Step>, s: Live)
    requires Run(SubscribeFirst, steps) == Some(s)
    requires !s.seen.Unread? && !Enabled(SubscribeFirst, s, Forward)
    ensures s.taken == |Forwarded(s.arrived)|
  {
    Invariants(steps, s);
    ForwardedLength(s.arrived, s.taken);
  }
}
