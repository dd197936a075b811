/**
 The sweep of `QueueClient.recover_pending_messages` over the consumer group's pending
 entries list, page by page through XAUTOCLAIM.
 */
module QueueClient {
  /** An entry of the pending list; ids are positive, and 0 stands for the id `0-0`. */
  datatype Entry = Entry(id: nat, owner: string, idle: nat, deliveries: nat)

  predicate Sorted(pel: seq<Entry>) {
    && (forall i :: 0 <= i < |pel| ==> pel[i].id > 0)
    && (forall i, j :: 0 <= i < j < |pel| ==> pel[i].id < pel[j].id)
  }

  predicate Stalled(e: Entry, timeout: nat) { e.idle >= timeout }

  /** The entry after the sweep has looked at it on behalf of `me`. */
  function Seen(e: Entry, me: string, timeout: nat): Entry {
    if Stalled(e, timeout) then Entry(e.id, me, 0, e.deliveries + 1) else e
  }

  /** The list after the sweep has looked at the entries from `lo` up to `hi`. */
  function Swept(pel: seq<Entry>, lo: nat, hi: nat, me: string, timeout: nat): (r: seq<Entry>)
    ensures |r| == |pel|
    ensures forall i :: 0 <= i < |r| ==> r[i] == if lo <= i < hi then Seen(pel[i], me, timeout) else pel[i]
  {
    seq(|pel|, i requires 0 <= i < |pel| => if lo <= i < hi then Seen(pel[i], me, timeout) else pel[i])
  }

  /** The ids of the stalled entries, in list order. */
  function StalledIds(pel: seq<Entry>, timeout: nat): seq<nat> {
    if pel == [] then []
    else StalledIds(pel[..|pel| - 1], timeout)
         + (if Stalled(pel[|pel| - 1], timeout) then [pel[|pel| - 1].id] else [])
  }

  /** The ids listed are those of the stalled entries. */
  lemma {:induction false} StalledIdsMembers(pel: seq<Entry>, timeout: nat, id: nat)
    ensures id in StalledIds(pel, timeout) <==> exists e | e in pel :: e.id == id && Stalled(e, timeout)
    decreases |pel|
  {
    if pel != [] {
      var n := |pel| - 1;
      StalledIdsMembers(pel[..n], timeout, id);
      assert pel == pel[..n] + [pel[n]];
    }
  }

  /** Every stalled entry is listed exactly once, in id order, and nothing else is. */
  lemma {:induction false} StalledIdsExact(pel: seq<Entry>, timeout: nat)
    requires Sorted(pel)
    ensures var ids := StalledIds(pel, timeout);
            && (forall i, j :: 0 <= i < j < |ids| ==> ids[i] < ids[j])
            && (forall id: nat :: id in ids <==> exists e | e in pel :: e.id == id && Stalled(e, timeout))
    decreases |pel|
  {
    if pel != [] {
      var n := |pel| - 1;
      var before := StalledIds(pel[..n], timeout);
      StalledIdsExact(pel[..n], timeout);
      forall i | 0 <= i < |before| ensures before[i] < pel[n].id {
        assert before[i] in before;
        StalledIdsMembers(pel[..n], timeout, before[i]);
        var e :| e in pel[..n] && e.id == before[i] && Stalled(e, timeout);
      }
      assert StalledIds(pel, timeout) == before + (if Stalled(pel[n], timeout) then [pel[n].id] else []);
    }
    forall id: nat
      ensures id in StalledIds(pel, timeout) <==> exists e | e in pel :: e.id == id && Stalled(e, timeout)
    {
      StalledIdsMembers(pel, timeout, id);
    }
  }

  /** What one page finds is what lies between where it starts and where it stops. */
  lemma StalledIdsSplit(pel: seq<Entry>, k: nat, timeout: nat)
    requires k < |pel|
    ensures StalledIds(pel[..k + 1], timeout)
         == StalledIds(pel[..k], timeout) + (if Stalled(pel[k], timeout) then [pel[k].id] else [])
  {
    assert pel[..k + 1][..k] == pel[..k];
  }

  lemma SweptStep(pel: seq<Entry>, lo: nat, k: nat, me: string, timeout: nat)
    requires lo <= k < |pel|
    ensures Swept(pel, lo, k + 1, me, timeout) == Swept(pel, lo, k, me, timeout)[k := Seen(pel[k], me, timeout)]
  {
  }

  /** Between `lo` and `hi` the entries idle for the timeout are `me`'s, freshly delivered once
      more, and everything else is as it was. */
  ghost predicate TakenOver(was: seq<Entry>, now: seq<Entry>, lo: nat, hi: nat, me: string, timeout: nat) {
    |now| == |was| && forall i | 0 <= i < |was| ::
      if lo <= i < hi && was[i].idle >= timeout then
        now[i].id == was[i].id && now[i].owner == me && now[i].idle == 0 && now[i].deliveries == was[i].deliveries + 1
      else now[i] == was[i]
  }

  lemma SweptIsTakenOver(was: seq<Entry>, me: string, timeout: nat)
    ensures TakenOver(was, Swept(was, 0, |was|, me, timeout), 0, |was|, me, timeout)
  {
  }

  class Client {
    var pel: seq<Entry>
    const consumer: string
    const timeout: nat

    constructor (pel: seq<Entry>, consumer: string, timeout: nat)
      ensures this.pel == pel && this.consumer == consumer && this.timeout == timeout
    {
      this.pel, this.consumer, this.timeout := pel, consumer, timeout;
    }

    /** The position of the first entry at or after `start`. */
    method Seek(start: nat) returns (i: nat)
      requires Sorted(pel)
      ensures i <= |pel| && forall j :: 0 <= j < |pel| ==> (pel[j].id < start <==> j < i)
    {
      i := 0;
      while i < |pel| && pel[i].id < start
        invariant i <= |pel| && forall j :: 0 <= j < i ==> pel[j].id < start
      {
        i := i + 1;
      }
    }

    /**
     XAUTOCLAIM: from the first entry at or after `start`, look at ten times `count`
     entries, or at fewer if the list ends or `count` stalled ones have been taken over;
     `next` is the first entry not looked at, or 0 at the end of the list.
     */
    method XAutoClaim(start: nat, count: nat) returns (next: nat, claimed: seq<nat>, ghost lo: nat, ghost hi: nat)
      requires Sorted(pel) && count > 0
      modifies this
      ensures lo <= hi <= |pel| && (lo < |pel| ==> lo < hi)
      ensures forall i :: 0 <= i < |old(pel)| ==> (old(pel)[i].id < start <==> i < lo)
      ensures pel == Swept(old(pel), lo, hi, consumer, timeout)
      ensures StalledIds(old(pel)[..hi], timeout) == StalledIds(old(pel)[..lo], timeout) + claimed
      ensures next == if hi < |pel| then old(pel)[hi].id else 0
      ensures |claimed| <= count && hi - lo <= 10 * count
      ensures hi == |pel| || hi - lo == 10 * count || |claimed| == count
      ensures TakenOver(old(pel), pel, lo, hi, consumer, timeout)
    {
      hide StalledIds;
      var first := Seek(start);
      ghost var was := pel;
      var i := first;
      lo, claimed := first, [];
      while i < |pel| && i - first < 10 * count && |claimed| < count
        invariant first <= i <= |was| == |pel|
        invariant pel == Swept(was, first, i, consumer, timeout)
        invariant StalledIds(was[..i], timeout) == StalledIds(was[..first], timeout) + claimed
        invariant |claimed| <= count && i - first <= 10 * count && (i == first ==> claimed == [])
        decreases |pel| - i
      {
        StalledIdsSplit(was, i, timeout);
        SweptStep(was, first, i, consumer, timeout);
        assert pel[i] == was[i];
        if pel[i].idle >= timeout {
          claimed := claimed + [pel[i].id];
          pel := pel[i := Entry(pel[i].id, consumer, 0, pel[i].deliveries + 1)];
        }
        i := i + 1;
      }
      hi, next := i, if i < |pel| then pel[i].id else 0;
    }

    /** The pages of the sweep, one after the other. */
    method ClaimPages(count: nat) returns (all: seq<nat>)
      requires Sorted(pel) && count > 0
      modifies this
      ensures all == StalledIds(old(pel), timeout)
      ensures pel == Swept(old(pel), 0, |old(pel)|, consumer, timeout) && Sorted(pel)
    {
      hide Swept;
      var start := 0;
      all := [];
      ghost var was := pel;
      ghost var at: nat := 0;
      while true
        invariant at <= |was| == |pel| && Resumable(was, at, start)
        invariant pel == Swept(was, 0, at, consumer, timeout) && Sorted(pel)
        invariant all == StalledIds(was[..at], timeout)
        decreases |was| - at + (if start == 0 then 1 else 0)
      {
        ghost var here := pel;
        var next, claimed, lo, hi := XAutoClaim(start, count);
        Resumes(was, here, at, lo, start, consumer, timeout);
        SweptOn(was, here, at, hi, claimed, consumer, timeout);
        all := all + claimed;
        at := hi;
        if next == 0 {
          assert was[..at] == was;
          break;
        }
        start := next;
      }
    }

    /**
     The sweep ends, whatever the page size and the length of the list; it returns every
     entry that was idle for the timeout exactly once in id order, leaves those owned by this
     consumer with their idle time reset and one more delivery, and leaves all others as
     they were.
     */
    method RecoverPendingMessages(count: nat) returns (all: seq<nat>)
      requires Sorted(pel) && count > 0
      modifies this
      ensures all == StalledIds(old(pel), timeout)
      ensures Sorted(pel) && |pel| == |old(pel)|
      ensures forall i | 0 <= i < |pel| && old(pel)[i].idle >= timeout ::
                && pel[i].id == old(pel)[i].id && pel[i].owner == consumer && pel[i].idle == 0
                && pel[i].deliveries == old(pel)[i].deliveries + 1
      ensures forall i | 0 <= i < |pel| && old(pel)[i].idle < timeout :: pel[i] == old(pel)[i]
      ensures forall i, j | 0 <= i < j < |all| :: all[i] < all[j]
      ensures forall id: nat :: id in all <==> exists e | e in old(pel) :: e.id == id && e.idle >= timeout
    {
      StalledIdsExact(pel, timeout);
      SweptIsTakenOver(pel, consumer, timeout);
      hide Swept, StalledIds, Sorted;
      all := ClaimPages(count);
    }
  }

  /** The sweep goes on at entry `start`, the one at this position, or begins. */
  predicate Resumable(was: seq<Entry>, at: nat, start: nat) {
    if start == 0 then at == 0 else at < |was| && was[at].id == start
  }

  /** A page starts where the previous one stopped. */
  lemma Resumes(was: seq<Entry>, here: seq<Entry>, at: nat, lo: nat, start: nat, me: string, timeout: nat)
    requires Sorted(was) && at <= |was| && here == Swept(was, 0, at, me, timeout)
    requires Resumable(was, at, start)
    requires lo <= |here| && forall i :: 0 <= i < |here| ==> (here[i].id < start <==> i < lo)
    ensures lo == at && |here| == |was| && forall i :: 0 <= i < |here| ==> here[i].id == was[i].id && here[i].id > 0
  {
    assert forall i :: 0 <= i < |here| ==> here[i].id == was[i].id;
    assert start > 0 ==> here[at].id == start;
    assert start > 0 ==> forall i | 0 <= i < at :: here[i].id < start;
    assert lo < |here| ==> here[lo].id >= start;
    assert |here| > 0 ==> here[0].id >= 0;
  }

  /** Sweeping up to `at` and then from `at` to `hi` is sweeping up to `hi`; the second
      page finds in the list what it would have found at the outset. */
  lemma SweptOn(was: seq<Entry>, here: seq<Entry>, at: nat, hi: nat, claimed: seq<nat>, me: string, timeout: nat)
    requires Sorted(was) && at <= hi <= |was| && here == Swept(was, 0, at, me, timeout)
    requires StalledIds(here[..hi], timeout) == StalledIds(here[..at], timeout) + claimed
    ensures Swept(here, at, hi, me, timeout) == Swept(was, 0, hi, me, timeout)
    ensures Sorted(Swept(was, 0, hi, me, timeout))
    ensures StalledIds(was[..hi], timeout) == StalledIds(was[..at], timeout) + claimed
  {
    hide StalledIds;
    StalledTail(was, here, at, hi, timeout);
  }

  /** The stalled ids found between two positions depend on the entries between them only. */
  lemma {:induction false} StalledTail(was: seq<Entry>, here: seq<Entry>, at: nat, hi: nat, timeout: nat)
    requires |was| == |here| && at <= hi <= |was| && forall i :: at <= i < hi ==> was[i] == here[i]
    ensures |StalledIds(was[..hi], timeout)| >= |StalledIds(was[..at], timeout)|
    ensures |StalledIds(here[..hi], timeout)| >= |StalledIds(here[..at], timeout)|
    ensures StalledIds(was[..hi], timeout)
         == StalledIds(was[..at], timeout) + StalledIds(here[..hi], timeout)[|StalledIds(here[..at], timeout)|..]
    decreases hi
  {
    if at < hi {
      StalledTail(was, here, at, hi - 1, timeout);
      StalledIdsSplit(was, hi - 1, timeout);
      StalledIdsSplit(here, hi - 1, timeout);
    }
  }
}
