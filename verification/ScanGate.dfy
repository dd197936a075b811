/** The image scan gate of `monitor_job`: at most twelve looks at the scan's status. */
module ScanGate {
  /** One answer of the registry; `severe` counts findings of the configured severity. */
  datatype Answer = InProgress | Pending | Complete(severe: nat) | OtherStatus | Raises

  const LOOKS := 12

  predicate Waiting(a: Answer) { a.InProgress? || a.Pending? }

  predicate Blocks(a: Answer) { a.Raises? || (a.Complete? && a.severe > 0) }

  /** The first answer that settles the scan, if it comes within the allowed looks, blocks the image. */
  predicate Blocked(answers: seq<Answer>)
    requires |answers| >= LOOKS
  {
    exists k :: 0 <= k < LOOKS && Blocks(answers[k]) && forall j :: 0 <= j < k ==> Waiting(answers[j])
  }

  /**
   The gate lets the image through unless the scan settled in time, and settled with a
   severe finding or an exception.  A scan that fails or does not settle in time lets
   the image through.
   */
  method Gate(answers: seq<Answer>) returns (pass: bool, attempts: nat)
    requires |answers| >= LOOKS
    ensures pass <==> !Blocked(answers)
    ensures !pass <==> exists k | 0 <= k < 12 ::
              && (answers[k] == Raises || (answers[k].Complete? && answers[k].severe > 0))
              && forall j | 0 <= j < k :: answers[j] in {InProgress, Pending}
    ensures 1 <= attempts <= 12 && forall j | 0 <= j < attempts - 1 :: answers[j] in {InProgress, Pending}
    ensures attempts < 12 ==> answers[attempts - 1] !in {InProgress, Pending}
  {
    var status := InProgress;
    attempts := 0;
    while Waiting(status) && attempts < LOOKS
      invariant attempts <= LOOKS
      invariant attempts == 0 ==> status == InProgress
      invariant attempts > 0 ==> status == answers[attempts - 1] && !status.Raises?
      invariant forall j :: 0 <= j < attempts - 1 ==> Waiting(answers[j])
    {
      attempts := attempts + 1;
      status := answers[attempts - 1];
      if status.Raises? {
        assert Blocks(answers[attempts - 1]);
        return false, attempts;
      }
    }
    pass := !(status.Complete? && status.severe > 0);
    if !pass { assert Blocks(answers[attempts - 1]); }
  }

  /** Only a severe finding or an exception in the first settled answer stops an image:
      any other first settled answer, or none in time, lets it through. */
  lemma GateDecidedByFirstSettled(answers: seq<Answer>, k: nat)
    requires |answers| >= LOOKS && k < LOOKS && !Waiting(answers[k]) && forall j :: 0 <= j < k ==> Waiting(answers[j])
    ensures Blocked(answers) <==> answers[k] == Raises || (answers[k].Complete? && answers[k].severe > 0)
  {
    if Blocked(answers) {
      var i :| 0 <= i < LOOKS && Blocks(answers[i]) && forall j :: 0 <= j < i ==> Waiting(answers[j]);
      assert i >= k;
    }
  }
}
