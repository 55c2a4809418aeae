/**
  The shape every client form shares: an ordered chain of checks, each an
  early `return` that shows its message, so that the first failing check
  decides what the user sees and later checks are never reached.
*/
module Checks {

  /** One link of a chain: whether its condition holds (the check fails) and its message. */
  datatype Guard = Guard(fails: bool, message: string)

  /** What a chain yields: every check passed, or the message of the check that stopped it. */
  datatype Verdict = Pass | Fail(message: string)

  /** Check `k` fails and every check before it passes. */
  predicate FirstFailingAt(gs: seq<Guard>, k: int) {
    0 <= k < |gs| && gs[k].fails && forall m | 0 <= m < k :: !gs[m].fails
  }

  /** Runs the chain front to back and stops at the first failing check. */
  function FirstFailure(gs: seq<Guard>): (v: Verdict)
    ensures v == Pass <==> forall k | 0 <= k < |gs| :: !gs[k].fails
    ensures v.Fail? ==> exists k :: FirstFailingAt(gs, k) && v.message == gs[k].message
  {
    if gs == [] then
      Pass
    else if gs[0].fails then
      assert FirstFailingAt(gs, 0);
      Fail(gs[0].message)
    else
      var v := FirstFailure(gs[1..]);
      assert forall k :: FirstFailingAt(gs[1..], k) ==> FirstFailingAt(gs, k + 1);
      v
  }

  /** The check that fails first decides the verdict. */
  lemma {:induction false} FirstFailureIsFirst(gs: seq<Guard>, k: int)
    requires FirstFailingAt(gs, k)
    ensures FirstFailure(gs) == Fail(gs[k].message)
  {
    if k > 0 {
      assert FirstFailingAt(gs[1..], k - 1);
      FirstFailureIsFirst(gs[1..], k - 1);
    }
  }
}
