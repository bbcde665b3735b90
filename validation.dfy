/** The `{error: false}` / `{error: true, message}` objects returned by the hand-written
    validators, and the early-return ladder they are all built from. */
module Validation {

  datatype Verdict = Accepted | Rejected(message: string)

  /** One rung of a ladder: whether the input passes it, and what is reported if not. */
  datatype Check = Check(passes: bool, message: string)

  predicate AllPass(checks: seq<Check>) {
    forall i :: 0 <= i < |checks| ==> checks[i].passes
  }

  /** Reference semantics of an early-return ladder: the checks run in order and the
      message of the first one that fails is reported. */
  function FirstFailure(checks: seq<Check>): Verdict {
    if checks == [] then Accepted
    else if !checks[0].passes then Rejected(checks[0].message)
    else FirstFailure(checks[1..])
  }

  /** A ladder accepts exactly when every check passes. */
  lemma {:induction false} FirstFailureAccepts(checks: seq<Check>)
    ensures FirstFailure(checks).Accepted? <==> AllPass(checks)
  {
    if checks != [] {
      FirstFailureAccepts(checks[1..]);
      if checks[0].passes {
        assert AllPass(checks) <==> AllPass(checks[1..]) by {
          forall i | 0 <= i < |checks[1..]| ensures checks[1..][i] == checks[i + 1] { }
        }
      }
    }
  }

  /** A ladder that rejects names a check that fails while every earlier one passes. */
  lemma {:induction false} FirstFailureReports(checks: seq<Check>)
    requires FirstFailure(checks).Rejected?
    ensures exists k :: 0 <= k < |checks| && !checks[k].passes
              && AllPass(checks[..k])
              && FirstFailure(checks) == Rejected(checks[k].message)
  {
    if checks[0].passes {
      FirstFailureReports(checks[1..]);
      var k :| 0 <= k < |checks[1..]| && !checks[1..][k].passes
                && AllPass(checks[1..][..k])
                && FirstFailure(checks[1..]) == Rejected(checks[1..][k].message);
      assert checks[..k + 1] == [checks[0]] + checks[1..][..k];
      assert !checks[k + 1].passes && AllPass(checks[..k + 1]);
    } else {
      assert AllPass(checks[..0]);
    }
  }

  /** Conversely, a check that fails after all earlier ones pass decides the verdict. */
  lemma {:induction false} FirstFailureAt(checks: seq<Check>, k: int)
    requires 0 <= k < |checks| && AllPass(checks[..k]) && !checks[k].passes
    ensures FirstFailure(checks) == Rejected(checks[k].message)
  {
    if k > 0 {
      assert checks[..k][0] == checks[0];
      assert checks[1..][..k - 1] == checks[..k][1..];
      FirstFailureAt(checks[1..], k - 1);
    }
  }
}
