/** Assertion and test-case counts: how passes add to them, and how runner and context agree. */
module TotalsKeeping {

  datatype Counts = Counts(passed: nat, failed: nat, failedButOk: nat) {
    function Total(): nat {
      passed + failed + failedButOk
    }

    predicate AtMost(other: Counts) {
      passed <= other.passed && failed <= other.failed && failedButOk <= other.failedButOk
    }

    /** Unsigned subtraction, allowed only where it cannot wrap. */
    function Minus(other: Counts): Counts
      requires other.AtMost(this)
    {
      Counts(passed - other.passed, failed - other.failed, failedButOk - other.failedButOk)
    }

    function Plus(other: Counts): Counts {
      Counts(passed + other.passed, failed + other.failed, failedButOk + other.failedButOk)
    }
  }

  const ZERO := Counts(0, 0, 0)

  datatype Totals = Totals(assertions: Counts, testCases: Counts) {
    function Plus(other: Totals): Totals {
      Totals(assertions.Plus(other.assertions), testCases.Plus(other.testCases))
    }
  }

  /** What a test case added: its assertions, and one test case, counted by its worst result. */
  function Delta(now: Totals, prev: Totals): Totals
    requires prev.assertions.AtMost(now.assertions) && prev.testCases.AtMost(now.testCases)
  {
    var a, t := now.assertions.Minus(prev.assertions), now.testCases.Minus(prev.testCases);
    Totals(a,
           if a.failed > 0 then t.(failed := t.failed + 1)
           else if a.failedButOk > 0 then t.(failedButOk := t.failedButOk + 1)
           else t.(passed := t.passed + 1))
  }

  /** An assertion is counted as passed, as failed, or (a suppressed failure) not at all. */
  datatype Result = Ok | Failed | Suppressed

  /** Failures of a pass of a test that may fail are moved to the tolerated ones. */
  function Reclassified(counts: Counts, before: Counts, okToFail: bool): (c: Counts)
    requires before.AtMost(counts)
    ensures c.Total() == counts.Total() && c.passed == counts.passed && before.AtMost(c)
    ensures okToFail ==> c.failed == before.failed
    ensures !okToFail ==> c == counts
  {
    if okToFail then
      var moved := counts.failed - before.failed;
      Counts(counts.passed, counts.failed - moved, counts.failedButOk + moved)
    else counts
  }
}
