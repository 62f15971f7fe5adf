/** The test-runner app of the unit-test addon (`ofxUnitTestsApp`): the
    three counters `test` and `test_eq` keep, the pass flag and exit code
    `setup` derives from them, and the console colour the logger channel
    picks per log level. The log text, the timing and the CI reporting are
    left out; the outcomes of the user's tests are a parameter. */
module UnitTests {
  /** `ofLogLevel`. */
  datatype LogLevel = Verbose | Notice | Warning | Error | FatalError | Silent

  const CON_DEFAULT: string := "\U{1b}[0m"
  const CON_RED: string := "\U{1b}[31m"
  const CON_YELLOW: string := "\U{1b}[33m"
  const CON_GREEN: string := "\U{1b}[32m"

  /** `ofColorsLoggerChannel::getColor`. */
  function GetColor(level: LogLevel): (c: string)
    ensures c == CON_RED <==> level == Error || level == FatalError
    ensures c == CON_YELLOW <==> level == Warning
    ensures c == CON_GREEN <==> level == Notice
    ensures c == CON_DEFAULT <==> level == Verbose || level == Silent
  {
    match level
    case FatalError => CON_RED
    case Error => CON_RED
    case Warning => CON_YELLOW
    case Notice => CON_GREEN
    case _ => CON_DEFAULT
  }

  /** How many of the outcomes are passes. */
  function CountPassed(outcomes: seq<bool>): (n: nat)
    ensures n <= |outcomes|
  {
    if |outcomes| == 0 then 0
    else CountPassed(outcomes[..|outcomes| - 1]) + (if outcomes[|outcomes| - 1] then 1 else 0)
  }

  /** How many of the outcomes are failures. */
  function CountFailed(outcomes: seq<bool>): (n: nat)
    ensures n <= |outcomes|
  {
    if |outcomes| == 0 then 0
    else CountFailed(outcomes[..|outcomes| - 1]) + (if outcomes[|outcomes| - 1] then 0 else 1)
  }

  /** Every outcome is exactly one of a pass and a failure. */
  lemma {:induction false} PassedPlusFailed(outcomes: seq<bool>)
    ensures CountPassed(outcomes) + CountFailed(outcomes) == |outcomes|
  {
    if |outcomes| > 0 {
      PassedPlusFailed(outcomes[..|outcomes| - 1]);
    }
  }

  /** No failure is counted exactly when every outcome is a pass. */
  lemma {:induction false} NoFailureIffAllPassed(outcomes: seq<bool>)
    ensures CountFailed(outcomes) == 0 <==> forall i :: 0 <= i < |outcomes| ==> outcomes[i]
  {
    if |outcomes| > 0 {
      var init := outcomes[..|outcomes| - 1];
      NoFailureIffAllPassed(init);
      if CountFailed(outcomes) == 0 {
        forall i | 0 <= i < |outcomes|
          ensures outcomes[i]
        {
          if i < |outcomes| - 1 {
            assert outcomes[i] == init[i];
          }
        }
      }
    }
  }

  /** The pass flag as `setup` computes it: true when some test FAILED. */
  function PassedFlagAsWritten(numTestsFailed: int): bool
  {
    numTestsFailed > 0
  }

  /** A run in which every test passes is reported as failed. */
  lemma AllPassingReportedFailed(outcomes: seq<bool>)
    requires forall i :: 0 <= i < |outcomes| ==> outcomes[i]
    ensures !PassedFlagAsWritten(CountFailed(outcomes))
  {
    NoFailureIffAllPassed(outcomes);
  }

  /** The evidently intended pass flag: no test failed. */
  function PassedFlag(numTestsFailed: int): bool
  {
    numTestsFailed == 0
  }

  /** The intended flag holds exactly when every test passed, which is
      also when the exit code is 0. */
  lemma PassedFlagIffAllPassed(outcomes: seq<bool>)
    ensures PassedFlag(CountFailed(outcomes)) <==> forall i :: 0 <= i < |outcomes| ==> outcomes[i]
  {
    NoFailureIffAllPassed(outcomes);
  }

  class UnitTestsApp {
    var numTestsTotal: int
    var numTestsPassed: int
    var numTestsFailed: int

    /** Every test counted is counted as exactly one of passed and
        failed. */
    predicate Valid()
      reads this
    {
      0 <= numTestsPassed && 0 <= numTestsFailed && numTestsTotal == numTestsPassed + numTestsFailed
    }

    /** The counters start at zero. */
    constructor ()
      ensures Valid() && numTestsTotal == 0 && numTestsPassed == 0 && numTestsFailed == 0
    {
      numTestsTotal := 0;
      numTestsPassed := 0;
      numTestsFailed := 0;
    }

    /** `test(ok, ...)`: one more test, and one more pass or failure. */
    method Test(ok: bool)
      requires Valid()
      modifies this
      ensures Valid()
      ensures numTestsTotal == old(numTestsTotal) + 1
      ensures numTestsPassed == old(numTestsPassed) + (if ok then 1 else 0)
      ensures numTestsFailed == old(numTestsFailed) + (if ok then 0 else 1)
    {
      numTestsTotal := numTestsTotal + 1;
      if ok {
        numTestsPassed := numTestsPassed + 1;
      } else {
        numTestsFailed := numTestsFailed + 1;
      }
    }

    /** `test_eq(t1, t2, ...)`: a pass exactly when the values are equal. */
    method TestEq<T(==)>(t1: T, t2: T)
      requires Valid()
      modifies this
      ensures Valid()
      ensures numTestsTotal == old(numTestsTotal) + 1
      ensures numTestsPassed == old(numTestsPassed) + (if t1 == t2 then 1 else 0)
      ensures numTestsFailed == old(numTestsFailed) + (if t1 == t2 then 0 else 1)
    {
      numTestsTotal := numTestsTotal + 1;
      if t1 == t2 {
        numTestsPassed := numTestsPassed + 1;
      } else {
        numTestsFailed := numTestsFailed + 1;
      }
    }

    /** `setup`: runs the tests, whose outcomes `run` would produce, then
        computes the pass flag exactly as written and exits with the number
        of failures. */
    method Setup(outcomes: seq<bool>) returns (passed: bool, exitCode: int)
      requires Valid()
      modifies this
      ensures Valid()
      ensures numTestsPassed == old(numTestsPassed) + CountPassed(outcomes)
      ensures numTestsFailed == old(numTestsFailed) + CountFailed(outcomes)
      ensures numTestsTotal == old(numTestsTotal) + |outcomes|
      ensures passed == PassedFlagAsWritten(numTestsFailed) && exitCode == numTestsFailed
    {
      var i := 0;
      while i < |outcomes|
        invariant 0 <= i <= |outcomes| && Valid()
        invariant numTestsPassed == old(numTestsPassed) + CountPassed(outcomes[..i])
        invariant numTestsFailed == old(numTestsFailed) + CountFailed(outcomes[..i])
      {
        assert outcomes[..i + 1][..i] == outcomes[..i];
        Test(outcomes[i]);
        i := i + 1;
      }
      assert outcomes[..|outcomes|] == outcomes;
      PassedPlusFailed(outcomes);
      passed := numTestsFailed > 0;
      exitCode := numTestsFailed;
    }
  }
}
