/**
 * The figures the cut-over page derives from the Stage 5 document
 * (src/pages/Stage5CutoverPage.tsx): the number of assertions over all test
 * suites, how many of them passed, and how far the migration runbook has got.
 */
module Stage5Cutover {
  import opened Types
  import opened Folds
  import opened Sequences

  function AssertionsTotal(suite: TestResult): int { suite.assertionsTotal }

  function AssertionsPassed(suite: TestResult): int { suite.assertionsPassed }

  /** `test_results.reduce((acc, suite) => acc + suite.assertions_total, 0)` */
  function TotalTests(suites: seq<TestResult>): (total: int)
    ensures suites == [] ==> total == 0
  {
    SumOf(suites, AssertionsTotal)
  }

  /** `test_results.reduce((acc, suite) => acc + suite.assertions_passed, 0)` */
  function PassedTests(suites: seq<TestResult>): (passed: int)
    ensures suites == [] ==> passed == 0
  {
    SumOf(suites, AssertionsPassed)
  }

  /** When no suite reports more passed assertions than it has, neither does the page. */
  lemma PassedWithinTotal(suites: seq<TestResult>)
    requires forall s :: s in suites ==> s.assertionsPassed <= s.assertionsTotal
    ensures PassedTests(suites) <= TotalTests(suites)
  {
    SumOfMonotone(suites, AssertionsPassed, AssertionsTotal);
  }

  /** One reduce step: a further suite adds its own counts to both sums. */
  lemma TestSumsStep(suites: seq<TestResult>, suite: TestResult)
    ensures TotalTests(suites + [suite]) == TotalTests(suites) + suite.assertionsTotal
    ensures PassedTests(suites + [suite]) == PassedTests(suites) + suite.assertionsPassed
  {
    assert (suites + [suite])[..|suites|] == suites;
  }

  /** Both sums are additive over concatenation of the suite list. */
  lemma TestSumsAppend(xs: seq<TestResult>, ys: seq<TestResult>)
    ensures TotalTests(xs + ys) == TotalTests(xs) + TotalTests(ys)
    ensures PassedTests(xs + ys) == PassedTests(xs) + PassedTests(ys)
  {
    SumOfAppend(xs, ys, AssertionsTotal);
    SumOfAppend(xs, ys, AssertionsPassed);
  }

  /** Both sums are independent of the order of the suites. */
  lemma TestSumsReorder(xs: seq<TestResult>, ys: seq<TestResult>)
    requires multiset(xs) == multiset(ys)
    ensures TotalTests(xs) == TotalTests(ys)
    ensures PassedTests(xs) == PassedTests(ys)
  {
    SumOfPermutation(xs, ys, AssertionsTotal);
    SumOfPermutation(xs, ys, AssertionsPassed);
  }

  predicate IsCompleted(step: CutOverStep) {
    step.status == StepCompleted
  }

  /** `migration_runbook.filter((s) => s.status === 'completed').length` */
  function CompletedSteps(runbook: seq<CutOverStep>): (n: nat)
    ensures n <= |runbook|
  {
    |Filter(runbook, IsCompleted)|
  }

  /** `migration_runbook.length` */
  function TotalSteps(runbook: seq<CutOverStep>): (n: nat)
    ensures n == |runbook|
    ensures CompletedSteps(runbook) <= n
  {
    |runbook|
  }

  /** The runbook is finished exactly when every step is completed. */
  lemma RunbookFinished(runbook: seq<CutOverStep>)
    ensures CompletedSteps(runbook) == TotalSteps(runbook) <==>
            forall i :: 0 <= i < |runbook| ==> runbook[i].status == StepCompleted
  {
    FilterLengthFull(runbook, IsCompleted);
  }

  /** No step is counted exactly when none is completed. */
  lemma RunbookNotStarted(runbook: seq<CutOverStep>)
    ensures CompletedSteps(runbook) == 0 <==>
            forall i :: 0 <= i < |runbook| ==> runbook[i].status != StepCompleted
  {
    FilterEmpty(runbook, IsCompleted);
  }

  /** The completed count is additive over concatenation of the runbook. */
  lemma CompletedStepsAppend(xs: seq<CutOverStep>, ys: seq<CutOverStep>)
    ensures CompletedSteps(xs + ys) == CompletedSteps(xs) + CompletedSteps(ys)
  {
    FilterAppend(xs, ys, IsCompleted);
  }
}
