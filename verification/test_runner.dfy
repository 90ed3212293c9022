/** TestRunner.runTests: switch the server's own checkout to the branch,
    pull, and run the parser's test class with Maven, reporting its output
    under a pass or fail heading. Nothing is caught here: a fault in any
    command leaves runTests as an exception. */
module TestRunner {
  import opened Wrappers
  import opened Strings
  import opened Processes

  function CheckoutCommand(branch: string): Command {
    Command(Inherited, ["git", "checkout", branch])
  }

  const PullCommand := Command(Inherited, ["git", "pull"])
  const TestCommand := Command(Inherited, ["mvn", "-B", "-Dtest=PushParserTest", "test"])

  const PassHeading := "All test passed \n"
  const FailHeading := "Tests failed \n"

  /** The commands issued and either the report or the fault that escaped. */
  datatype TestRun = TestRun(issued: seq<Command>, report: Result<string, Option<string>>)

  /** The StringBuilder loop: every line is appended followed by "\n". */
  method CollectOutput(lines: seq<string>) returns (log: string)
    ensures log == Terminated(lines, "\n")
  {
    log := "";
    var i := 0;
    while i < |lines|
      invariant 0 <= i <= |lines|
      invariant log == Terminated(lines[..i], "\n")
    {
      assert lines[..i + 1][..i] == lines[..i];
      log := log + lines[i] + "\n";
      i := i + 1;
    }
    assert lines[..|lines|] == lines;
  }

  /** runTests: the git exit codes are ignored; only Maven's decides the
      heading. A fault stops the run where it happens. */
  function RunTests(branch: string, checkout: Outcome, pull: Outcome, maven: Outcome): (r: TestRun)
    ensures r.report.Success? <==> checkout.Exited? && pull.Exited? && maven.Exited?
    ensures r.report.Success? ==>
      r.report.value == (if maven.code == 0 then PassHeading else FailHeading) + Terminated(maven.lines, "\n")
  {
    if checkout.Faulted? then TestRun([CheckoutCommand(branch)], Failure(checkout.message))
    else if pull.Faulted? then TestRun([CheckoutCommand(branch), PullCommand], Failure(pull.message))
    else
      var issued := [CheckoutCommand(branch), PullCommand, TestCommand];
      if maven.Faulted? then TestRun(issued, Failure(maven.message))
      else if maven.code == 0 then TestRun(issued, Success(PassHeading + Terminated(maven.lines, "\n")))
      else TestRun(issued, Success(FailHeading + Terminated(maven.lines, "\n")))
  }

  /** The commands are always a non-empty prefix of checkout, pull, test,
      and a fault is the only thing that shortens it. */
  lemma RunTestsIssues(branch: string, checkout: Outcome, pull: Outcome, maven: Outcome)
    ensures var r := RunTests(branch, checkout, pull, maven);
      var full := [CheckoutCommand(branch), PullCommand, TestCommand];
      && 1 <= |r.issued| <= 3
      && r.issued == full[..|r.issued|]
      && (|r.issued| < 3 <==> checkout.Faulted? || pull.Faulted?)
  {
  }

  /** Git's exit codes do not matter: any two exited git commands lead to
      the same run. */
  lemma GitExitCodesIgnored(branch: string, c1: int, l1: seq<string>, p1: int, m1: seq<string>,
                            c2: int, l2: seq<string>, p2: int, m2: seq<string>, maven: Outcome)
    ensures RunTests(branch, Exited(c1, l1), Exited(p1, m1), maven)
         == RunTests(branch, Exited(c2, l2), Exited(p2, m2), maven)
  {
  }

  /** Reading the heading back tells whether Maven passed, and the rest
      is the output, every line followed by a newline. */
  lemma ReportHeading(branch: string, checkout: Outcome, pull: Outcome, maven: Outcome)
    requires RunTests(branch, checkout, pull, maven).report.Success?
    ensures var rep := RunTests(branch, checkout, pull, maven).report.value;
      && (StartsWith(rep, PassHeading) <==> maven.code == 0)
      && (StartsWith(rep, FailHeading) <==> maven.code != 0)
      && rep[|rep| - 1] == '\n'
  {
    var rep := RunTests(branch, checkout, pull, maven).report.value;
    var log := Terminated(maven.lines, "\n");
    if maven.code == 0 {
      assert rep == PassHeading + log;
      assert rep[0] == 'A';
      assert !StartsWith(rep, FailHeading) by {
        assert rep[0] != FailHeading[0];
      }
    } else {
      assert rep == FailHeading + log;
      assert !StartsWith(rep, PassHeading) by {
        assert rep[0] != PassHeading[0];
      }
    }
  }
}
