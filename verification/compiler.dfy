/** Compiler.compile: clone one branch into a fresh temporary directory,
    check out the pushed commit, run `mvn clean compile`, and always remove
    the directory again. The model returns the CompilationResult together
    with the effects issued, in order: the commands run and the cleanup. */
module Compiler {
  import opened Wrappers
  import opened Strings
  import opened Processes
  import Workspace

  datatype CompilationResult = CompilationResult(success: bool, output: string)

  /** Files.createTempDirectory: the new directory and its parent, or the
      fault that prevented creating it. */
  datatype TempDir =
    | Created(path: string, parent: string)
    | CreateFailed(message: Option<string>)

  datatype Effect =
    | Run(command: Command)
    | Cleanup(dir: string)

  /** What compile did: the result it returned, or (`Failure`) that an
      exception left it, recorded by the message of the read fault that
      exception wraps, and the effects it issued. */
  datatype CompileRun = CompileRun(result: Result<CompilationResult, Option<string>>, effects: seq<Effect>)

  function CloneCommand(url: string, branch: string, tmp: TempDir): Command
    requires tmp.Created?
  {
    Command(At(tmp.parent), ["git", "clone", "--branch", branch, "--single-branch", url, tmp.path])
  }

  function CheckoutCommand(sha: string, tmp: TempDir): Command
    requires tmp.Created?
  {
    Command(At(tmp.path), ["git", "checkout", sha])
  }

  function MavenCommand(tmp: TempDir): Command
    requires tmp.Created?
  {
    Command(At(tmp.path), ["mvn", "clean", "compile"])
  }

  /** The commands compile issues, all three of them when nothing stops it. */
  function FullSequence(url: string, branch: string, sha: string, tmp: TempDir): seq<Effect>
    requires tmp.Created?
  {
    [Run(CloneCommand(url, branch, tmp)), Run(CheckoutCommand(sha, tmp)), Run(MavenCommand(tmp))]
  }

  const ClonePrefix := "Git clone failed with exit code "
  const CheckoutPrefix := "Git checkout failed with exit code "
  const ErrorPrefix := "Compilation error: "

  function FaultResult(m: Option<string>): CompilationResult {
    CompilationResult(false, ErrorPrefix + MessageText(m))
  }

  /** A fault that leaves compile. runProcess reads git's output with
      readLine, whose IOException the catch takes; runCompilation reads
      Maven's through a stream of lines, which rethrows it as an
      UncheckedIOException, and that the catch does not take. Faults in
      starting a process, closing its reader or waiting for it are
      caught; a fault in closing is represented as one in waiting. */
  predicate Escapes(maven: Outcome) {
    maven.Faulted? && maven.stage == Reading
  }

  /** runCompilation once Maven has exited: the output is its lines joined
      with the line separator `sep`, with no separator after the last, and
      the build succeeded exactly when Maven exited with 0. */
  function MavenResult(maven: Outcome, sep: string): (r: CompilationResult)
    requires maven.Exited?
    ensures r.success <==> maven.code == 0
    ensures r.output == Join(maven.lines, sep)
    ensures |maven.lines| == 0 ==> r.output == ""
    ensures |maven.lines| > 0 ==> |r.output| == TotalLength(maven.lines) + (|maven.lines| - 1) * |sep|
    ensures |maven.lines| > 0 ==>
      var last := maven.lines[|maven.lines| - 1];
      |last| <= |r.output| && r.output[|r.output| - |last|..] == last
  {
    if |maven.lines| > 0 then
      JoinLength(maven.lines, sep);
      JoinEndsWithLastLine(maven.lines, sep);
      CompilationResult(maven.code == 0, Join(maven.lines, sep))
    else
      CompilationResult(maven.code == 0, Join(maven.lines, sep))
  }

  /** The try block of compile, after the directory exists: each step's
      outcome decides whether the next command is issued. */
  function Steps(url: string, branch: string, sha: string, tmp: TempDir,
                 clone: Outcome, checkout: Outcome, maven: Outcome, sep: string): (r: CompileRun)
    requires tmp.Created?
    ensures 1 <= |r.effects| <= 3
    ensures r.effects == FullSequence(url, branch, sha, tmp)[..|r.effects|]
    ensures |r.effects| == 3 <==> Succeeded(clone) && Succeeded(checkout)
    ensures r.result.Failure? <==> Succeeded(clone) && Succeeded(checkout) && Escapes(maven)
    ensures r.result.Success? && r.result.value.success <==>
      Succeeded(clone) && Succeeded(checkout) && Succeeded(maven)
  {
    var cloneRun := [Run(CloneCommand(url, branch, tmp))];
    if clone.Faulted? then CompileRun(Success(FaultResult(clone.message)), cloneRun)
    else if clone.code != 0 then CompileRun(Success(CompilationResult(false, ClonePrefix + IntToString(clone.code))), cloneRun)
    else
      var checkoutRun := cloneRun + [Run(CheckoutCommand(sha, tmp))];
      if checkout.Faulted? then CompileRun(Success(FaultResult(checkout.message)), checkoutRun)
      else if checkout.code != 0 then CompileRun(Success(CompilationResult(false, CheckoutPrefix + IntToString(checkout.code))), checkoutRun)
      else
        var mavenRun := checkoutRun + [Run(MavenCommand(tmp))];
        if Escapes(maven) then CompileRun(Failure(maven.message), mavenRun)
        else if maven.Faulted? then CompileRun(Success(FaultResult(maven.message)), mavenRun)
        else CompileRun(Success(MavenResult(maven, sep)), mavenRun)
  }

  /** compile: the steps, every caught exception turned into a failed
      result, and the finally block's cleanup whenever the directory was
      created, also when an exception leaves compile. A failure to create
      the directory is caught before anything runs. */
  function Compile(url: string, branch: string, sha: string, tmp: TempDir,
                   clone: Outcome, checkout: Outcome, maven: Outcome, sep: string): (r: CompileRun)
    ensures tmp.CreateFailed? ==> r == CompileRun(Success(FaultResult(tmp.message)), [])
    ensures tmp.Created? ==> |r.effects| > 0 && r.effects[|r.effects| - 1] == Cleanup(tmp.path)
    ensures r.result.Failure? <==> tmp.Created? && Succeeded(clone) && Succeeded(checkout) && Escapes(maven)
    ensures r.result.Success? && r.result.value.success <==>
      tmp.Created? && Succeeded(clone) && Succeeded(checkout) && Succeeded(maven)
  {
    if tmp.CreateFailed? then CompileRun(Success(FaultResult(tmp.message)), [])
    else
      var steps := Steps(url, branch, sha, tmp, clone, checkout, maven, sep);
      CompileRun(steps.result, steps.effects + [Cleanup(tmp.path)])
  }

  /* ---------------------------------------------------------------
     Properties
     --------------------------------------------------------------- */

  function CountCleanups(effects: seq<Effect>): nat
    decreases |effects|
  {
    if |effects| == 0 then 0
    else (if effects[|effects| - 1].Cleanup? then 1 else 0) + CountCleanups(effects[..|effects| - 1])
  }

  lemma {:induction false} NoCleanupIn(effects: seq<Effect>)
    requires forall i | 0 <= i < |effects| :: effects[i].Run?
    ensures CountCleanups(effects) == 0
    decreases |effects|
  {
    if |effects| > 0 {
      NoCleanupIn(effects[..|effects| - 1]);
    }
  }

  /** The commands issued are a non-empty prefix of clone, checkout, Maven;
      after them comes exactly one cleanup, and it comes last. Without a
      directory nothing at all is issued. */
  lemma CompileEffects(url: string, branch: string, sha: string, tmp: TempDir,
                       clone: Outcome, checkout: Outcome, maven: Outcome, sep: string)
    ensures var r := Compile(url, branch, sha, tmp, clone, checkout, maven, sep);
      && (tmp.CreateFailed? ==> r.effects == [])
      && (tmp.Created? ==>
            && 2 <= |r.effects| <= 4
            && r.effects[..|r.effects| - 1] == FullSequence(url, branch, sha, tmp)[..|r.effects| - 1]
            && r.effects[|r.effects| - 1] == Cleanup(tmp.path)
            && CountCleanups(r.effects) == 1)
  {
    var r := Compile(url, branch, sha, tmp, clone, checkout, maven, sep);
    if tmp.Created? {
      var steps := Steps(url, branch, sha, tmp, clone, checkout, maven, sep);
      var full := FullSequence(url, branch, sha, tmp);
      assert steps.effects == full[..|steps.effects|];
      assert r.effects[..|r.effects| - 1] == steps.effects;
      NoCleanupIn(steps.effects);
    }
  }

  /** A failed clone ends the build: no checkout, no Maven, and the exit
      code is reported. */
  lemma CloneFailureStops(url: string, branch: string, sha: string, tmp: TempDir,
                          code: int, lines: seq<string>, checkout: Outcome, maven: Outcome, sep: string)
    requires tmp.Created? && code != 0
    ensures var r := Compile(url, branch, sha, tmp, Exited(code, lines), checkout, maven, sep);
      && r.result == Success(CompilationResult(false, "Git clone failed with exit code " + IntToString(code)))
      && r.effects == [Run(CloneCommand(url, branch, tmp)), Cleanup(tmp.path)]
  {
  }

  /** A failed checkout stops before Maven and reports its exit code. */
  lemma CheckoutFailureStops(url: string, branch: string, sha: string, tmp: TempDir,
                             cloneLines: seq<string>, code: int, lines: seq<string>, maven: Outcome, sep: string)
    requires tmp.Created? && code != 0
    ensures var r := Compile(url, branch, sha, tmp, Exited(0, cloneLines), Exited(code, lines), maven, sep);
      && r.result == Success(CompilationResult(false, "Git checkout failed with exit code " + IntToString(code)))
      && r.effects == [Run(CloneCommand(url, branch, tmp)), Run(CheckoutCommand(sha, tmp)), Cleanup(tmp.path)]
  {
  }

  /** When Maven runs, its exit code alone decides success, and the output
      is its lines joined with no separator after the last. */
  lemma MavenDecides(url: string, branch: string, sha: string, tmp: TempDir,
                     cloneLines: seq<string>, checkoutLines: seq<string>, code: int, lines: seq<string>, sep: string)
    requires tmp.Created?
    ensures var r := Compile(url, branch, sha, tmp, Exited(0, cloneLines), Exited(0, checkoutLines), Exited(code, lines), sep);
      && r.result.Success?
      && (r.result.value.success <==> code == 0)
      && r.result.value.output == Join(lines, sep)
      && r.effects == FullSequence(url, branch, sha, tmp) + [Cleanup(tmp.path)]
  {
  }

  /** A caught exception becomes a failed result carrying its message:
      failing to create the directory, any fault of a git step, and a
      Maven fault in starting or waiting. */
  lemma FaultBecomesFailure(url: string, branch: string, sha: string, tmp: TempDir,
                            clone: Outcome, checkout: Outcome, maven: Outcome, sep: string)
    requires tmp.CreateFailed?
      || (tmp.Created? && clone.Faulted?)
      || (tmp.Created? && Succeeded(clone) && checkout.Faulted?)
      || (tmp.Created? && Succeeded(clone) && Succeeded(checkout) && maven.Faulted? && !Escapes(maven))
    ensures var r := Compile(url, branch, sha, tmp, clone, checkout, maven, sep);
      var m := if tmp.CreateFailed? then tmp.message
               else if clone.Faulted? then clone.message
               else if checkout.Faulted? then checkout.message
               else maven.message;
      r.result == Success(CompilationResult(false, "Compilation error: " + MessageText(m)))
  {
  }

  /** Failing to read Maven's output is not caught: the exception leaves
      compile, after all three commands and the finally block's cleanup. */
  lemma UnreadableOutputEscapes(url: string, branch: string, sha: string, tmp: TempDir,
                                cloneLines: seq<string>, checkoutLines: seq<string>,
                                message: Option<string>, sep: string)
    requires tmp.Created?
    ensures var r := Compile(url, branch, sha, tmp, Exited(0, cloneLines), Exited(0, checkoutLines),
                             Faulted(Reading, message), sep);
      && r.result == Failure(message)
      && r.effects == FullSequence(url, branch, sha, tmp) + [Cleanup(tmp.path)]
  {
  }

  /** When every process fails (a non-zero exit or a fault), the clone
      already stops the build: compile returns a failed result. */
  lemma AllProcessesFail(url: string, branch: string, sha: string, tmp: TempDir,
                         clone: Outcome, checkout: Outcome, maven: Outcome, sep: string)
    requires !Succeeded(clone) && !Succeeded(checkout) && !Succeeded(maven)
    ensures var r := Compile(url, branch, sha, tmp, clone, checkout, maven, sep);
      r.result.Success? && !r.result.value.success
  {
  }

  /** The failure messages tell the steps apart and give the exit code
      back: the text after the prefix reads as the code. */
  lemma FailureMessageNamesStep(url: string, branch: string, sha: string, tmp: TempDir,
                                clone: Outcome, checkout: Outcome, maven: Outcome, sep: string)
    requires tmp.Created?
    ensures var res := Compile(url, branch, sha, tmp, clone, checkout, maven, sep).result;
      && (clone.Exited? && clone.code != 0 ==>
            && res.Success?
            && StartsWith(res.value.output, ClonePrefix)
            && ParseInt(res.value.output[|ClonePrefix|..]) == clone.code)
      && (Succeeded(clone) && checkout.Exited? && checkout.code != 0 ==>
            && res.Success?
            && StartsWith(res.value.output, CheckoutPrefix)
            && ParseInt(res.value.output[|CheckoutPrefix|..]) == checkout.code)
  {
    var res := Compile(url, branch, sha, tmp, clone, checkout, maven, sep).result;
    if clone.Exited? && clone.code != 0 {
      var out := res.value.output;
      assert out == ClonePrefix + IntToString(clone.code);
      assert out[|ClonePrefix|..] == IntToString(clone.code);
      IntToStringRoundTrip(clone.code);
    } else if Succeeded(clone) && checkout.Exited? && checkout.code != 0 {
      var out := res.value.output;
      assert out == CheckoutPrefix + IntToString(checkout.code);
      assert out[|CheckoutPrefix|..] == IntToString(checkout.code);
      IntToStringRoundTrip(checkout.code);
    }
  }

  /** What the cleanup effect does to the file system: with the walk
      listing the temporary tree and nothing in it locked, the tree is
      gone and every other path is untouched. */
  lemma CleanupLeavesNoTrace(fs: set<string>, locked: set<string>, tmp: TempDir, walk: seq<string>)
    requires tmp.Created?
    requires forall p :: p in walk <==> p in fs && Workspace.InTree(tmp.path, p)
    requires forall p | p in walk :: p !in locked
    ensures forall p :: p in Workspace.Cleanup(fs, locked, Some(walk)) <==> p in fs && !Workspace.InTree(tmp.path, p)
  {
    Workspace.CleanupRemovesTree(fs, locked, tmp.path, walk);
  }
}
