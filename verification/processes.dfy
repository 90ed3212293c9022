/** Subprocesses as the build steps see them. A process is never started
    here: each step receives the outcome of the command it issues, either
    an exit code with the lines the process printed, or a fault with the
    stage it arose in and its message, which may be null. Whether a fault
    is caught depends on the caller and on the stage. */
module Processes {
  import opened Wrappers

  /** Where a fault arose: starting the process (an IOException from
      ProcessBuilder.start), reading its output (an IOException, which a
      stream of lines rethrows as an UncheckedIOException) or waiting for
      it (an InterruptedException). */
  datatype Stage = Starting | Reading | Waiting

  datatype Outcome =
    | Exited(code: int, lines: seq<string>)
    | Faulted(stage: Stage, message: Option<string>)

  /** Where a process runs: a given directory, or the server's own working
      directory when none is set. */
  datatype Dir = Inherited | At(path: string)

  datatype Command = Command(dir: Dir, argv: seq<string>)

  /** Exited with status 0. */
  predicate Succeeded(o: Outcome) {
    o.Exited? && o.code == 0
  }

  /** How Java's string concatenation spells a possibly-null message. */
  function MessageText(m: Option<string>): string {
    if m.Some? then m.value else "null"
  }
}
