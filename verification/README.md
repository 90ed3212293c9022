# A verified model of a small continuous-integration server

The server receives GitHub push notifications on `/webhook`. It keeps a
history of builds in a JSON file and shows it under `/builds`. It can also
compile a pushed commit in a temporary clone, and run the parser's tests
on a branch. This project models the deterministic core of those pieces in
Dafny and proves properties about them:

- **Push validation** (`PushParser.parse`), in `github.dfy` and
  `push_facts.dfy`. The payload is a parsed JSON tree (`json.dfy`); `None`
  stands for text that is not JSON.
  - The payload is accepted exactly when its tree has the shape
    `PushShape` describes. In that case every field of the push is read
    from the member it names.
  - Any member the parser dereferences but cannot find refuses the whole
    payload with the single message `"Invalid GitHub push payload"`.
  - A member that is present but JSON `null` is read as the text `"null"`
    or as `false`. It is not refused.
- **Build history** (`builds.dfy`, `build_history.dfy`).
  - A `Build` record has nullable fields. Its id is the text of a random
    UUID.
  - A store appends each build and rewrites the whole file. It reloads
    that file on restart, and treats a missing, empty, unreadable or
    malformed file as an empty history.
  - The file's JSON encoding is abstract: a `Document` holds exactly the
    builds written into it.
- **Build steps** (`processes.dfy`, `compiler.dfy`, `test_runner.dfy`,
  `workspace.dfy`).
  - Every subprocess is represented by its outcome: an exit code and its
    output lines, or a fault with its message and the stage it arose in
    (starting the process, reading its output, or waiting for it).
  - The compiler runs clone, then checkout, then Maven, and stops at the
    first step that fails. It turns a fault into a failed result, except
    a failure to read Maven's output: that one leaves `compile` as an
    exception. It removes its temporary directory on every path once the
    directory exists, the escaping exception included.
  - The removal sorts the walked paths in reverse natural order and
    deletes them one by one, skipping failures. Children therefore go
    before their parents.
  - The test runner ignores git's exit codes. It heads Maven's output
    with a pass or fail line, and lets faults escape.
- **Request dispatch** (`server.dfy`): which branch of `handle` a request
  takes, and the status and body it answers with.

Two behaviours of the parser are easy to misread; the model follows
the code:

- **Ref normalisation.** `ref` is normalised with Java's `String.replace`.
  That removes *every* occurrence of `refs/heads/`, left to right. It does
  not strip one leading prefix, as a reader might expect. So `"refs/refs/heads/heads/x"` becomes
  `"refs/heads/x"`, which still contains the prefix.
  `PushFacts.RefReplaceIsOnePass` proves this. A claim that a normalised
  ref never contains `refs/heads/` does not hold.
- **Which members are required.** The code dereferences `before`,
  `compare`, `created`, `deleted`, `forced` and `commits`
  unconditionally, so none of them is optional: a payload without any of
  them is refused. Required leaves that are JSON
  `null` are accepted and read as `"null"` or `false`, not refused. A
  `head_commit` may be absent. When it is present, all of its members are
  required, and a JSON `null` head commit is refused.

## Model

| member | source | states |
|---|---|---|
| GitHub.Parse | src/main/java/se/ciserver/github/PushParser.java:22-100 | The parse succeeds exactly when the payload is JSON whose tree has every member the parser dereferences (`PushShape`). A success yields the push whose every field is read from its member (`PushFrom`), and every failure carries "Invalid GitHub push payload". |
| GitHub.Text | src/main/java/se/ciserver/github/PushParser.java:33-37 | `get(key).asText()` succeeds exactly when the key is present and yields the member's Jackson text. |
| GitHub.Flag | src/main/java/se/ciserver/github/PushParser.java:39-41 | `get(key).asBoolean()` succeeds exactly when the key is present and yields the member's Jackson truth value. |
| GitHub.ParseAuthor | src/main/java/se/ciserver/github/PushParser.java:54-57 | An author needs "name", and needs "email" only where it is read unconditionally. An optional email that is absent or JSON null becomes null. |
| GitHub.ParseCommit | src/main/java/se/ciserver/github/PushParser.java:50-61 | A commit object is accepted exactly when it has author, committer, distinct, id, message, timestamp, tree_id and url with well-formed authors. Each field is read from its member. |
| GitHub.ParseCommits | src/main/java/se/ciserver/github/PushParser.java:48-63 | The first n iterations of the loop succeed exactly when elements 0..n-1 exist and are commit objects. They yield n commits, the i-th built from element i. |
| GitHub.ParseCommitList | src/main/java/se/ciserver/github/PushParser.java:46-63 | "commits" yields one commit per element of an array. A scalar, JSON null or empty object yields none. A non-empty object is refused, because it has a size but no elements to fetch. |
| GitHub.ParseHeadCommit | src/main/java/se/ciserver/github/PushParser.java:65-81 | An absent head_commit gives a null head commit. A present one must be a full commit object, whose author email is optional, and is then read field by field. |
| GitHub.ParseRepository | src/main/java/se/ciserver/github/PushParser.java:83-88 | A repository needs owner (with a name), id, name and clone_url. The clone URL and the other fields are copied as text. |
| GitHub.NormaliseRef | src/main/java/se/ciserver/github/PushParser.java:36 | A ref in which "refs/heads/" does not occur is kept unchanged. A ref in which it occurs comes out strictly shorter, and no ref grows. |
| Json.AsTextOfIntInjective | src/main/java/se/ciserver/github/PushParser.java:85 | Distinct integer ids, such as the repository id, read back as distinct text. |
| Json.AsBooleanPaddedTrue | src/main/java/se/ciserver/github/PushParser.java:39-41 | A string flag reading "true" surrounded by blanks is read as true. |
| PushFacts.UnreadableTextIsInvalid | src/test/java/MainTest.java:120-127 | Text that is not JSON is refused with the parser's message. |
| PushFacts.MissingTopLevelKeyIsInvalid | src/main/java/se/ciserver/github/PushParser.java:28-43 | Leaving out any of after, before, ref, compare, created, deleted, forced, commits, pusher or repository refuses the payload. No partial push is returned. |
| PushFacts.MissingNestedKeyIsInvalid | src/main/java/se/ciserver/github/PushParser.java:83-88 | Leaving out pusher.name, or any of repository.owner, id, name or clone_url, refuses the payload. |
| PushFacts.NullHeadCommitIsInvalid | src/main/java/se/ciserver/github/PushParser.java:67-70 | A head_commit that is present but JSON null is refused. |
| PushFacts.AbsentHeadCommitIsAllowed | src/main/java/se/ciserver/github/PushParser.java:80-81 | An accepted payload without head_commit has a null head commit. |
| PushFacts.NullLeavesAreRead | src/main/java/se/ciserver/github/PushParser.java:33-41 | A required leaf that is JSON null is accepted and reads as "null" or false. |
| PushFacts.BaseRefReading | src/main/java/se/ciserver/github/PushParser.java:34 | base_ref is null when it is absent or JSON null, and is its text otherwise. |
| PushFacts.CommitEmails | src/main/java/se/ciserver/github/PushParser.java:54-57 | A pushed commit whose author has no email refuses the payload. A committer without an email gives a null email. |
| PushFacts.RefOfBranch | src/test/java/MainTest.java:107 | "refs/heads/main" normalises to "main". |
| PushFacts.RefUnchangedIff | src/main/java/se/ciserver/github/PushParser.java:36 | A ref is left unchanged if and only if "refs/heads/" does not occur in it. |
| PushFacts.RefKeepsLeadingRefs | src/main/java/se/ciserver/github/PushParser.java:36 | A leading "refs/" before "refs/heads/" is kept, and only the occurrence after it is removed. |
| PushFacts.RefReplaceIsOnePass | src/main/java/se/ciserver/github/PushParser.java:36 | Removal is a single left-to-right pass: "refs/refs/heads/heads/" + b becomes "refs/heads/" + b, which still contains the prefix. |
| PushFacts.MainBranchPushParses | src/test/java/MainTest.java:99-112 | An accepted payload with ref "refs/heads/main" and after "e5f6g7h8" gives branch "main" and that SHA. The clone URL, pusher name and head-commit message are copied verbatim. |
| PushFacts.SamplePushShape | src/test/java/MainTest.java:99-112 | Payloads with those values exist: a sample payload has the accepted shape. |
| Strings.ReplaceAllWithoutOccurrence | src/main/java/se/ciserver/github/PushParser.java:36 | `String.replace` leaves text without an occurrence of the target unchanged. |
| Strings.RemoveAllNeverGrows | src/main/java/se/ciserver/github/PushParser.java:36 | Removing a target never lengthens the text. |
| Strings.RemoveAllShrinksOnOccurrence | src/main/java/se/ciserver/github/PushParser.java:36 | Removing a target that occurs strictly shortens the text. |
| Strings.RemoveAllUnchangedIff | src/main/java/se/ciserver/github/PushParser.java:36 | Removal is the identity exactly on text without an occurrence. |
| Strings.ReplaceAllLeading | src/main/java/se/ciserver/github/PushParser.java:36 | An occurrence at the start is replaced, and the scan resumes after it. |
| Strings.ReplaceAllSkipsPrefix | src/main/java/se/ciserver/github/PushParser.java:36 | Leading text in which no occurrence starts is copied unchanged. |
| Strings.IntToStringRoundTrip | src/main/java/se/ciserver/build/Compiler.java:42-56 | The decimal spelling of an exit code reads back as that code. |
| Strings.TerminatedIsJoinPlusTerminator | src/main/java/se/ciserver/TestRunner.java:23-28 | Appending a terminator after every line is the same as joining the lines with it and terminating the last. |
| Strings.JoinLength | src/main/java/se/ciserver/build/Compiler.java:136-137 | Joined output is the lines plus one separator per gap, with none after the last line. |
| Builds.Blank | src/main/java/se/ciserver/buildlist/Build.java:21-22 | The default constructor leaves every field null. |
| Builds.NewBuild | src/main/java/se/ciserver/buildlist/Build.java:44-54 | newBuild's id is non-null UUID text that reads back as the UUID used. Its timestamp is the non-empty instant. Commit, branch, status and log are stored unchanged. |
| Builds.UuidText | src/main/java/se/ciserver/buildlist/Build.java:47 | A random UUID prints as 36 characters: lower-case hex grouped 8-4-4-4-12, with the version digit 4. |
| Builds.ParseUuid | src/main/java/se/ciserver/buildlist/Build.java:47 | Exactly the canonical UUID texts are read back. |
| Builds.UuidRoundTrip | src/main/java/se/ciserver/buildlist/Build.java:47 | Reading back the text of a UUID gives that UUID. |
| Builds.UuidTextRoundTrip | src/main/java/se/ciserver/buildlist/Build.java:47 | Printing the UUID read from canonical text gives that text back. |
| Builds.UuidTextInjective | src/main/java/se/ciserver/buildlist/Build.java:47 | Distinct UUIDs print as distinct ids. |
| Builds.NewBuildIdsDiffer | src/main/java/se/ciserver/buildlist/Build.java:44-54 | Builds made from distinct UUIDs never share an id, whatever their other fields. |
| BuildHistory.Load | src/main/java/se/ciserver/buildlist/BuildStore.java:70-88 | Loading leaves the file alone. A non-empty history can only come from a file holding exactly those builds. |
| BuildHistory.Save | src/main/java/se/ciserver/buildlist/BuildStore.java:93-100 | A successful save writes the whole list, and loading that file gives the same list back. A failed save leaves whatever the failed write left. |
| BuildHistory.Add | src/main/java/se/ciserver/buildlist/BuildStore.java:61-64 | add grows the history by one, keeps the earlier entries and puts the build last. When the save succeeds, the file holds the entire history. |
| BuildHistory.FindById | src/main/java/se/ciserver/buildlist/BuildStore.java:49-54 | getById returns the build at the first position whose id equals the argument, when no null id comes before it. It returns null exactly when no build has that id and none has a null id. It faults exactly when it meets a null id before any match. |
| BuildHistory.UnusableFileGivesEmptyHistory | src/main/java/se/ciserver/buildlist/BuildStore.java:72-87 | A missing, empty, unreadable or malformed file gives an empty history. |
| BuildHistory.RestartAfterAdd | src/test/java/BuildStoreTest.java:50-68 | A store constructed over the file a successful add wrote holds the same builds in the same order. |
| BuildHistory.FailedSaveKeepsBuild | src/main/java/se/ciserver/buildlist/BuildStore.java:93-100 | A failed save still leaves the build in memory. The file is whatever the failed write left. |
| BuildHistory.AddAllAppends | src/main/java/se/ciserver/buildlist/BuildStore.java:61-64 | Any run of adds, whatever the saves did, appends exactly the added builds in order. |
| BuildHistory.LastSaveWritesAll | src/main/java/se/ciserver/buildlist/BuildStore.java:93-96 | After a run of adds whose last save succeeds, the file holds the whole history. |
| BuildHistory.LastSaveRecoversAll | src/main/java/se/ciserver/buildlist/BuildStore.java:79-96 | After a run of adds whose last save succeeds, a restart recovers every build, even if earlier saves failed. |
| BuildHistory.FindAddedBuild | src/test/java/BuildStoreTest.java:74-92 | After adding a build with a fresh id to a history without null ids, looking that id up finds the new build. |
| BuildHistory.FoundIsAtStop | src/main/java/se/ciserver/buildlist/BuildStore.java:49-54 | The lookup returns the build at the first position holding the id, when no null id comes before it. |
| BuildHistory.AddKeepsEarlierAnswers | src/main/java/se/ciserver/buildlist/BuildStore.java:49-54 | Appending a build does not change a lookup that already found a build or met a null id. |
| BuildHistory.EveryBuildReachable | src/main/java/se/ciserver/buildlist/BuildStore.java:49-54 | In a history with distinct non-null ids, every build is found by its id. |
| BuildHistory.BuildStore.GetAll | src/main/java/se/ciserver/buildlist/BuildStore.java:38-40 | getAll returns a copy equal to the stored history. |
| BuildHistory.BuildStore.GetById | src/main/java/se/ciserver/buildlist/BuildStore.java:49-54 | getById answers from the stored history as FindById does. |
| BuildHistory.BuildStore.constructor | src/main/java/se/ciserver/buildlist/BuildStore.java:28-31 | A new store holds what the constructor's load of the file gives. |
| BuildHistory.BuildStore.AddBuild | src/main/java/se/ciserver/buildlist/BuildStore.java:61-64 | add appends the build to the stored history. After a successful save, the file holds the whole history; after a failed one, it holds what the failed write left. |
| Workspace.LtIrreflexive | src/main/java/se/ciserver/build/Compiler.java:172 | No path sorts before itself. |
| Workspace.LtTransitive | src/main/java/se/ciserver/build/Compiler.java:172 | The natural order of paths is transitive. |
| Workspace.LtTotal | src/main/java/se/ciserver/build/Compiler.java:172 | Any two distinct paths are ordered one way or the other. |
| Workspace.LtAsymmetric | src/main/java/se/ciserver/build/Compiler.java:172 | Two paths are never each before the other. |
| Workspace.PrefixIsLess | src/main/java/se/ciserver/build/Compiler.java:172 | A proper prefix, and so an ancestor, sorts before its extensions. |
| Workspace.Insert | src/main/java/se/ciserver/build/Compiler.java:172 | Inserting into a descending listing keeps it descending and adds exactly that entry. |
| Workspace.SortDescending | src/main/java/se/ciserver/build/Compiler.java:171-172 | The sorted listing is in reverse natural order and is a permutation of the walk's listing. |
| Workspace.DescendantsComeFirst | src/main/java/se/ciserver/build/Compiler.java:171-172 | In the sorted listing, every path comes before each of its ancestors. |
| Workspace.DeleteInOrderBounds | src/main/java/se/ciserver/build/Compiler.java:173-183 | Deleting a listing only removes listed paths, creates nothing, and never removes a refused path. |
| Workspace.DeleteInOrder | src/main/java/se/ciserver/build/Compiler.java:173-183 | Deleting the listing in order never adds a path, and every path it removes is in the listing. |
| Workspace.DeleteInOrderComplete | src/main/java/se/ciserver/build/Compiler.java:173-183 | When each entry's descendants are listed before it and no entry is refused, exactly the listed paths are removed. |
| Workspace.SortedIsClosedBelow | src/main/java/se/ciserver/build/Compiler.java:171-172 | A reverse-sorted listing that includes each entry's descendants lists them before the entry. |
| Workspace.CleanupRemovesTree | src/main/java/se/ciserver/build/Compiler.java:167-189 | When the walk lists the tree under the root and nothing in it is refused, cleanup removes exactly that tree. |
| Workspace.Cleanup | src/main/java/se/ciserver/build/Compiler.java:167-189 | cleanup only removes paths the walk listed, and a walk that cannot start changes nothing. |
| Workspace.LockedKeepsAncestors | src/main/java/se/ciserver/build/Compiler.java:175-182 | A path whose deletion is refused survives, and so do all its ancestors. |
| Workspace.FailedWalkDeletesNothing | src/main/java/se/ciserver/build/Compiler.java:185-188 | A walk that cannot start leaves the file system unchanged. |
| Compiler.Compile | src/main/java/se/ciserver/build/Compiler.java:27-74 | compile returns a successful result exactly when the directory is created and clone, checkout and Maven all exit with 0. An exception leaves compile exactly when the git steps succeed and reading Maven's output fails. When the directory exists, the last effect is its cleanup, also when an exception leaves. When it does not, nothing is issued and the fault is reported. |
| Compiler.Steps | src/main/java/se/ciserver/build/Compiler.java:29-59 | The try block issues a non-empty prefix of clone, checkout and Maven. It reaches Maven exactly when clone and checkout exit with 0. It throws exactly when reading Maven's output fails after that, and returns a successful result exactly when all three exit with 0. |
| Compiler.MavenResult | src/main/java/se/ciserver/build/Compiler.java:136-146 | The output is Maven's lines with one separator per gap and none after the last line: it is empty for no lines, its length is the lines' total plus the separators, and it ends with the last line. The build succeeds exactly on exit code 0. |
| Compiler.CompileEffects | src/main/java/se/ciserver/build/Compiler.java:29-74 | The issued commands are a non-empty prefix of clone (in the parent directory), checkout and Maven (in the directory), followed by exactly one cleanup, which comes last. Without a directory nothing is issued. |
| Compiler.CloneFailureStops | src/main/java/se/ciserver/build/Compiler.java:38-46 | A non-zero clone exit n gives (false, "Git clone failed with exit code " + n). Neither checkout nor Maven is run. |
| Compiler.CheckoutFailureStops | src/main/java/se/ciserver/build/Compiler.java:49-56 | A non-zero checkout exit n gives (false, "Git checkout failed with exit code " + n). Maven is not run. |
| Compiler.MavenDecides | src/main/java/se/ciserver/build/Compiler.java:58-59 | After a successful clone and checkout and a Maven run that exits, compile returns a result whose success is Maven's exit code being 0 and whose output is its lines joined. All three commands are issued. |
| Compiler.FaultBecomesFailure | src/main/java/se/ciserver/build/Compiler.java:61-64 | A caught fault gives (false, "Compilation error: " + message), with a null message spelled "null". Caught are: failing to create the directory, any fault of clone or checkout, and a Maven fault in starting or waiting. |
| Compiler.UnreadableOutputEscapes | src/main/java/se/ciserver/build/Compiler.java:133-138 | When reading Maven's output fails, compile throws instead of returning a result, after issuing all three commands and then the cleanup. The escape is recorded with the message of the read fault that the escaping exception wraps. |
| Compiler.AllProcessesFail | src/test/java/MainTest.java:148-164 | If no process exits with 0, compile returns a failed result. |
| Compiler.FailureMessageNamesStep | src/main/java/se/ciserver/build/Compiler.java:42-56 | A clone or checkout failure is returned, not thrown. Its message starts with its step's prefix, and the rest reads back as the exit code. |
| Compiler.CleanupLeavesNoTrace | src/main/java/se/ciserver/build/Compiler.java:66-73 | The cleanup effect removes the temporary tree and leaves every other path. |
| TestRunner.CollectOutput | src/main/java/se/ciserver/TestRunner.java:22-28 | The accumulated log is every output line followed by "\n" (by `Strings.TerminatedIsJoinPlusTerminator`, the lines joined by "\n" plus a final "\n" when there are any). |
| TestRunner.RunTests | src/main/java/se/ciserver/TestRunner.java:14-37 | runTests returns a report exactly when no command faults. The report is "All test passed \n" or "Tests failed \n", chosen by Maven's exit code, followed by the log. |
| TestRunner.RunTestsIssues | src/main/java/se/ciserver/TestRunner.java:16-19 | The commands issued are a non-empty prefix of git checkout, git pull and the Maven test run. A fault is the only thing that shortens it. |
| TestRunner.GitExitCodesIgnored | src/main/java/se/ciserver/TestRunner.java:40-44 | The git commands' exit codes and output do not affect the run. |
| TestRunner.ReportHeading | src/main/java/se/ciserver/TestRunner.java:30-36 | The report starts with the pass heading exactly when Maven exited with 0, and with the fail heading otherwise. It ends with a newline. |
| Server.RouteOf | src/main/java/se/ciserver/ContinuousIntegrationServer.java:45-122 | POST /webhook, GET /builds and GET /builds/<id> are recognised with the method compared ignoring case. The exact /builds test comes before the prefix test. The page's id is the target minus "/builds/". |
| Server.Handle | src/main/java/se/ciserver/ContinuousIntegrationServer.java:39-132 | A webhook answers 400 "Invalid payload: " + message exactly when the parse fails. An accepted push escapes exactly when it has no head commit. 404 comes only from a build page. Every other request gets 200 with the placeholder. |
| Server.AcceptedPush | src/main/java/se/ciserver/ContinuousIntegrationServer.java:57-64 | An accepted push with a head commit gets 200 "Push received: " + after. |
| Server.LowerCasePost | src/main/java/se/ciserver/ContinuousIntegrationServer.java:45 | "post" reaches the webhook, because the method's case does not matter. |
| Server.GetWebhookIsPlaceholder | src/main/java/se/ciserver/ContinuousIntegrationServer.java:122-131 | A GET of /webhook gets 200 with the placeholder body. |
| Server.ListingShowsHistory | src/main/java/se/ciserver/ContinuousIntegrationServer.java:74-95 | GET /builds answers 200, listing every stored build in store order. |
| Server.BuildPageStatus | src/main/java/se/ciserver/ContinuousIntegrationServer.java:96-121 | GET /builds/<id> answers 404 "Build not found" exactly when no stored build has that id (and none has a null id). It answers 200 with a build's page exactly when the lookup finds that build. |
| Server.AddedBuildIsServed | src/main/java/se/ciserver/ContinuousIntegrationServer.java:96-121 | A build added under a fresh id is served at its page afterwards. |

## Left out

- Turning text into a JSON tree, and the Jackson (de)serialisation of the
  build list. The tree is a parameter. The file's content is an abstract
  `Document`, so its encoding round-trips by construction. A file holding
  JSON `null` (a null list) counts as malformed.
- Fractional JSON numbers. Numbers are integers.
- Case-insensitive comparison beyond ASCII. HTTP method tokens are ASCII.
- Processes, streams and the file system calls. Each command's outcome, the
  temporary directory, the walk's listing and which deletions the system
  refuses are parameters. The output `compile` prints is not modelled.
  `runCommand` in the test runner does not read its process's output; a
  process that blocks on a full pipe is not modelled.
- An `UncheckedIOException` thrown while the walk is already being
  iterated. It would escape `cleanup` and `compile`; the model's walk
  either lists completely or fails to start.
- The line separator. It is the parameter `sep` of `Compile`.
- The UUID generator and the clock. `NewBuild` receives a random UUID and
  the instant's text, which is never empty. The format of
  `Instant.toString` is not modelled.
- The six-argument `Build` constructor. It is the datatype constructor
  `Builds.Build` itself, which stores each argument in its field.
- Null builds in the history, from `add(null)` or a file holding `[null]`.
  They would make `getById` throw.
- Server plumbing: Jetty, content types, the HTML of the history pages,
  the line `println` adds after each body, the response Jetty gives when
  an exception escapes `handle`, and the request body's text. The
  webhook's payload is given as a tree.
- Compiler.Compile: an escaping exception is recorded with the message of
  the read fault it wraps, not with its own message, which Java builds
  from the fault's class name and message and which is never null. A
  fault in closing Maven's reader is caught like one in waiting for the
  process, and the model has no separate stage for it: it is given as a
  `Waiting` fault.
- Server.Handle: the model receives the history read-only and returns only
  a response, so no route can add a build. There is no separate lemma for
  "the history is unchanged".
- Logging to standard output and error, and printing stack traces.
- Concurrency. The store's `synchronized` methods are modelled
  single-threaded.
- `TestUtils` (test resource loading) and the test classes themselves.
