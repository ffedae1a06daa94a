# Verification model of the sandbox runner

The runner takes a workflow document, resolves it, plans what it would do, prepares
sources and payloads on the host, and drives one sandbox on a gateway: create, wait,
upload, execute, download, delete. This project models that path in Dafny and proves
what it promises.

`dafny verify dfyconfig.toml` checks everything.

| files | subject |
|---|---|
| `Strings`, `Paths`, `Disk` | string and path functions written out over characters; an abstract file system |
| `Archive`, `ArchiveNames`, `ArchiveSafety`, `ArchiveAcceptance`, `ArchiveRoundTrip` | tree-to-archive writer and budgeted extractor |
| `Install` | the no-replace installer, with faults and other processes acting between any two system calls |
| `DownloadPipe` | the goroutine and pipe protocol of one download, over all schedules |
| `Terminal` | the interactive pump, over all schedules |
| `SourceCache`, `SourceCacheProofs`, `SourceCacheProgress`, `RepoNames` | any number of runs sharing bare mirrors through a lock |
| `ShellQuote`, `RemoteCommand`, `UploadTarget` | quoting, the remote download command read back by a shell lexer and run by a small interpreter, upload targets |
| `Expand`, `Schema`, `Resolve`, `Resolver`, `ResolveProofs`, `ResolveReports`, `ResolveChecks`, `OutputPaths` | interpolation and validation of a workflow |
| `Loading`, `Planning`, `Request`, `Runner`, `Pipeline` | load, plan, build the request, run, and one apply end to end |
| `Redaction`, `PlanRedaction`, `PlanRedactionFields` | hiding interpolated values in a displayed plan |
| `Policy`, `PolicyProofs` | schema-directed rewriting of a policy document |

Where the source works step by step, the model is a method (with a class where the
source updates an object, a stream, a disk or a tree in place) proved against a
specification function; the theorems are about that function. Protocols between
goroutines or processes are state machines whose atomic steps interleave freely, and
their theorems quantify over every schedule.

Three properties hold only under a condition, and the model gives it exactly:

- Plan redaction leaves nothing behind for values without angle brackets if and only if
  no value occurs in the word `redacted`; a value such as `red` shows up again inside
  the token that replaces it (`Redaction.RedactionIsComplete`).
- The download returns on every schedule if and only if what an early-stopping
  extractor leaves unread fits in the SSH channel, or nothing is left, or the connection
  may be cut (`DownloadPipe.ReturnsExactlyWhen`); a download that hangs is
  `DownloadPipe.RejectedArchiveHangs`.
- The tests that decide whether to execute and whether to plan a run agree after loading,
  and before it on all documents but those that set nothing about a run except hidden
  sandbox settings (`Loading.LoadWorkflow`, `Loading.TestsDisagreeExactly`).

## Model

| member | source | states |
|---|---|---|
| `ArchiveRoundTrip.RoundTrip` | runner/internal/openshell/sdkclient/download.go:212-274 | Into an empty staging directory, writing a tree and extracting what was written succeed together if and only if the tree has no link or special node and is within 10,000 entries and 256 MiB; the disk then holds exactly the old nodes, the parents of the requested root, and the tree's shape and bytes |
| `ArchiveRoundTrip.TreeExtracts` | runner/internal/openshell/sdkclient/download.go:216-273 | From any point of an extraction, the entries of one tree either are all accepted and leave the disk grown by that tree, or end in an error, decided by links and remaining budgets alone |
| `ArchiveRoundTrip.ForestExtracts` | runner/internal/openshell/sdkclient/download.go:216-273 | The same for the children of a directory, each landing beside its siblings without disturbing them |
| `ArchiveRoundTrip.WriterFinishes` | runner/internal/openshell/sdkclient/upload.go:100-157 | The writer ends without an error exactly when the tree holds no special file |
| `Archive.ArchiveWriter.AppendTarPath` | runner/internal/openshell/sdkclient/upload.go:100-157 | The recursive walk appends exactly the entries Emit defines, in order, and reports its verdict |
| `Archive.Extractor.ExtractDownloadTar` | runner/internal/openshell/sdkclient/download.go:212-274 | The extraction loop, with its counters and disk, ends in the state and with the error that folding the entries gives |
| `ArchiveSafety.ExtractionIsContained` | runner/internal/openshell/sdkclient/download.go:228-253 | For every entry sequence no existing node changes, every created node (implicit parents included) is strictly under staging and on or below the path to the requested root, and the joined-path check never fires |
| `ArchiveSafety.BudgetsHold` | runner/internal/openshell/sdkclient/download.go:214-267 | For every entry sequence the running totals stay within 256 MiB and at most one entry past 10,000 is looked at; an accepted archive is accounted for to the byte |
| `ArchiveSafety.BytesOnDisk` | runner/internal/openshell/sdkclient/download.go:214-273 | However an extraction ends, a copy cut short by a read error included, the files it created are listed exactly, each once, and their contents together are at most 256 MiB; nothing that existed is changed |
| `ArchiveSafety.TurnWrites` | runner/internal/openshell/sdkclient/download.go:244-273 | One entry creates at most its own file, within what is left of the budget, and an entry accepted in full is accounted for to the byte |
| `ArchiveSafety.BudgetGuardIsExact` | runner/internal/openshell/sdkclient/download.go:246-248 | The guard on wrapped 64-bit integers is true exactly when the mathematical sum exceeds the budget or the size is negative, and neither expression wraps when it passes |
| `ArchiveAcceptance.AcceptsExactly` | runner/internal/openshell/sdkclient/download.go:214-273 | An entry sequence, whoever wrote it, is accepted if and only if every entry is a directory or a complete regular file under an ordinary name at or below the requested root, both budgets are kept, there is room for each on the disk, and no two are in each other's way |
| `ArchiveAcceptance.AcceptedDisk` | runner/internal/openshell/sdkclient/download.go:241-267 | After an accepted archive a directory, or a file of exactly the bytes sent, stands at every entry's place, everything that was there before is unchanged, and nothing else was added but the directories on the way |
| `ArchiveAcceptance.ErrorsHaveCauses` | runner/internal/openshell/sdkclient/download.go:217-273 | Every error is about an entry that deserves it (a link, an unsupported type, an unsafe or foreign name, missing bytes) and all entries before that one were accepted |
| `ArchiveAcceptance.TurnAccepted` | runner/internal/openshell/sdkclient/download.go:223-267 | One entry is accepted exactly when it is good by itself, within both budgets, and there is room for it; then the disk grows by it |
| `ArchiveAcceptance.MkdirAllGrows` | runner/internal/openshell/sdkclient/download.go:241-251 | On a well-formed disk a directory can be made exactly where no file is in the way, and then exactly the missing way is added |
| `ArchiveNames.NameIsAccepted` | runner/internal/openshell/sdkclient/download.go:228-238 | Every name the writer produces for a tree passes the extractor's name checks and joins to the intended place |
| `ArchiveNames.AcceptedNameShape` | runner/internal/openshell/sdkclient/download.go:228-238 | Every accepted name consists of ordinary components that begin with those of the requested root |
| `Disk.MkdirAllOnlyAddsAncestors` | runner/internal/openshell/sdkclient/download.go:241-251 | Creating a directory with its parents only adds directories, all between an existing one and the target |
| `Install.Host.InstallDownloadTree` | runner/internal/openshell/sdkclient/download.go:151-184 | Whatever fails and whatever other processes create in between, conservation (Safe) holds after every system call and nothing outside the staged subtree is lost. When no call fails, an existing destination is reported and nothing but a missing staged node or parent is an error of the host; when also nobody else creates anything, a free destination is installed (AsExpected). Success means the staged tree is gone and the destination holds it, and when nothing stood there before, holds nothing else but what other processes created; the error for an existing path names one the installation did not make; the recursion is measured by the staged nodes left |
| `Install.Host.InstallDirectory` | runner/internal/openshell/sdkclient/download.go:156-174 | A staged directory is made at the destination, its entries moved, and only then its staged name dropped; it ends as expected of the calls that were made, and what is added meanwhile is at or below its counterpart or made by other processes |
| `Install.Host.InstallEntries` | runner/internal/openshell/sdkclient/download.go:163-174 | The loop over a staged directory moves every entry, keeps conservation, leaves the directory empty on success, and stops only for a failed call or a path in the way below the destination |
| `Install.Host.InstallFile` | runner/internal/openshell/sdkclient/download.go:177-183 | Linking then removing a file keeps its bytes at one of the two places at every step |
| `Install.Host.Link` | runner/internal/openshell/sdkclient/download.go:177-182 | Linking never replaces a path that exists; on success source and target hold the same bytes; when the call works, it fails only for an existing target or a missing parent |
| `Install.Host.Mkdir` | runner/internal/openshell/sdkclient/download.go:156-162 | Making a destination directory never replaces a path that exists; when the call works, it fails only for an existing target or a missing parent |
| `Install.Host.Tick` | runner/internal/openshell/sdkclient/download.go:151-184 | Between any two system calls other processes may create anything outside the private area and the next call may fail; conservation survives it |
| `Install.Host.Remove` | runner/internal/openshell/sdkclient/download.go:174-183 | Removing a staged node is safe because its counterpart already holds its bytes; when the call works, it is refused exactly for a directory with entries |
| `Install.FreeWhenMissing` | runner/internal/openshell/sdkclient/download.go:151-184 | On a well-formed disk a destination that does not exist has nothing below it, so the installation finds it free |
| `DownloadPipe.NoDeadlock` | runner/internal/openshell/sdkclient/download.go:60-98 | On every schedule of main, extractor, waiter, copier, remote and network, some step is enabled until main returns while the download can complete; when it cannot, main never returns |
| `DownloadPipe.ReturnsExactlyWhen` | runner/internal/openshell/sdkclient/download.go:60-98 | Every maximal run returns if and only if start failed, the connection may be cut, the extractor reads to the end, or what it leaves unread fits in one piece plus the SSH channel window |
| `DownloadPipe.RejectedArchiveHangs` | runner/internal/openshell/sdkclient/download.go:60-98 | A concrete download that waits for ever: an archive rejected at once with four pieces to come, a window of one and no time limit; after a nine-step schedule main waits for the command, the command for room in the channel, and nobody can move |
| `DownloadPipe.StuckMeansJammed` | runner/internal/openshell/sdkclient/download.go:60-98 | The only way to wait for ever is a copier that is gone while the remote faces a full channel |
| `DownloadPipe.VerdictIgnoresSchedule` | runner/internal/openshell/sdkclient/download.go:89-110 | The verdict of an uncut download depends on its data alone: closing the pipe early is never mistaken for a failure |
| `DownloadPipe.SuccessMeansComplete` | runner/internal/openshell/sdkclient/download.go:89-110 | On every schedule, cut connections included, success is reported exactly when the transfer started and was never cut, the archive was accepted and the command ended with status zero; a lost connection is never a success |
| `DownloadPipe.RunsEnd` | runner/internal/openshell/sdkclient/download.go:60-98 | Every run can be carried to a point where nobody can move, in at most Rank steps |
| `DownloadPipe.EveryStepUsesRank` | runner/internal/openshell/sdkclient/download.go:60-98 | Every step of every party uses up some of a bound on the steps to come |
| `DownloadPipe.StepKeepsInv` | runner/internal/openshell/sdkclient/download.go:60-98 | Every step of every party keeps the protocol invariant (data in transit, channels, verdicts) |
| `Terminal.PumpIsSafe` | runner/internal/run/terminal.go:74-179 | Over every schedule each done channel is received at most once, stopInput only waits for a message still to come, a return with file input leaves no input goroutine, bytes sent and printed are in-order prefixes, and a nil return printed everything |
| `Terminal.StepKeepsInv` | runner/internal/run/terminal.go:74-179 | Every step of the loop and of both goroutines keeps the channel and data invariants |
| `Terminal.NothingSwallowed` | runner/internal/run/terminal.go:145-179 | When the pump has returned, every byte taken from a file has been sent unless the session refused a write |
| `Terminal.CopiedMeansAllSent` | runner/internal/run/terminal.go:148-178 | On every schedule, an input copy that reports success has sent all of the input, unless the poll reported the file as invalid |
| `Terminal.UndisturbedCopySendsAll` | runner/internal/run/terminal.go:148-178 | While the pump is not cancelled and no read, write or poll fails, the input goroutine ends only with success and after sending the whole input |
| `Terminal.CopyGoesOn` | runner/internal/run/terminal.go:148-178 | Every step that brings the copy on lowers a bound on what is left, and until the end there always is such a step |
| `Terminal.OutputGoesOn` | runner/internal/run/terminal.go:77-81 | The same for the goroutine that copies the session's output |
| `Terminal.ReturnsMeanWhatTheySay` | runner/internal/run/terminal.go:106-141 | Each return value has its cause: the caller's cancellation, a failed input copy, the way the output copy ended, or a window change |
| `Terminal.SelectIsLeft` | runner/internal/run/terminal.go:106-141 | Once the caller has cancelled, the output has ended or the input has failed, main can leave its select |
| `Terminal.ResizeIsHandled` | runner/internal/run/terminal.go:121-138 | A window change is always taken: main goes on exactly when size and resize worked, and otherwise leaves with the error of the first that failed |
| `Terminal.StdinIsReleased` | runner/internal/run/terminal.go:93-104 | After a return with file input nothing reads stdin any more, whatever still happens |
| `Terminal.StoppingEnds` | runner/internal/run/terminal.go:93-104 | On every schedule from stopInput on, the input goroutine makes at most five more steps, some step is enabled as long as main waits, and main ends up returning the value it had chosen and no other |
| `Terminal.WaitingStep` | runner/internal/run/terminal.go:93-104 | While main waits, every step of the input goroutine lowers its rank, no other step touches it, and only the awaited message moves main, to the value chosen |
| `Terminal.WaitingGoesOn` | runner/internal/run/terminal.go:93-104 | The awaited message is there exactly when the goroutine has ended; until then the goroutine can always make a step |
| `SourceCacheProofs.MutualExclusion` | runner/internal/source/mirror.go:59-80 | At most one run is inside the locked section of a mirror, on every interleaving with failures and crashes |
| `SourceCacheProofs.OnlyHolderChangesMirror` | runner/internal/source/mirror.go:88-137 | A mirror changes only in a step of the run that holds its lock |
| `SourceCacheProofs.MirrorsAreKept` | runner/internal/source/mirror.go:88-137 | No event takes a repository away from a mirror, and only a fetch, with the garbage collection it starts, takes objects from it |
| `SourceCacheProofs.CopyFindsItsObject` | runner/internal/source/checkout.go:82-106 | From its fetch to its copy the object a run fetched stays in the mirror, so the copy fails only when the command itself does |
| `SourceCacheProofs.CommitProvenance` | runner/internal/source/checkout.go:39-67 | The commit of a successful run is what its own ref named, peeled, at its own fetch, whatever other runs and the remote did in between |
| `SourceCacheProofs.RunsAreIsolated` | runner/internal/source/checkout.go:39-75 | No step of another run, its clean-up included, touches anything in a run's directory |
| `SourceCacheProofs.CleanedRunsLeaveNothing` | runner/internal/source/checkout.go:69-75 | After a clean-up that succeeded nothing of the run's directory is on disk, then or later |
| `SourceCacheProofs.FetchFindsItsMirror` | runner/internal/source/mirror.go:88-119 | From any leftovers and on every interleaving, a run that comes to its fetch stands on a bare repository whose origin is its own credential-free URL |
| `SourceCacheProofs.MirrorRecovers` | runner/internal/source/mirror.go:88-119 | From any leftovers and whatever other runs, crashes and the remote do in between, a run that took the lock and whose own commands work comes to its fetch, on that repository, after at most five steps of its own |
| `SourceCacheProofs.SectionsEnd` | runner/internal/source/mirror.go:59-80 | Every step of a lock holder, failing or not, brings it nearer to giving the lock back, and the last one gives it back |
| `SourceCacheProofs.WaiterTakesFreeLock` | runner/internal/source/mirror.go:59-80 | On every interleaving, a run waiting for a lock takes it at its next step exactly when no run is inside the section of that key |
| `SourceCacheProofs.CrashFreesLock` | runner/internal/source/mirror.go:59-80 | On every interleaving, a run that waits in vain for a lock another run holds takes it at its next step once that holder has crashed |
| `SourceCacheProofs.NamedIsHistorical` | runner/internal/source/mirror.go:124-137 | What a run believes its ref named is what the ref did name at an earlier fetch step of that run |
| `SourceCacheProofs.StepKeepsInv` | runner/internal/source/checkout.go:39-118 | Every step of every run keeps the protocol invariant (lock table, mirror, checkout and recorded object agree) |
| `SourceCacheProofs.PeelFindsTheCommit` | runner/internal/source/checkout.go:62-65 | Peeling an object finds exactly the commit below its chain of tags |
| `SourceCacheProgress.NamesAreChecked` | runner/internal/source/checkout.go:39-43 | On every interleaving, a rejected run had an unusable repository name, and a run that went on, to the lock, a checkout or any other end, has a usable one |
| `SourceCacheProgress.PrepareSucceeds` | runner/internal/source/checkout.go:39-67 | A run with a usable name, whose own commands work and whose ref exists and peels all the while, is done after at most eighteen steps of its own, those before a lock another run holds left out, with the commit its fetched object peels to, whatever others do in between |
| `SourceCacheProgress.EveryRunEnds` | runner/internal/source/checkout.go:39-75 | Whatever fails, every step of a run's own brings it nearer to its end unless it waits for a taken lock, and it ends as failed only after trying to remove its directory |
| `RepoNames.AcceptedNameIsOneComponent` | runner/internal/source/cache.go:81-108 | The accepted repository names are exactly those that are one ordinary path component, for every URL |
| `RepoNames.RepoNameIsLastComponent` | runner/internal/source/cache.go:81-83 | A repository is named after the last component of its URL; a .git suffix and slashes behind it do not count |
| `RepoNames.CheckoutIsChildOfRunDir` | runner/internal/source/cache.go:94-108 | A checkout is a direct child of its run directory, and run directories of different runs do not contain each other |
| `ShellQuote.QuoteRoundTrip` | runner/internal/openshell/sdkclient/upload.go:159-161 | Lexing a quoted string by the POSIX rules gives one word, the string itself, for every string |
| `ShellQuote.CommandTestsEveryPrefix` | runner/internal/openshell/sdkclient/download.go:135-145 | The shell reads the command as: test every non-empty prefix of the path in order and nothing else, exit 74 on a link; test that the path exists, exit 73 if not; archive exactly that path |
| `ShellQuote.PieceIsRead` | runner/internal/openshell/sdkclient/upload.go:159-161 | Reading one word, quoted word or operator adds exactly its token |
| `ShellQuote.LastPrefixIsThePath` | runner/internal/openshell/sdkclient/download.go:136-143 | There is one link test per component and the last one tests the requested path itself |
| `ShellQuote.RemoteDownloadCommand` | runner/internal/openshell/sdkclient/download.go:135-145 | The loop builds exactly the command text that the two lemmas above are about |
| `RemoteCommand.CommandRuns` | runner/internal/openshell/sdkclient/download.go:135-145 | Run by the shell's rules for OR-lists and if, on any remote disk, the command ends with status 74 exactly when a component of the path is a link, otherwise with 73 exactly when the path does not exist, and otherwise sends exactly that path |
| `RemoteCommand.TestsRun` | runner/internal/openshell/sdkclient/download.go:136-143 | The list of tests, run in turn with OR, succeeds exactly when one of the paths is a link |
| `UploadTarget.UploadLandsThere` | runner/internal/openshell/sdkclient/upload.go:60-89 | The archive root is one name; a file whose destination has a last component below a parent other than the root lands exactly at that path, one without a slash in the working directory, and everything else, /x and //x included, in the destination taken as a directory under the source's own name; only empty and NUL destinations are refused |
| `UploadTarget.OddDestinations` | runner/internal/openshell/sdkclient/upload.go:69-88 | Two edge cases: a file sent to //x is treated exactly as a directory would be, and one sent to a/.. is given the name .. |
| `Expand.Expand` | runner/internal/config/env.go:41-72 | The index-driven loop computes the substitution of the token list and exactly its unset references, left to right |
| `Expand.TextInvertsTokenise` | runner/internal/config/env.go:41-72 | Printing the tokens gives back the raw text, and they are canonical |
| `Expand.TokeniseInvertsText` | runner/internal/config/env.go:41-72 | A canonical token list is recovered from its text: the reading is unique |
| `Expand.ValuesAreNotRescanned` | runner/internal/config/env.go:60-68 | A value is copied as it is, whatever it contains, and scanning resumes after the reference |
| `Expand.NoReferenceIsUnchanged` | runner/internal/config/env.go:41-72 | Text with no closed reference is unchanged and reports nothing |
| `Expand.MissingMembers` | runner/internal/config/env.go:61-66 | A name is reported missing exactly when it is referenced and unset or empty |
| `Resolver.ResolveHarness` | runner/internal/config/env.go:122-314 | The statements of Resolve, with their loops, produce the defined outcome: the expanded document, or every problem in order |
| `Resolver.ExpandField` | runner/internal/config/env.go:127-144 | One field is expanded and each of its missing variables reported against it |
| `Resolver.ResolvePayloads` | runner/internal/config/env.go:257-281 | The payload loop expands each payload and reports its shape and path problems |
| `Resolver.ResolveProviders` | runner/internal/config/env.go:223-233 | The provider loop expands each name and reports empty ones |
| `Resolver.ResolveOutputs` | runner/internal/config/env.go:283-308 | The output loop with its seen-map reports bad paths and the first claimant of a duplicated destination |
| `Resolver.ResolveOutput` | runner/internal/config/env.go:286-307 | One output is checked against the destinations claimed so far, and claims its own only when it is acceptable |
| `Resolver.ResolveEnv` | runner/internal/config/env.go:234-239 | Ranging over the environment map in any order expands every value |
| `ResolveProofs.ResolveAcceptsExactly` | runner/internal/config/env.go:122-314 | A document is accepted if and only if every reference in every field has a value and the values fit together; the result is the expanded document, whatever the map order |
| `ResolveProofs.EveryFieldIsExpanded` | runner/internal/config/env.go:146-313 | The resolved document has the same fields, each the expansion of the same field of the input (outputs also cleaned), and everything that is not text is kept |
| `ResolveProofs.FieldsCoverTheDocument` | runner/internal/config/env.go:146-308 | The list of fields is complete: all fields resolve exactly when every string of the document does |
| `ResolveProofs.OutputsFitTogether` | runner/internal/config/env.go:283-302 | The loop's pairwise checks amount to valid outputs with pairwise distinct cleaned destinations |
| `ResolveProofs.ResolveDischarges` | runner/internal/config/env.go:257-308 | An accepted document comes out with every later payload and path check met, destinations cleaned and pairwise distinct |
| `ResolveProofs.ProtectedIsInvisible` | runner/internal/config/env.go:127-136 | Two environments that differ at most at OPENSHELL_OIDC_CLIENT_SECRET give the same document or the same problems, for every document; the variable is masked at each lookup, so this holds only because every field of every section is looked up that way |
| `ResolveProofs.SameField` | runner/internal/config/env.go:127-144 | The expansion of one field and its reported problems are the same in two such environments |
| `ResolveProofs.ProtectedIsRejected` | runner/internal/config/env.go:127-144 | A document that refers to the protected variable in any field is rejected |
| `ResolveReports.MissingVariablesAreNamed` | runner/internal/config/env.go:119-144 | The error names a variable for a field exactly when that field refers to it and it has no value, for every field of the document |
| `ResolveChecks.ProblemsAreExact` | runner/internal/config/env.go:146-308 | Every other problem is reported exactly when the resolved document deserves it, for its own field: missing, malformed, contradictory, traversing and duplicate values |
| `Resolve.RouteNamePattern` | runner/internal/config/env.go:16 | A route name is accepted exactly when it matches the regular expression |
| `OutputPaths.SourceChecksAgree` | runner/internal/openshell/sdkclient/download.go:186-201 | The download accepts exactly the sources resolution accepts, gives the same answer after cleaning, and names a path strictly below /sandbox |
| `OutputPaths.StagedPathIsWithin` | runner/internal/openshell/sdkclient/download.go:113-116 | The relative path is a proper archive root, and its staged path is never refused as outside staging |
| `OutputPaths.DestinationIsBelow` | runner/internal/config/env.go:103-117 | An accepted destination lies strictly below any output root and passes the containment check |
| `OutputPaths.DistinctDestinations` | runner/internal/config/env.go:287-302 | Destinations that clean to different texts land at different places |
| `OutputPaths.CleanKeepsAcceptance` | runner/internal/config/env.go:83-117 | Cleaning keeps accepted paths accepted and is then finished |
| `Paths.CleanIdempotent` | runner/internal/config/env.go:96-98 | Cleaning a path twice is cleaning it once, and keeps its components |
| `Paths.NoTraversal` | runner/internal/config/env.go:79-81 | A path that passes the dot-dot test has only ordinary components and still passes it once cleaned |
| `Paths.DotDotCancels` | runner/internal/config/env.go:96-98 | Cleaning lets a .. segment take away the ordinary name before it, anywhere in a path; at the root it takes away nothing |
| `Paths.JoinSibling` | runner/cmd/workflow_apply.go:128-130 | Joining a source such as ../shared/x to the workflow's directory leads into that directory's parent |
| `Paths.PathWithinIsPrefix` | runner/internal/openshell/sdkclient/download.go:276-279 | The containment check on two absolute paths holds exactly when one's components are a prefix of the other's |
| `Schema.ProviderReferences` | runner/internal/config/types.go:33-51 | The loop with its seen-map returns the first occurrences of the provider names |
| `Schema.ReferencesAreOrdered` | runner/internal/config/types.go:33-51 | References are distinct and appear in the order of their first mention |
| `Schema.ReferencesMean` | runner/internal/config/types.go:33-51 | A provider is referenced exactly when it is named by the inference block or the sandbox, and the inference provider comes first |
| `Schema.TimeoutMeans` | runner/internal/config/types.go:106-121 | Accepted timeouts are the empty one and the durations of a whole number of seconds that is not negative, and mean that number |
| `Loading.LoadWorkflow` | runner/cmd/workflow.go:33-81 | Only target, name, agent type, terminal flag and image change: a flag comes before the environment and that before the document for gateway and workspace, the environment before the document and that before the built-in one for the image; afterwards runConfigured and hasRunConfig agree and a run has an image |
| `Loading.ApplyOverrides` | runner/cmd/workflow.go:60-68 | Overrides replace name and agent type when given and force the terminal flag |
| `Loading.TestsDisagreeExactly` | runner/cmd/workflow.go:69-87 | Before the image default the two tests disagree on exactly the documents that set a provider, policy, variable, terminal or keep flag and nothing that shows in a plan; there are such documents, and with any image the tests agree |
| `Planning.ReadCurrentState` | runner/internal/plan/state.go:52-100 | An error is returned exactly when a failed read is not one that counts as unreachable; the gateway is reachable exactly when health and providers were read and it is healthy; then the provider list is the gateway's |
| `Planning.BuildProvidersGroup` | runner/internal/plan/plan.go:130-166 | Each reference becomes a resource that says whether the gateway listed it, looked up through the name map |
| `Planning.BuildRunGroup` | runner/internal/plan/plan.go:251-323 | The statements and loops append exactly the run resources, in order |
| `Planning.Build` | runner/internal/plan/plan.go:64-91 | The plan holds the target group and those of the provider, inference and run groups that apply |
| `Planning.PlanTells` | runner/internal/plan/plan.go:64-216 | The plan tells what was read: the target's state, for every reference in order whether the gateway listed it and as what kind, how the inference route differs, and the run; exactly the sections that apply are there, in their order |
| `Planning.PreflightPlan` | runner/cmd/workflow_apply.go:61-75 | The nested loops reject a plan exactly when some resource is objectionable, and report such a one |
| `Planning.PreflightMeaning` | runner/cmd/workflow_apply.go:61-75 | A built plan passes exactly when an inspected gateway is reachable, every reference was listed, and no inference would only be validated |
| `Request.BuildRunRequest` | runner/cmd/workflow_apply.go:81-211 | On success every field of the request is the document's (RequestSays), the first failing step decides the error, and on failure everything set up has been released, newest first |
| `Request.RequestIsTheDocument` | runner/cmd/workflow_apply.go:91-210 | Name, image, providers, environment, command, uploads, downloads, flags and the text of the named policy file, each in the words of the document and of the host's answers; a download is optional only when the document says so |
| `Request.BuildableExactly` | runner/cmd/workflow_apply.go:81-197 | A request can be built exactly when the image is no local path, the source can be prepared, every payload has a destination and exactly one readable source or content, the policy file can be read, and every output stays within a usable root |
| `Request.BuildSource` | runner/cmd/workflow_apply.go:99-118 | A checkout is set up and held exactly when a repository is configured and its preparation succeeds |
| `Request.BuildPayloads` | runner/cmd/workflow_apply.go:120-154 | The payload loop stages inline contents in one directory made on first use and stops at the first bad payload |
| `Request.BuildDownloads` | runner/cmd/workflow_apply.go:174-197 | The output loop joins every destination and stops at the first that escapes the root |
| `Request.Cleanup` | runner/cmd/workflow_apply.go:83-88 | The cleanups release what is held in reverse order of acquisition |
| `Request.ResolvedNeverMisshapen` | runner/cmd/workflow_apply.go:124-195 | For a resolved document the payload-shape and escape errors cannot occur, whatever the host answers |
| `Request.OutputsArePlaced` | runner/cmd/workflow_apply.go:186-195 | Outputs of a resolved document go strictly below the root, to pairwise different places, from sources the download accepts |
| `Runner.Run` | runner/internal/run/runner.go:16-86 | The lifecycle with its deferred deletion makes exactly the calls, and returns exactly the joined errors, that the fault pattern determines |
| `Runner.RunInside` | runner/internal/run/runner.go:43-50 | Waiting and uploading stop at the first failure, with that failure as the error |
| `Runner.CallsMade` | runner/internal/run/runner.go:16-86 | Calls by kind, for every fault pattern: uploads up to and including the first that fails; the command once and every download in order exactly when all uploads succeeded; downloads under a context of their own exactly when the command did not end with status zero or the caller's context was cancelled; one deletion, last and detached, exactly when a sandbox was created and is not kept |
| `Runner.WorkFollowsUploads` | runner/internal/run/runner.go:46-80 | Whenever something is executed or downloaded, every upload has been made before it, in order, and has succeeded |
| `Runner.RunWork` | runner/internal/run/runner.go:52-85 | Command and download loop: nothing stops early and every counted failure is appended |
| `Runner.RunDownload` | runner/internal/run/runner.go:75-84 | One download is attempted; only a missing optional source is forgiven |
| `Runner.FullLifecycle` | runner/internal/run/runner.go:52-85 | Once the uploads succeeded the command and every download are attempted, whatever fails, and the errors are the execution's, the downloads' and the deletion's in that order |
| `Runner.EveryFailureIsKept` | runner/internal/run/runner.go:16-86 | The joined error holds every counted failure and nothing else; of the downloads everything counts but success and a missing optional source |
| `Pipeline.Apply` | runner/cmd/apply_service.go:93-143 | Sandbox calls are made exactly when a real run was asked for, the gateway is healthy, listed every deduplicated provider reference and confirmed each, no inference is configured, and the request can be built; host resources are always released; and no error is returned exactly for a dry run whose gateway is absent or readable, or for a safe gateway with nothing to run or a run without a counted failure |
| `Pipeline.ExecuteResolvedWorkflow` | runner/cmd/apply_service.go:93-143 | The guards in their order: calls are made only when all pass, and then they are exactly those of the run; success is returned exactly for a dry run, or when the guards pass and there is nothing to run or the run has no counted failure |
| `Pipeline.ConnectAndBuildPlan` | runner/cmd/connect_plan.go:16-44 | A plan is built from the state read, or desired-only on a dry run without a connection, and fails exactly when the read does or a real run has no connection |
| `Pipeline.VerifyProviderReferences` | runner/cmd/workflow_apply.go:51-58 | Passes exactly when the gateway has every referenced provider; otherwise names one it lacks |
| `Pipeline.PlanIsExecuted` | runner/internal/plan/plan.go:251-323 | Once the uploads succeeded, the calls of the run, the wait erased, are the plan's run resources one for one and in order: the sandbox is created with the document's providers, variables and policy, and each payload upload and each download is the one of the payload or output that stands at its place, with its exact source and destination |
| `Pipeline.NothingOutsideThePlan` | runner/internal/plan/plan.go:251-323 | Under every other fault pattern the calls are a beginning of the plan, then the deletion of a created sandbox that is not kept |
| `Pipeline.LoadedWorkflowsArePrepared` | runner/cmd/workflow.go:33-81 | Every workflow that was resolved and loaded, and whose request could be built, meets the premises of the two theorems above |
| `Redaction.RedactPlanString` | runner/cmd/plan_redaction.go:113-120 | The loop of replacements computes the successive passes |
| `Redaction.NothingIsLeft` | runner/cmd/plan_redaction.go:102-120 | If no value can touch the token, none occurs anywhere in the result, for every text and every order, overlapping and nested values included |
| `Redaction.RestIsKept` | runner/cmd/plan_redaction.go:113-120 | The result is the text with occurrences of the values replaced by tokens and every other character kept, in order |
| `Redaction.RedactionIsComplete` | runner/cmd/plan_redaction.go:102-120 | For values without angle brackets, nothing is left in any text if and only if none of them occurs in the word redacted |
| `Redaction.PassLeavesNone` | runner/cmd/plan_redaction.go:113-120 | One pass leaves no occurrence of its own value in original characters |
| `Redaction.PassAddsNone` | runner/cmd/plan_redaction.go:113-120 | No pass brings any value back into original characters |
| `Redaction.ReplaceFollowsCells` | runner/cmd/plan_redaction.go:113-120 | The replacement on text and the replacement on tracked characters agree |
| `Redaction.SecretInTokenIsShown` | runner/cmd/plan_redaction.go:113-120 | A value that occurs in the token itself is still shown: the failing family |
| `Redaction.BracketFreeTouches` | runner/cmd/plan_redaction.go:113-120 | Without angle brackets, touching the token means occurring in the word redacted |
| `PlanRedaction.InterpolatedValues` | runner/cmd/plan_redaction.go:43-111 | The collection yields the interpolated values sorted longest first |
| `PlanRedaction.RedactGroup` | runner/cmd/plan_redaction.go:27-35 | Every resource of a group is copied with name and detail redacted and its action kept |
| `PlanRedaction.HiddenValues` | runner/cmd/plan_redaction.go:45-110 | The hidden values are exactly the non-empty ones whose source holds a dollar sign, independent of map order |
| `PlanRedaction.OnlyOneSortedOrder` | runner/cmd/plan_redaction.go:102-110 | The comparison orders the values in exactly one way, whatever the sorting algorithm |
| `PlanRedaction.RedactPlan` | runner/cmd/plan_redaction.go:14-37 | The nested loops redact target, names and details and copy the rest |
| `PlanRedaction.NothingInterpolatedIsShown` | runner/cmd/plan_redaction.go:14-37 | A displayed plan shows no interpolated value anywhere, under the condition above, and keeps its sections and actions |
| `PlanRedaction.CleanTextIsKept` | runner/cmd/plan_redaction.go:113-120 | A text without any of the values is displayed as it is |
| `PlanRedactionFields.EveryFieldIsCollected` | runner/cmd/plan_redaction.go:54-100 | Every field of the document but those of a direct registration is looked at, with the text it was resolved from |
| `PlanRedactionFields.NoInterpolatedFieldIsShown` | runner/cmd/plan_redaction.go:14-37 | So no field that was interpolated shows its value anywhere in a displayed plan, under the condition above |
| `PlanRedactionFields.WholeValueIsOneToken` | runner/cmd/plan_redaction.go:102-110 | What longest first is for: a text that is a hidden value as a whole is shown as one token, and no shorter value takes a part out of it |
| `Policy.NormalizePolicyFields` | runner/internal/openshell/sdkclient/sandbox.go:101-147 | The in-place rewriting of the node tree succeeds and ends exactly as the value-level normalization of the original tree says |
| `Policy.NormalizeStruct` | runner/internal/openshell/sdkclient/sandbox.go:112-126 | The loop over a struct's keys and values renames each key in place and normalizes each value, leaving the others untouched |
| `Policy.NormalizeMap` | runner/internal/openshell/sdkclient/sandbox.go:127-135 | The loop over a map normalizes the values and keeps the keys |
| `Policy.NormalizeSlice` | runner/internal/openshell/sdkclient/sandbox.go:136-144 | The loop over a sequence normalizes every item |
| `Policy.RenameKey` | runner/internal/openshell/sdkclient/sandbox.go:122 | Writing one key changes its own node and no other |
| `Policy.PolicyStructField` | runner/internal/openshell/sdkclient/sandbox.go:149-161 | The search returns the first field that matches up to case and underscores, with the one special name |
| `PolicyProofs.SucceedsExactly` | runner/internal/openshell/sdkclient/sandbox.go:101-147 | Normalization succeeds if and only if the document conforms to the schema |
| `PolicyProofs.OnlyStructKeysChange` | runner/internal/openshell/sdkclient/sandbox.go:112-144 | Tree shape, every scalar and every user-chosen map key are kept |
| `PolicyProofs.NormalizedIsNamedBySchema` | runner/internal/openshell/sdkclient/sandbox.go:122 | Afterwards every key at a struct position is a lower-cased field name of that struct |
| `PolicyProofs.Idempotent` | runner/internal/openshell/sdkclient/sandbox.go:101-147 | A second normalization changes nothing, for every schema |
| `PolicyProofs.RenamedKeyIsFound` | runner/internal/openshell/sdkclient/sandbox.go:149-161 | A rewritten key finds the field it was rewritten from |
| `PolicyProofs.SpellingDoesNotMatter` | runner/internal/openshell/sdkclient/sandbox.go:149-161 | Keys that differ only in case and underscores name the same field |
| `PolicyProofs.FilesystemPolicyIsFilesystem` | runner/internal/openshell/sdkclient/sandbox.go:149-153 | filesystem_policy names the field filesystem in the policy itself and nowhere else |
| `PolicyProofs.FoldsAlike` | runner/internal/openshell/sdkclient/sandbox.go:154-158 | Characters are equal up to case exactly for the letters and the two other characters that fold to one |

## Left out

- Archive bytes: an archive is its sequence of entries; tar encoding, file modes, umask and the host's own symbolic links are not modelled, and host write errors during extraction are not injected.
- Hard disk limits and directory listing order: a local tree lists its children in a fixed order.
- ArchiveRoundTrip.RoundTrip: speaks of shape and bytes, not of modes or times.
- Install.Host.InstallDownloadTree: other processes may create anything outside the private staging directory but are not allowed to remove or rewrite what exists.
- DownloadPipe.ReturnsExactlyWhen: the SSH channel window is a parameter, because the SSH library is not part of this model; data is counted in the pieces its copier moves.
- SourceCacheProofs.CommitProvenance: every git command is one atomic step on a small repository state; git internals, garbage collection beyond losing unprotected objects, and a child git process that outlives its parent are not modelled. checkout.go and mirror.go are therefore a state machine, one step per command, instead of methods.
- Terminal.PumpIsSafe: terminal.go is a state machine because its goroutines interleave; raw terminal mode, signals and window sizes are only the events they cause.
- SourceCache keys and run ids: hashing is assumed injective and random ids distinct; CanonicalizeURL is not modelled.
- RepoNames.AcceptedNameIsOneComponent: URLs are character sequences; their UTF-8 encoding is not modelled.
- Crashes after a successful Prepare and before its Cleanup leave the checkout behind; no clean-up of old run directories exists in the source.
- ShellQuote.QuoteRoundTrip: the lexer covers quoting and the operators the commands use; expansion of unquoted words is not modelled and such characters are rejected.
- Resolver.ResolveHarness: time.ParseDuration is a function parameter, and the order in which the environment map is ranged over is a parameter; YAML parsing and schema versions are not modelled.
- Strings are character sequences where the source has bytes; UTF-8 is not modelled. File paths are slash-separated; Windows paths are not modelled.
- Request.BuildRunRequest: the host (stat, temporary directories, reads, checkout) answers from fixed functions; file contents of payloads are not carried.
- Runner.Run: the client answers from a fixed fault pattern; deadlines are only the distinction between the caller's and a detached context. Labels are never set by the pipeline and are not carried.
- Pipeline.Apply: phases written to a result file, rendering of a dry run, and closing the client are not modelled.
- The inference section of a plan is described (Planning.PlanTells), but execution refuses every configured inference block, so nothing is proved about carrying it out.
- SourceCacheProgress.PrepareSucceeds: which of several waiting runs gets a free lock is up to the schedule; steps spent before a lock that another run holds are not counted.
- RemoteCommand.CommandRuns: the interpreter knows if-lists, OR-lists, test, exit and tar as the command uses them; what tar does is modelled in Archive.
- Redaction.NothingIsLeft: its condition is sufficient for every value; the exact condition is given for values without angle brackets.
- Redaction.RestIsKept: stated under the same condition, since a value that touches the token may be replaced inside a token written earlier.
- PlanRedaction: sort.Slice is replaced by a sorting function, justified by PlanRedaction.OnlyOneSortedOrder. redactedWorkflow, which blanks whole fields, would only add easy members.
- Policy.NormalizePolicyFields: error texts are not modelled, and after a failure the partly rewritten tree is left unspecified, as its only caller discards it. Case folding covers ASCII names and the two other characters that fold to ASCII letters; YAML decoding before and after is not modelled.
- SDK, gRPC, SSH handshake, OIDC, HTTP, cobra commands, tables and status messages: library calls and user interface.
