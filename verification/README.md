# Verification of steam-runtime-tools

A Dafny model of the parts of steam-runtime-tools that start other programs, with proofs of
what they promise. `dafny verify dfyconfig.toml` checks the whole project.

The model follows the program's own shape. Code that updates state is imperative: the
launcher service and the command builder are classes, and loops are loops with invariants.
Each such method is proved against a function or a predicate, and the lemmas prove what that
function means. Everything below holds for all inputs, or for all runs, unless a row says
otherwise.

| files | what they model |
|---|---|
| `FdMap.dfy` | how the launcher service plans and executes the remapping of file descriptors |
| `Environ.dfy`, `LaunchEnv.dfy` | environment blocks, and the environment of a launched process |
| `LauncherServer.dfy` | the launcher service: every callback as a function, and the object that performs them |
| `LauncherRuns.dfy`, `LauncherGuarantees.dfy` | all runs of one service with any number of clients, and what holds in them |
| `LauncherOutcomes.dfy`, `LaunchClients.dfy` | what each step sends, answers, stops and starts, and what clients report |
| `BwrapBuilder.dfy` | the builder for bwrap command lines |
| `BwrapRewrite.dfy`, `BwrapPermissions.dfy`, `Paths.dfy` | adjusting exported mounts for an interpreter, as a pass over an argument list |
| `PerArchDirs.dfy`, `Preload.dfy`, `PreloadGuarantees.dfy`, `PreloadOrder.dfy` | preload modules for several architectures behind one list |
| `Sdl.dfy`, `SdlAndPreload.dfy` | the SDL variables, which share the table of links with preloading |
| `ModuleOptions.dfy`, `LauncherInterface.dfy` | printing and parsing of module options; the test for a requested tool |
| `Peeling.dfy`, `LaunchCommand.dfy`, `LaunchCommandParts.dfy`, `LaunchCommandMeaning.dfy` | taking launch commands apart and putting them together |
| `Splitting.dfy`, `Decimal.dfy`, `Wrappers.dfy` | lists in strings, decimal numbers, option types |

Where a property that one would expect is false of the code, the code is modelled as it is,
and a lemma says exactly when the property holds:

- Converting an environment block to `--setenv` options changes its meaning if a name is
  repeated with a different value, and makes bwrap die if a name is empty
  (`BwrapBuilder.SetenvKeepsMeaning`, `BwrapBuilder.RepeatedNameChangesValue`,
  `BwrapBuilder.EmptyNameIsRefused`).
- When a temporary file system is filtered out for the Snap package, a `--perms` before it
  applies to the operation after it, or makes bwrap die (`BwrapPermissions.PermissionsAreKept`,
  `BwrapPermissions.PermissionsGoElsewhere`).
- After the service was told to stop, the wrapped command may still be run, by
  `--exec-fallback` (`LauncherGuarantees.FallbackRunsIff`,
  `LauncherGuarantees.FallbackAfterStop`).
- The rewrite through `/usr/bin/env -u` goes wrong for commands that start with a dash, and
  for names that are empty or contain `=`, as after `--unset-env=A=B`
  (`LaunchEnv.RewriteMeansUnset`, `LaunchEnv.BadNameIsNotUnset`). If the service is given such
  a name instead of the rewrite, the process inherits nothing
  (`LaunchEnv.BadOverlayInheritsNothing`).
- A library file name that is used for both `LD_AUDIT` and `LD_PRELOAD` makes the dynamic
  linker preload a module that was only given for auditing, and a module for one architecture
  makes it preload what was linked under the same name for another one before, such as SDL
  (`PreloadGuarantees.TokenStaysInVariable`, `PreloadGuarantees.ListStaysInVariable`,
  `PreloadGuarantees.SharedNameExample`, `PreloadGuarantees.EarlierLinkExample`).
- A list in which an entry contains a colon or, for `LD_PRELOAD`, a space is not read back as
  it is, and a module for all architectures is then not loaded, such as `/a b/x`
  (`PreloadGuarantees.VariableHoldsList`, `PreloadGuarantees.SpacedModuleIsLost`,
  `PreloadGuarantees.SpacedModuleExample`).
- Of the two libraries for `SDL_DYNAMIC_API`, a first one that fails half-way keeps the second
  one out (`Sdl.SdlDynamicApiIff`, `Sdl.FirstKeepsSecondOut`, `Sdl.Sdl2IsKeptOut`).
- Of two container runtimes in a launch command, the first is lost (`Peeling.KeptIsWhole`,
  `Peeling.SoldierIsLost`), and a command that ends in `proton run --` leaves no app to run
  (`Peeling.EmptyApp`, `Peeling.ProtonRunsNothing`).
- The shell command that is shown differs from the returned environment if a variable that
  is unset by default is set to the value that it already had, if the old runtime inside a
  layered one was also given with `--steam-runtime-env`, if the first word contains `=` or
  starts with a dash and nothing is set before it, or if the first variable that is set has a
  name that starts with a dash, or any of them an empty one that env(1) refuses
  (`LaunchCommandMeaning.ShellMatchesReturned`, `LaunchCommandMeaning.InnerAgreesIff`,
  `LaunchCommandMeaning.UnsetWins`, `LaunchCommandMeaning.DashIsTakenForOption`,
  `LaunchCommandMeaning.VariableIsTakenForOption`, `LaunchCommandMeaning.EmptyVariable`).
- An unknown architecture in a module option is accepted if a known one comes before it
  (`ModuleOptions.AcceptedValues`, `ModuleOptions.UnknownAccepted`).

## Model

| member | source | states |
|---|---|---|
| FdMap.FillFdMap | bin/launcher-service.c:496-518 | the table has one entry for each request, zero-filled for a handle out of range, and `max_fd` is the largest number in the other entries |
| FdMap.FindConflict | bin/launcher-service.c:537-545 | a conflict is reported exactly if a later entry still has to read the descriptor that this entry writes |
| FdMap.ResolveConflicts | bin/launcher-service.c:523-549 | sources and final numbers stay, exactly the conflicting entries are diverted, and the temporaries are distinct numbers above everything in use |
| FdMap.PlanFds | bin/launcher-service.c:496-549 | both loops together make such a plan from the request |
| FdMap.ChildProcess.SetUp | bin/launcher-service.c:392-424 | the child performs the two passes of dup2 and close on its own descriptor table |
| FdMap.MovesAreParallel | bin/launcher-service.c:404-424 | a pass in which no move overwrites a source that is still needed is one parallel assignment, and closes every source that is not a target |
| FdMap.PlanIsSafe | bin/launcher-service.c:523-549 | for every well-formed request, neither pass over the planned table ever overwrites a source that is still needed |
| FdMap.TwoPassesDeliver | bin/launcher-service.c:392-424 | both passes together assign in parallel from sources to final numbers and leave no temporary open |
| FdMap.RemappingDelivers | bin/launcher-service.c:392-549 | for all overlaps, chains and cycles: every final descriptor refers to the file that its source referred to, only final descriptors from 3 upwards survive exec, everything else is closed or unchanged except for close-on-exec, and temporaries are at most `max_fd` plus the number of requests |
| FdMap.LaunchWithFds | bin/launcher-service.c:392-613 | planning in the service followed by execution in the child delivers what was requested |
| FdMap.StdoutDelivered | bin/launcher-service.c:879-891 | with that plan, descriptor 1 of the wrapped command is the original standard output, which is closed under its own number, and nothing from 3 upwards is inherited |
| Environ.GetAfterSet | bin/launcher-service.c:562-581 | setting a variable in a list of strings changes the first entry for it, and what is read for no other variable |
| Environ.GetAfterUnset | bin/launcher-service.c:565-592 | unsetting a variable removes all entries for it, and no other variable |
| Environ.ToMapIsGet | pressure-vessel/flatpak-bwrap.c:102-118 | a list of strings stands for a finite map, which agrees with every lookup |
| LaunchEnv.ComposeEnv | bin/launcher-service.c:551-597 | for every variable: unset wins over set, set over MAINPID, MAINPID over what is inherited, and PWD is the working directory whatever the client sent; a name that GLib refuses empties the block at that point |
| LaunchEnv.LaunchedPrecedence | bin/launcher-service.c:551-597 | with names that GLib accepts: PWD is the working directory, and any other variable is gone if it is to be unset, or else has the last value set for it, or else is the main pid or inherited |
| LaunchEnv.SplitOverlay | bin/launch-client.c:1350-1358 | the variables to set and those to unset are exactly the overlay's, each once |
| LaunchEnv.LaunchEnvironment | bin/launch-client.c:1430-1452 | client and service together: for every variable but PWD, the process sees the client's overlay applied to the service's environment if no name in the overlay contains `=`; otherwise it inherits nothing, and if such a name is to be unset, nothing that was to be set arrives either |
| LaunchEnv.BadOverlayInheritsNothing | bin/launcher-service.c:562-592 | that is what the composed environment comes to, for every way in which the overlay is split |
| LaunchEnv.RewriteThroughEnv | bin/launch-client.c:1453-1481 | the replacement command is built word by word as specified, with a shell in between if the first word contains `=` |
| LaunchEnv.RewrittenWords | bin/launch-client.c:1453-1481 | for one variable these are `/usr/bin/env -u` and the variable, then the command, or `/bin/sh -euc 'exec "$@"' sh` and the command |
| LaunchEnv.RewriteMeansUnset | bin/launch-client.c:1430-1482 | running the replacement gives the same program, arguments and environment as running the command without the variables: if no name is empty or contains `=`, if and only if the first word does not start with a dash; otherwise if and only if the command would not run anyway |
| LaunchEnv.BadNameIsNotUnset | bin/launch-client.c:1455-1466 | after `--unset-env=A=B` the replacement for `x` fails, where `x` without the variable runs |
| LauncherServer.LauncherServer.TerminateChildren | bin/launcher-service.c:313-334 | every process in the table is signalled, and nothing else |
| LauncherServer.LauncherServer.Stop | bin/launcher-service.c:236-265 | stops listening, signals the children if asked, and either schedules the release of the skeleton or is gone at once |
| LauncherServer.LauncherServer.ChildWatchDied | bin/launcher-service.c:336-376 | the exit is reported to the peer that launched the process, the table and the main pid are updated, and the service stops if that was requested |
| LauncherServer.LauncherServer.HandleLaunch | bin/launcher-service.c:443-645 | a launch without a command or with unknown flags fails; otherwise the environment is as specified, for all names, and so is the descriptor plan, which is empty if the message has no descriptor list, and a successful spawn is recorded for the caller and replied to |
| LauncherServer.LauncherServer.HandleSendSignal | bin/launcher-service.c:647-688 | exactly a process launched by the same connection and sender is signalled, with or without its process group as asked, and the reply says so; for anything else no signal is sent and the answer is an error |
| LauncherServer.LauncherServer.HandleTerminate | bin/launcher-service.c:691-701 | replies and stops |
| LauncherServer.LauncherServer.OnNameOwnerChanged | bin/launcher-service.c:703-748 | when a unique name vanishes, exactly the processes launched by that sender are interrupted |
| LauncherServer.LauncherServer.OnBusAcquired | bin/launcher-service.c:1040-1068 | exports the interface, and stops with an error status if that fails |
| LauncherServer.LauncherServer.FinishStartup | bin/launcher-service.c:867-986 | starts the wrapped command if there is one, with a plan that gives it the original standard output, records it without a peer, and leaves everything unchanged if it cannot be started |
| LauncherServer.LauncherServer.OnReady | bin/launcher-service.c:1071-1098 | startup is finished once, unless exporting has failed or the service is gone |
| LauncherServer.LauncherServer.OnNameLost | bin/launcher-service.c:1100-1125 | stops without signalling, if configured, and is gone at once if it never started |
| LauncherServer.LauncherServer.UnrefSkeletonInTimeout | bin/launcher-service.c:226-234 | releases the service's own reference; the service is gone when no call holds another |
| LauncherServer.LauncherServer.EndCall | bin/launcher-service.c:213-224 | the last call to finish after the reference was released makes the service gone |
| LauncherRuns.StepKeepsInv | bin/launcher-service.c:336-1125 | each of the eighteen kinds of step keeps the invariants about the table, the mail, the main pid, shutdown and the clients |
| LauncherRuns.RunKeepsInv | bin/launcher-service.c:1813-1824 | the invariants hold in every state of every run, with any number of clients and with reuse of pids |
| LaunchClients.ReportedStatusIsOwn | bin/launch-client.c:112-164 | a client that got a launch reply returns the exit code of its own reaped child, or 128 plus the signal that killed it, or 255 for "cannot report", never another client's status; one that got none returns 125 |
| LaunchClients.ShellCodeOf | bin/launch-client.c:130-160 | for a wait status with any exit code, signal and core bit, the client's code is the exit code if there is no signal, 128 plus the signal for signals 1 to 126, and 255 otherwise |
| LaunchClients.CommonStatuses | bin/launch-client.c:130-160 | a process that exits with a code gives that code, and one that is killed by a signal gives 128 more, with or without a core dump |
| LaunchClients.ExitIsNotMissed | bin/launch-client.c:112-164 | in every run, once the child of a waiting client has been reaped, its exit signal is still ahead in the client's mail, and when it is dispatched the client returns that status |
| LauncherGuarantees.JobsAreConserved | bin/launcher-service.c:336-362 | all processes ever created are the disjoint union of those in the table and those reaped |
| LauncherGuarantees.ExactlyOneExitSignal | bin/launcher-service.c:347-358 | the peer that launched a process, and no other, gets exactly one launch reply and, once the process is reaped, exactly one exit signal after it, with the right pid and status |
| LauncherGuarantees.FinishedMeansAllReaped | bin/launcher-service.c:150-162 | the service finishes only when every process it ever created has been reaped |
| LauncherOutcomes.LoopEndsIff | bin/launcher-service.c:150-162 | the main loop can end exactly if no child is left and the export state is GONE |
| LauncherOutcomes.LoopEndsAfterStop | bin/launcher-service.c:1823-1824 | in every run it ends only after a stop, with no child left and the state GONE |
| LauncherOutcomes.FinishedBecause | bin/launcher-service.c:1813-1824 | a service that has finished could not listen, or came to such an end |
| LauncherGuarantees.ExportStateNeverDecreases | bin/launcher-service.c:70-88 | the export state moves only to later states, and being stopped is final |
| LauncherGuarantees.StopLeadsToGone | bin/launcher-service.c:236-265 | once stop has been called, the service is gone, or a timer is pending, or only calls in flight keep the skeleton |
| LauncherGuarantees.DrainingTerminates | bin/launcher-service.c:213-265 | in any part of any run, whatever else happens in it, the number of exits, timers and calls that start nothing is bounded by what remained at its start plus three times the number of arriving calls, stops and starts of the wrapped command |
| LauncherGuarantees.DrainedMeansNotAlive | bin/launcher-service.c:150-162 | when such steps run out after a stop, no child is left, the state is GONE, and the main loop can end |
| LauncherGuarantees.SignalsReachOnlyOwnChildren | bin/launcher-service.c:313-334 | every signal goes to a living process in the table: asked for by its own peer, or because its peer vanished, or because the service stops in that very step; the wrapped command only in the last case |
| LauncherOutcomes.SignalsAreExact | bin/launcher-service.c:313-334 | in every step the signals that are sent are exactly: the one that a child's own peer asks for, SIGINT to the process group of every child of a unique name that vanishes, and the stopping signal to the group of every child that is left when the service stops |
| LauncherOutcomes.StopsAreExact | bin/launcher-service.c:236-265 | the service stops exactly on a signal, the exit descriptor, a Terminate call, the exit of a child that was to end it, the loss of its name if configured, a failed export, or a wrapped command that cannot be started; its exit status becomes 70 by a failed export and 0 by a startup that succeeds, and never changes otherwise |
| LauncherOutcomes.CallIsAnswered | bin/launcher-service.c:443-701 | every call that is handled gets exactly one answer, of the kind that the table says, and nobody else gets mail |
| LauncherOutcomes.TableChangesAreExact | bin/launcher-service.c:336-645 | the table gains exactly the processes that are created, for the caller or for the service itself, and loses exactly the child that dies |
| LauncherOutcomes.ExitStopsIfAsked | bin/launcher-service.c:364-375 | from the launch of a process to its exit, whatever happens in between: the service stops at that exit, exactly if that was asked for with the launch, or configured for the wrapped command |
| LauncherOutcomes.NameLostBeforeStart | bin/launcher-service.c:1100-1125 | losing the name before startup makes the service gone at once |
| LauncherOutcomes.ConnectingExports | bin/launcher-service.c:1000-1068 | a connection on which the interface can be exported makes the service reachable for calls |
| LauncherGuarantees.MainPidIsLive | bin/launcher-service.c:108-113 | the main pid is known exactly while the wrapped command is in the table, and is its pid in decimal, even if the number is later reused |
| LauncherGuarantees.WrappedRunsAtMostOnce | bin/launcher-service.c:1848-1893 | over a whole run, starts of the wrapped command and fallback executions total at most one |
| LauncherGuarantees.NoWrappedStartAfterStop | bin/launcher-service.c:1079-1081 | after a stop the service only starts processes for its peers, never the wrapped command |
| LauncherGuarantees.FallbackRunsIff | bin/launcher-service.c:1848-1893 | at the end, also after a stop, `--exec-fallback` runs the wrapped command if and only if there is one and the service has never started it |
| LauncherGuarantees.FallbackAfterStop | bin/launcher-service.c:1848-1893 | a run in which it does so after a stop: exporting fails, the timer fires and the loop ends |
| BwrapBuilder.SplitSerialized | pressure-vessel/flatpak-bwrap.c:375-381 | splitting the bundled data at NULs gives back the arguments |
| BwrapBuilder.ExpandUndoesBundle | pressure-vessel/flatpak-bwrap.c:404-413 | replacing either form of placeholder by the contents of its file restores the original arguments |
| BwrapBuilder.FlatpakBwrap.BundleArgs | pressure-vessel/flatpak-bwrap.c:359-416 | for every valid range the builder ends with the placeholder and the new descriptor, and any reader of that file recovers the original arguments; on failure nothing changes |
| BwrapBuilder.Stpcpy | pressure-vessel/flatpak-bwrap.c:380-381 | copies a string with its terminator, returns where the terminator is and leaves what is before untouched |
| BwrapBuilder.CopyArgs | pressure-vessel/flatpak-bwrap.c:375-381 | the second loop fills exactly the length that the first one computed, with all arguments in order |
| BwrapBuilder.SetenvArgsMeanLastMap | pressure-vessel/flatpak-bwrap.c:333-357 | running the `--setenv` options on an empty environment gives the map in which the last entry for a name wins, and makes bwrap die exactly if a name is empty |
| BwrapBuilder.SetenvKeepsMeaning | pressure-vessel/flatpak-bwrap.c:333-357 | that is the map that the block stood for, if and only if no name is empty and the first and last entries of every name agree |
| BwrapBuilder.UniqueNamesAgree | pressure-vessel/flatpak-bwrap.c:333-357 | for unique names the map is always the same, and conversion keeps it if and only if no name is empty |
| BwrapBuilder.EmptyNameIsRefused | subprojects/bubblewrap/bubblewrap.c:2514-2519 | the block `=x` has unique names and a meaning, but bwrap dies on what it is converted to |
| BwrapBuilder.RepeatedNameChangesValue | pressure-vessel/flatpak-bwrap.c:333-357 | a block with `A=1` and `A=2` means 1 before and 2 after conversion |
| BwrapBuilder.SetIsMapUpdate | pressure-vessel/flatpak-bwrap.c:102-109 | setting a variable in the list is an update of the map |
| BwrapBuilder.SetKeepsUnique | pressure-vessel/flatpak-bwrap.c:102-109 | setting a variable keeps names unique |
| BwrapBuilder.FlatpakBwrap.EnvpToArgs | pressure-vessel/flatpak-bwrap.c:333-357 | every entry with a name becomes one option, and the block becomes empty |
| BwrapBuilder.FlatpakBwrap.StealFds | pressure-vessel/flatpak-bwrap.c:201-212 | the descriptors are handed over and the builder keeps none |
| BwrapBuilder.FlatpakBwrap.AddArgsDataFd | pressure-vessel/flatpak-bwrap.c:252-263 | the builder owns the descriptor, and the argument that names it reads back as its number |
| BwrapBuilder.FlatpakBwrap.AppendBwrap | pressure-vessel/flatpak-bwrap.c:214-250 | arguments and descriptors move over in order, none is lost or duplicated, and the environment becomes the union in which the other builder wins, with unique names kept |
| BwrapBuilder.Copy | pressure-vessel/bwrap.c:430-444 | a copy of a builder without descriptors has the same arguments and, for unique names, the same environment |
| Splitting.ItemsOfJoin | pressure-vessel/flatpak-utils.c:202-243 | joining two strings with a separator joins their lists of items |
| Paths.ElementsOfBuildFilename | pressure-vessel/bwrap.c:605-618 | joining two paths joins their elements, whatever slashes are at the seam |
| Paths.BuildFilenameKeepsStart | pressure-vessel/bwrap.c:605-618 | an absolute path stays absolute when something is joined to it |
| BwrapRewrite.ParseFlatten | pressure-vessel/bwrap.c:511-681 | reading back a written list of operations gives the list |
| BwrapRewrite.FlattenParse | pressure-vessel/bwrap.c:511-681 | any arguments are what their operations are written as, followed by what cannot be read |
| BwrapRewrite.AdjustedIsRewriteAll | pressure-vessel/bwrap.c:511-681 | working through the arguments with a cursor is the same as rewriting the parsed list |
| BwrapRewrite.RewriteIsHomomorphism | pressure-vessel/bwrap.c:511-681 | for a complete list of operations, the output parses completely, as the images of the operations one after the other |
| BwrapRewrite.RewriteIsIdentity | pressure-vessel/bwrap.c:625-653 | without an interpreter root and workarounds only sources in the home directory change |
| BwrapRewrite.BindIsDroppedIff | pressure-vessel/bwrap.c:567-655 | a bind is dropped if and only if its source is the one that the workaround takes out, or there is an interpreter root and the source is in neither root |
| BwrapRewrite.OtherIsDroppedIff | pressure-vessel/bwrap.c:543-679 | any other operation is dropped if and only if it is a temporary file system or permissions that a workaround takes out, and kept as it is otherwise |
| BwrapRewrite.ProgramDropsIff | pressure-vessel/bwrap.c:577-655 | with the program's tables, the workaround takes out binds of `/var/lib/snapd/desktop` and no others |
| BwrapRewrite.FontsAreKept | pressure-vessel/bwrap.c:577-655 | such as the bind of `/usr/share/fonts`, which is kept |
| BwrapRewrite.KnownOptions | pressure-vessel/bwrap.c:517-679 | exactly these seventeen options are known, with one operand, two, or as binds |
| BwrapRewrite.BelongsByFirstElement | pressure-vessel/bwrap.c:605-618 | what is mounted in the interpreter root is decided by the first element of the path, which is etc, overrides, usr or var |
| BwrapRewrite.OthersAreKept | pressure-vessel/bwrap.c:517-681 | operations that are not binds stay unchanged and in order, except the temporary file systems and permissions that a workaround takes out |
| BwrapPermissions.PermissionsAreKept | pressure-vessel/bwrap.c:513-681 | for every list that bwrap accepts: each image has the permissions of the operation that it comes from, and none are left over, if and only if no `--perms` that is kept stands directly before an operation that is filtered out |
| BwrapPermissions.PermissionsGoElsewhere | pressure-vessel/bwrap.c:550-564 | with the program's tables and the workaround for `/snap/steam`, a directory gets the permissions that were meant for the temporary file system, and if `--proc` follows instead, bwrap dies |
| BwrapRewrite.AppendAdjustedExports | pressure-vessel/bwrap.c:475-684 | the descriptors move over even on failure; success exactly if the real root is usable and every option is known; what is appended is the rewritten list up to the first unknown option |
| BwrapRewrite.AppendAdjustedOps | pressure-vessel/bwrap.c:511-683 | the cursor ends exactly at the end, or stops at the first unknown option |
| BwrapRewrite.AppendAdjustedOp | pressure-vessel/bwrap.c:517-679 | one turn of the loop moves by the width of the operation and appends its images |
| BwrapRewrite.AppendAdjustedBind | pressure-vessel/bwrap.c:567-655 | a bind is appended for the interpreter root, for the real root, for both or for neither |
| BwrapRewrite.MountViewPreserved | pressure-vessel/bwrap.c:567-655 | outside the interpreter root, the last mount that covers a path is the image of the last covering mount among those that have an image at their own destination |
| BwrapRewrite.InterpreterViewPreserved | pressure-vessel/bwrap.c:588-624 | below the interpreter root, a path shows what the corresponding real path shows among the mounts that exist in the interpreter and belong there |
| BwrapRewrite.ImagesAreApart | pressure-vessel/bwrap.c:588-655 | no operation has two images at one destination |
| BwrapRewrite.ProgramImagesAreApart | pressure-vessel/bwrap.c:588-655 | with the program's tables and interpreter root, an operation has at most two images, never at one destination |
| BwrapRewrite.InterpreterRootIsNotEmpty | pressure-vessel/runtime.h:81 | the program's interpreter root is a path for which that holds |
| PerArchDirs.BaseOfToken | pressure-vessel/per-arch-dirs.c:246-298 | the path with a dynamic token for a file name has that file name, so names can be recovered from lists |
| PerArchDirs.LinkDirs.Symlink | pressure-vessel/adverb-preload.c:113-119 | a link is made exactly if nothing is in the way, and existing links never change |
| Preload.FindAbi | pressure-vessel/adverb-preload.c:76-98 | the architecture is the given one, or for Steam's overlay library the first whose directory the path ends with |
| Preload.DoOneModule | pressure-vessel/adverb-preload.c:52-148 | an empty name is skipped; otherwise the module gets its token path once if its link is in place, or else appears as it is |
| Preload.SetUpPreloadModules | pressure-vessel/adverb-preload.c:150-194 | links, lists and both variables are as specified, with unadjusted lists if there are no directories, and a variable without modules is left alone |
| Preload.SetVariable | pressure-vessel/adverb-preload.c:178-191 | the items are joined with colons and set only if there are any |
| PreloadGuarantees.LinkTable | pressure-vessel/adverb-preload.c:113-136 | the table is write-once: each place holds what it held before, or else the first module given for it under either variable |
| PreloadGuarantees.ListContents | pressure-vessel/adverb-preload.c:36-148 | the list made module by module contains exactly what the finished table would give for each module |
| PreloadOrder.ListIsInOrder | pressure-vessel/adverb-preload.c:36-148 | the list made along with the links is the entries by the finished table in the order of the modules, with each token path where it first occurs |
| PreloadOrder.OverlayDecides | pressure-vessel/adverb-preload.c:76-98 | a preloaded module without an architecture is taken for the first one whose overlay library its path ends with, and any other module for what was given |
| PreloadOrder.X86Overlays | pressure-vessel/adverb-preload.c:76-98 | on x86 these are the paths that end with `/ubuntu12_64/gameoverlayrenderer.so` and `/ubuntu12_32/gameoverlayrenderer.so`, for preloading only |
| PreloadGuarantees.EveryModuleIsReachable | pressure-vessel/adverb-preload.c:100-147 | on every architecture, some entry of the right list leads to each module given for it or for all architectures, whatever links existed before |
| PreloadGuarantees.NothingElseIsReachable | pressure-vessel/adverb-preload.c:100-147 | an entry is a module's own name, or leads on each architecture to the earlier link, else to the first module given for that architecture and name, else nowhere |
| PreloadGuarantees.TokenStaysInVariable | pressure-vessel/adverb-preload.c:157-174 | whatever links existed before, a token path leads on an architecture only to modules given for its own variable, if and only if the earlier link there, or else the first module given under its name, is one of them |
| PreloadGuarantees.ListStaysInVariable | pressure-vessel/adverb-preload.c:150-174 | a whole list stays within its variable, if and only if for each file name of one of its token paths, and on every architecture, what owns that name was given for the variable |
| PreloadGuarantees.UnsharedNamesStay | pressure-vessel/adverb-preload.c:157-174 | so it does if nothing was linked under that file name before and it is not shared between the variables on that architecture |
| PreloadGuarantees.SharedNameLeaks | pressure-vessel/adverb-preload.c:113-141 | any file name shared between an audit module for one architecture and a preload module for another leads to preloading the audit module |
| PreloadGuarantees.SharedNameExample | pressure-vessel/adverb-preload.c:113-141 | with the x86 layout, `/a/x` given for auditing is preloaded because of `/b/x` |
| PreloadGuarantees.EarlierLinkLeaks | pressure-vessel/adverb.c:1051-1070 | a link that was made earlier for one architecture is preloaded there, if a module of the same file name is given for preloading on another one |
| PreloadGuarantees.EarlierLinkExample | pressure-vessel/adverb.c:1051-1070 | with the x86 layout, `/e/x` that was linked earlier is preloaded because of `/b/x` |
| PreloadGuarantees.TokensAppearOnce | pressure-vessel/adverb-preload.c:36-44 | no token path appears twice in a list |
| PreloadGuarantees.ItemsOfJoined | pressure-vessel/utils.c:219-232 | splitting the joined string as the dynamic linker does gives the list back, if and only if no entry contains a separator |
| PreloadGuarantees.VariableHoldsList | pressure-vessel/adverb-preload.c:176-191 | `LD_PRELOAD` holds the list of the modules for preloading joined together, and `LD_AUDIT` that of the others, or what was there before if the list is empty; what the dynamic linker reads from it, with colons or with colons and spaces, is the list, if and only if no separator is in the file name and temporary directory of a module with a link, or in the whole name of another one |
| PreloadOrder.EachListHasItsVariable | pressure-vessel/adverb-preload.c:176-191 | so both variables together hold the entries of their own modules, each in order |
| PreloadOrder.NamesHaveTheirVariable | pressure-vessel/adverb-preload.c:60-68 | without directories, both hold the names that were given for them, in order |
| PreloadOrder.PreloadedIsNotAudited | pressure-vessel/adverb-preload.c:176-191 | one module for preloading on all architectures ends up in `LD_PRELOAD`, and `LD_AUDIT` is left alone |
| PreloadGuarantees.PreloadReachesEveryAbi | pressure-vessel/adverb-preload.c:150-194 | end to end: from the finished `LD_PRELOAD` or `LD_AUDIT` and links every architecture loads every module given for it whose own entry has no separator, whatever the other entries are |
| PreloadGuarantees.SpacedModuleIsLost | pressure-vessel/adverb-preload.c:143-147 | any module for all architectures whose name contains a separator is loaded on none of them |
| PreloadGuarantees.SpacedModuleExample | pressure-vessel/adverb-preload.c:143-147 | with the x86 layout, `/a b/x` in `LD_PRELOAD` is read as `/a` and `b/x` |
| Sdl.SetUpDynamicSdl | pressure-vessel/adverb-sdl.c:22-117 | an existing value is respected; otherwise the loop over the architectures and the variable are as specified, and the variable is unchanged on failure |
| Sdl.SetUpDynamicSdls | pressure-vessel/adverb-sdl.c:119-168 | the wanted libraries are set up in order, and failures are not fatal |
| Sdl.LinkFromAdds | pressure-vessel/adverb-sdl.c:53-99 | links are only added, each to the copy chosen for its architecture |
| Sdl.LinkFromSucceeds | pressure-vessel/adverb-sdl.c:53-99 | the loop completes if and only if no link that it needs is in the way, and then every architecture that has the library has its link |
| Sdl.SetsVariableIff | pressure-vessel/adverb-sdl.c:101-114 | the variable gets set if and only if some architecture has the library and no needed link is in the way |
| Sdl.SetVariableProvides | pressure-vessel/adverb-sdl.c:119-168 | if this code set a variable, then one wanted library with it is linked on every architecture that has it, to the override if there is one and otherwise to the runtime's copy |
| Sdl.LinkFromLeaves | pressure-vessel/adverb-sdl.c:53-99 | whether the loop completes or fails, it leaves exactly the links up to the first one that is in the way |
| Sdl.SecondLibraryIff | pressure-vessel/adverb-sdl.c:153-168 | for two libraries with one variable and file name, it gets set if and only if the first one is wanted and nothing is in the way of its links, or so for the second one and the first one leaves none of the links that it needs |
| Sdl.SdlDynamicApiIff | pressure-vessel/adverb-sdl.c:126-168 | that is exactly when the program's own table sets `SDL_DYNAMIC_API` |
| Sdl.Sdl3DynamicApiIff | pressure-vessel/adverb-sdl.c:126-168 | `SDL3_DYNAMIC_API` gets set if and only if SDL 3 is wanted, some architecture has it, and nothing was in the way of its links before |
| Sdl.ExistingValuesAreRespected | pressure-vessel/adverb-sdl.c:38-47 | if the variables of all wanted libraries are set already, neither they nor any links change |
| Sdl.FirstKeepsSecondOut | pressure-vessel/adverb-sdl.c:91-99 | a first library that fails after making one link that the second one needs keeps it out, where the second one alone would be set up |
| Sdl.Sdl2IsKeptOut | pressure-vessel/adverb-sdl.c:91-168 | with the program's table and the x86 layout: if a file is in the way for i386, where the runtime has sdl2-compat but not SDL 2, then asking for both sets nothing, and asking for SDL 2 alone would |
| SdlAndPreload.SdlSurvivesPreload | pressure-vessel/adverb.c:1051-1070 | this still holds after preloading was set up, whatever modules share the file name |
| SdlAndPreload.SdlResolves | pressure-vessel/adverb-sdl.c:61-88 | so the dynamic linker finds the override, or else the runtime's copy, on each architecture |
| SdlAndPreload.ProgramTableIsValid | pressure-vessel/adverb-sdl.c:67-84 | this applies to all three libraries of the program's own table |
| SdlAndPreload.ModulesSurviveSdl | pressure-vessel/adverb.c:1051-1070 | a module whose file name SDL's links already use is still reached |
| ModuleOptions.Print | pressure-vessel/adverb-preload.c:274-298 | the option is written as `--ld-audit` or `--ld-preload`, `=`, the module, and `:abi=` with its architecture if it has one |
| ModuleOptions.ParseAdverbCli | pressure-vessel/adverb-preload.c:210-272 | the nested loops accept, reject and choose the architecture as specified |
| ModuleOptions.ParsePrinted | pressure-vessel/adverb-preload.c:210-298 | reading back a printed module gives the same name, variable and architecture, if and only if the name has no colon |
| ModuleOptions.ParsePrintParse | pressure-vessel/adverb-preload.c:210-298 | for every accepted value, printing and reading back changes nothing |
| ModuleOptions.AcceptedValues | pressure-vessel/adverb-preload.c:231-263 | a value is accepted if and only if all its parameters name architectures and the first of them is known |
| ModuleOptions.AcceptedMeaning | pressure-vessel/adverb-preload.c:221-271 | an accepted value has the name before the first colon, and is for the last known architecture that it mentions, or for all of them if it mentions none |
| ModuleOptions.UnknownAfterKnown | pressure-vessel/adverb-preload.c:237-252 | a known architecture followed by any unknown one is accepted, and means the known one |
| ModuleOptions.UnknownAccepted | pressure-vessel/adverb-preload.c:237-252 | as for `x:abi=i386-linux-gnu:abi=arm` on x86 |
| Splitting.SplitJoin | bin/launcher-interface-0.c:82-92 | splitting a joined string splits each side, empty parts included |
| LauncherInterface.WantedIfListed | bin/launcher-interface-0.c:61-98 | the substring test with added colons succeeds if and only if the request, without a colon, is one of the colon-separated names, which may be empty |
| Peeling.TakePrefix | bin/launch-options.py:963-968 | the loop splits the command after its first separator, or takes all of it if there is none |
| Peeling.PrefixEndsAtSeparator | bin/launch-options.py:963-968 | so does the function that it follows: the prefix ends with the only separator in it, or is the whole command |
| Peeling.Gui.ParseAdverbs | bin/launch-options.py:952-982 | all leading adverbs are peeled, in order |
| Peeling.Gui.ParseContainers | bin/launch-options.py:984-1019 | each runtime is looked for once, in the program's order, and the last one found is kept |
| Peeling.Gui.ParseLayered | bin/launch-options.py:1021-1049 | a layered runtime is peeled, and decides what the app runs on |
| Peeling.Gui.ParseProton | bin/launch-options.py:1051-1076 | Proton is peeled with its verb and at most one separator |
| Peeling.Gui.ParseCommand | bin/launch-options.py:944-1090 | the defaults of the window are the peeled components, and the app is what remains |
| Peeling.PeelingKeepsWords | bin/launch-options.py:952-1076 | everything peeled, one after the other, is the original command |
| Peeling.AdverbsAreAll | bin/launch-options.py:952-982 | each adverb starts with an adverb's word, ends at its separator and has something behind it, and what is left starts with no such adverb |
| Peeling.FirstRuleTakes | bin/launch-options.py:984-1019 | the first runtime that recognizes the first word takes off the words to its separator, and only later runtimes are looked for behind it |
| Peeling.NoRuleTakes | bin/launch-options.py:984-1019 | if none does, or there is no separator with something behind it, nothing is taken |
| Peeling.LayeredIff | bin/launch-options.py:1021-1049 | a layered runtime is peeled if and only if it is recognized and can be cut off at a separator |
| Peeling.ProtonIff | bin/launch-options.py:1051-1076 | Proton is peeled if and only if a known verb and another word follow it, with a separator if that is this word |
| Peeling.ProgramRulesByName | bin/launch-options.py:952-1060 | the suffixes by which the program recognizes adverbs, a layered runtime and Proton, and the two verbs |
| Peeling.ProgramRuntimesByName | bin/launch-options.py:981-990 | the five runtimes that it looks for, in order, each by one of three suffixes |
| Peeling.KeptIsWhole | bin/launch-options.py:984-1019 | the components that are kept make up the original command, if and only if at most one container runtime was peeled |
| Peeling.TwoRuntimesLoseOne | bin/launch-options.py:1011-1013 | with the entry points of any two runtimes in the order of the rules, not all words of the command are kept |
| Peeling.SoldierIsLost | bin/launch-options.py:984-1013 | as for the program's own rules and a command with soldier's and sniper's `run` |
| Peeling.EmptyApp | bin/launch-options.py:1051-1066 | the app is empty if and only if Proton, a verb and a separator are all that remains |
| Peeling.NothingLeftToRun | bin/launch-options.py:1051-1066 | as for every command that consists of these three words |
| Peeling.ProtonRunsNothing | bin/launch-options.py:1051-1066 | such as `/proton run --` with the program's own rules |
| LaunchCommand.SelectComponents | bin/launch-options.py:1704-1763 | components are in the order old runtime, adverbs, container, layered runtime, Proton, and a layered runtime needs a container |
| LaunchCommand.AddContainer | bin/launch-options.py:1772-1842 | the container's words and its environment variables |
| LaunchCommand.AddComponents | bin/launch-options.py:1768-1845 | the argument list and the lines of the shell command have the same words |
| LaunchCommand.EnvLines | bin/launch-options.py:1905-1913 | the generated words unset what is to be unset and present, and set what differs |
| LaunchCommand.BuildArgv | bin/launch-options.py:1688-1928 | the shell command is the prefix, any inner `env` and the argument list, and the environment has unset variables removed and chosen ones set |
| LaunchCommandParts.ArgvIs | bin/launch-options.py:1704-1896 | the argument list is, in order: the old runtime, the adverbs, the container runtime and in it the layered one, Proton, a terminal or shell if there is no container, and the app |
| LaunchCommandParts.EnvironAt | bin/launch-options.py:1738-1864 | for every variable: the late settings override the last option of the container, which overrides the path of pressure-vessel, which overrides `--steam-runtime-env`, which overrides the runtime inside a layered one; and choosing an SDL removes its `*_DYNAMIC_API` |
| LaunchCommandParts.ReturnedAt | bin/launch-options.py:1916-1923 | the returned environment has what is set, or else what was there, except for `PRESSURE_VESSEL_WRAP_GUI` |
| LaunchCommandMeaning.RebuildPeeled | bin/launch-options.py:1717-1763 | selecting exactly what was peeled gives the original command, if and only if at most one container runtime was peeled and any layered runtime was inside one |
| LaunchCommandMeaning.EnvMakesChanges | bin/launch-options.py:1911-1913 | env(1) makes exactly the changes that the assignments stand for, or fails if and only if one of them is to an empty name and env(1) refuses that |
| LaunchCommandMeaning.PrefixMakesFinalEnv | bin/launch-options.py:1901-1923 | the prefix denotes the returned environment, if and only if no variable is unset and then set to the value it had |
| LaunchCommandMeaning.UnsetWins | bin/launch-options.py:1901-1923 | given with `--steam-runtime-env` and the value that it already has, the variable that is unset by default is in the returned environment, but the shell command runs the app without it |
| LaunchCommandMeaning.ShellMatchesReturned | bin/launch-options.py:1898-1928 | for every command: what the shell command executes is the returned arguments in the returned environment, if and only if there is a command, its first word has no `=`, and starts with a dash only if an assignment or an inner `env` comes before it; no assignment is to an empty name that env(1) refuses, and the first variable that gets one does not start with a dash; no variable is unset and then set to the value it had; and the inner runtime agrees |
| LaunchCommandMeaning.ShellRunsReturned | bin/launch-options.py:1898-1928 | under that condition it also comes to the same as the returned arguments in the returned environment, if one sees through an `env` that they start with themselves |
| LaunchCommandMeaning.ShellRunsReturnedIff | bin/launch-options.py:1898-1928 | and for first words other than `env`, only under that condition |
| LaunchCommandMeaning.DashIsTakenForOption | bin/launch-options.py:1905-1915 | an app called `-x` with nothing set is not run by the shell command |
| LaunchCommandMeaning.VariableIsTakenForOption | bin/launch-options.py:1911-1915 | with `--steam-runtime-env=-u=A` as the only variable, the shell command fails although all else agrees |
| LaunchCommandMeaning.EmptyVariable | bin/launch-options.py:1911-1915 | with `--steam-runtime-env==A` it means the same if and only if env(1) accepts an assignment to an empty name |
| LaunchCommandMeaning.InnerAgreesIff | bin/launch-options.py:1738-1766 | the inner runtime agrees if and only if `--steam-runtime-env` does not name a different one |

## Left out

- D-Bus transport, GVariant encoding and the GLib main loop: messages are queues, callbacks
  are atomic steps, and the skeleton is one reference plus a count of calls in flight.
- System calls, except for their effect on descriptors, processes and links. A new process
  has a pid that is not in the service's table, and a signal is assumed to be sent.
- FdMap.RemappingDelivers: requests with a handle out of range, or with duplicate sources or
  destinations, are excluded; the program calls duplicates the caller's issue, and an entry
  that it leaves zero-filled remaps descriptor 0. Descriptor numbers do not overflow.
- GLib, which is not part of this model: its functions for environment blocks are taken to
  refuse a name that contains `=` and to return no block then, which is what they do unless
  they were built without their checks.
- LauncherServer.LauncherServer.FinishStartup: closing the stream on which the service reports
  its address is not modelled.
- LaunchEnv.RewriteMeansUnset: env(1) options other than `-u` and shells other than the one
  that the program inserts are not interpreted. Programs are not looked up, so that unsetting
  PATH makes no difference to which program runs, and the variables that the inserted shell
  sets by itself are ignored.
- LauncherRuns.RunKeepsInv: a client makes one launch call and has its own connection and
  sender; what connects to the service but is not a client may send anything.
- Terminal bridging, terminal setup, hints for users, logging, option tables and version
  output.
- BwrapRewrite.MountViewPreserved: mounts are looked up by path prefix.
- BwrapPermissions.PermissionsAreKept: permissions are not read as octal numbers.
- BwrapRewrite.AppendAdjustedExports: arguments that end in the middle of an operation make
  the program abort, and are excluded. Whether a path exists in a root, and how a home path is
  seen from the host, are parameters.
- The builder's NULL terminator, descriptors that are not inherited and the synchronization
  descriptor.
- PreloadGuarantees.EveryModuleIsReachable: the order of modules for each architecture, which
  the program does not preserve. For a module whose own given name is a token path of the
  temporary directory nothing is stated.
- The VDPAU links that are made between SDL and preloading: any links may be made there.
- LauncherInterface.WantedIfListed: finding the launcher service and executing it.
- Quoting and line breaks of the shell command: it is a list of words.
- LaunchCommandMeaning.ShellMatchesReturned: names of variables contain no `=`, because they
  are what comes before the first one in an option. Implementations of env(1) differ in whether
  they accept an assignment to an empty name, so this is a parameter.
- The windows of `launch-options.py`, and the discovery of runtimes: selected components and
  chosen values are inputs, and creating the variable directory is left out.
- The diagnostic tools, ELF inspectors and build scripts, which mostly report what libraries
  tell them.
