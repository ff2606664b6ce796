# Codespace SSH gateway: a verified model

The gateway lets an SSH client reach a remote development environment: it wakes the environment up,
opens a session on it, and keeps the books while clients come and go. This project models the parts
where several clients share state, and the small text and tree editors that work on files the
operator owns, and proves what they keep.

`dafny verify dfyconfig.toml` checks everything.

| file | what it models |
|---|---|
| `SingleFlight.dfy` | concurrent `Ensure` callers sharing one operation: the locked sections as class methods, and a transition system over every interleaving |
| `Provider.dfy`, `WaitFor.dfy`, `Ensure.dfy`, `EnsureTrace.dfy` | one run of the environment state machine against an arbitrary provider, with a log of its calls |
| `Phases.dfy` | the phase of an environment and its bounded history |
| `Connect.dfy` | opening a session with retries and backoff |
| `Registry.dfy`, `Sessions.dfy` | the session registry, and what happens between the last session's end and the reaction to it |
| `SshChannel.dfy` | one SSH channel: the request loop and the forwarder around their shared state |
| `SshConfig.dfy` | the managed block in `~/.ssh/config` |
| `HostKeys.dfy` | pinned host keys in a text file |
| `Redactor.dfy` | replacing secrets in log output |
| `YamlTree.dfy`, `YamlPatch.dfy`, `YamlRedact.dfy` | setting a key and hiding credentials in a tree of linked nodes, in place |
| `TerminalModes.dfy` | the encoded terminal modes of a pty request |
| `Substrings.dfy`, `Lines.dfy`, `Latches.dfy`, `Wrappers.dfy` | what the text models need of Go's `strings` package, flags over a run, and `Option`/`Result` |

How the models are built:

- Code that changes fields step by step is a class or a method with a loop; its contract ties it to a
  specification function, and the laws are proved about that function.
- Code that interleaves is a transition system: a state, events, `Enabled` and `Apply`. Every section
  under a mutex is one step, and every call made outside the lock is a step of its own. `Run` is any
  sequence of enabled events from the initial state; a `select` with several ready arms is several
  enabled events.
- The provider, the clock and the network answer arbitrarily. In `Ensure.dfy` and `Connect.dfy` they are
  methods that return any value at all and add it to a log.
- A context is a budget of ticks that may also end early. In Go a `select` with both arms ready may
  still take the ticker once the deadline has passed; such a poll counts as one more tick.

## What the proofs found

- Ensure: an abandoned runner can still be at work, not even cancelled, next to a fresh one for the same
  environment (`SingleFlight.OrphanMayOverlap`). Only registered operations, and operations somebody
  waits for, are unique.
- Ensure: when auto-create is off and nothing was found, the error is recorded but no phase is announced,
  unlike every other failure.
- Connect: when the caller's context ends during a pause, nothing is recorded and the last phase that
  Connect itself announced is CONNECTING.
- A failed connect closes its session without calling OnSessionClosed, so the last disconnect of an
  environment can go unnoticed (`Sessions.FailedConnectLosesTheLastDisconnect`).
  `Sessions.LastDisconnectNoticedExactly` says exactly when it does.
- Counting and reacting are separate steps, so with stop_on_last_disconnect on, Provider.Stop can be
  called under a session opened in between (`Sessions.StopCanHitALiveSession`).
  `Sessions.StopHitsALiveSessionExactly` says that nothing else makes it meet one.
- Teardown takes its snapshot before it waits for the forwarder. A connection registered after that
  snapshot is neither closed nor released (`SshChannel.LateConnectionIsLeftOpen`,
  `SshChannel.LateConnectionLeaks`). The comment in
  ssh/forward.go:159-160 says teardown may be called from either goroutine; only the request loop calls it.
- A client that reports a visible size and then a hidden one before the connection is there may have no
  size sent to it at all (`SshChannel.HiddenSizeSkips`); `SshChannel.NewestSizeDeliveredExactly` says that
  nothing else keeps it back.
- setConn resizes the connection outside its lock, so an older window size can arrive after a newer one
  (`SshChannel.OlderSizeCanWin`); `SshChannel.NewestSizeInForceExactly` says exactly when it stays.
- Installing and removing the ssh config block is not an exact undo: every round leaves one more blank
  line (`SshConfig.EachRoundAddsOneLine`, `SshConfig.RoundIsNeutralExactly`), and a stray marker in the file breaks removal
  (`SshConfig.StrayEndSticks`, `SshConfig.StrayBeginSwallows`).
- A host key appended to a file whose last line has text but no newline runs into that line: it is not
  recorded (`HostKeys.AppendRecordsPinExactly`), and a second, different key can be accepted for the
  same codespace (`HostKeys.UnfinishedLineAcceptsTwoKeys`).
- A secret that contains `***`, or starts or ends with `*`, can survive redaction, because the
  placeholder completes it (`Redactor.LoneSecretLeaksExactly`). No other secret is affected
  (`Redactor.SecretIsKeptExactly`).
- Section 8 of RFC 4254 says that opcodes 160 to 255 cause parsing to stop; the code reads them like any
  other opcode, and so does the model.

## Model

| member | source | states |
|---|---|---|
| `SingleFlight.Manager.JoinOrCreate` | core/lifecycle/ensure.go:28-48 | the first locked section of Ensure: join the registered operation with one more waiter, or register a new one with one; the new shared state is exactly that, old operations keep their identity |
| `SingleFlight.Manager.ReleaseSection` | core/lifecycle/ensure.go:76-83 | one waiter less; only the last to abandon an operation unregisters it, and only if the registration is its own |
| `SingleFlight.Manager.PublishSection` | core/lifecycle/ensure.go:94-99 | the result is stored as the runner computed it, and the own registration, if still there, removed |
| `SingleFlight.StepKeeps` | core/lifecycle/ensure.go:23-103 | every step keeps the invariant: exact waiter counts; whatever is registered is unpublished, open, uncancelled and awaited; whatever is unpublished and unregistered has no waiter and its cancel done or pending |
| `SingleFlight.Always` | core/lifecycle/ensure.go:23-103 | the invariant holds in every state of every run of any number of callers and runners |
| `SingleFlight.JoinersFindALiveOperation` | core/lifecycle/ensure.go:29-45 | nobody ever joins an operation that is finished, published, cancelled or without waiters |
| `SingleFlight.EnterFindsItsOperation` | core/lifecycle/ensure.go:28-48 | every caller gets an operation for the environment it asked for: the registered one, or a new one, registered, with itself as the only waiter |
| `SingleFlight.AwaitedIsRegistered` | core/lifecycle/ensure.go:28-103 | while somebody waits for an unpublished operation it stays the registered one of its environment, neither cancelled nor done |
| `SingleFlight.AbandonmentIsSafe` | core/lifecycle/ensure.go:76-89 | an unpublished operation is cancelled only after everybody left; one that is unregistered has no waiter and its cancel is done or pending; one that is registered has a waiter |
| `SingleFlight.RegistrationIsOwn` | core/lifecycle/ensure.go:76-99 | a registration goes away only by its own last waiter leaving or its own completion, and is never replaced by another operation |
| `SingleFlight.OutcomeIsWrittenOnce` | core/lifecycle/ensure.go:91-103 | a published result never changes again, and is there before done closes |
| `SingleFlight.CallersAgreeOnTheResult` | core/lifecycle/ensure.go:66-103 | all callers that return through done on one operation return the same pair, present and as stored; every other caller returns because its own context ended |
| `SingleFlight.ReturnedIsPublished` | core/lifecycle/ensure.go:66-103 | what a caller returns through done is the pair that the runner of its operation published before, in the only publication of that operation |
| `SingleFlight.OrphanMayOverlap` | core/lifecycle/ensure.go:76-103 | a run in which two runners of one environment work at the same time |
| `WaitFor.PollingIsQuiet` | core/lifecycle/ensure.go:240-272 | waitFor is still polling exactly when all polls so far were undecided and never six errors came in a row; its counter is the length of the current run of errors |
| `WaitFor.GotIsFirstReached` | core/lifecycle/ensure.go:258-277 | waitFor returns an environment if and only if it is the first poll that satisfies the goal, with only quiet polls before it |
| `WaitFor.GaveIsFirstFatal` | core/lifecycle/ensure.go:258-289 | waitFor fails if and only if, after quiet polls, a poll is an auth or permanent error, the sixth error in a row, or a FAILED or NOT_FOUND state that does not satisfy the goal; and which error that is |
| `WaitFor.ShortErrorRunsAreInvisible` | core/lifecycle/ensure.go:258-271 | runs of at most five temporary errors change nothing: the outcome is that of the observed states alone |
| `WaitFor.NextPollDecides` | core/lifecycle/ensure.go:271-289 | what one more observed state does to a wait: a wait for a stop is over in every state but STOPPING; a wait for RUNNING succeeds there alone and fails in FAILED and NOT_FOUND |
| `Ensure.Run.Tick` | core/lifecycle/ensure.go:251-256 | one select between ticker and context: a tick costs one of the ticks left |
| `Ensure.Run.Lookup` | core/lifecycle/ensure.go:180-203 | get: one to three lookups; where the run then stands, or the context ended between two of them |
| `Ensure.Run.Adopt` | core/lifecycle/ensure.go:208-217 | adopt: one List call; the environment if it is the only one, otherwise on to creation or to the disabled error |
| `Ensure.Run.CreateEnvironment` | core/lifecycle/ensure.go:219-236 | create: one Create call, announced before it and counted if it succeeds, recorded as failed otherwise |
| `Ensure.Run.AdoptOrCreate` | core/lifecycle/ensure.go:114-125 | after not-found: adopt, or create when allowed; with auto-create off the error is recorded and the phase left alone |
| `Ensure.Run.Find` | core/lifecycle/ensure.go:106-126 | the first half of ensure: at most three calls and the ticks waited, an environment or the recorded failure |
| `Ensure.Run.PollFor` | core/lifecycle/ensure.go:240-295 | waitFor as a loop: one poll a tick, the result the one that the polls decide, otherwise only the end of the context; ticks left are the termination measure |
| `Ensure.Run.WaitOrFail` | core/lifecycle/ensure.go:142-147 | a wait that fails is recorded and moves the phase to FAILED; one that succeeds returns a state satisfying its goal |
| `Ensure.Run.StartIfStartable` | core/lifecycle/ensure.go:154-165 | Start is called only for a startable state, and then it is called, counted if it succeeds; otherwise the phase mirrors the state; which states these are is stated by EnsureTrace.FoundLeads |
| `Ensure.Run.AwaitRunning` | core/lifecycle/ensure.go:167-175 | the last wait: RUNNING is announced, or the failure recorded |
| `Ensure.Run.StartAndWait` | core/lifecycle/ensure.go:154-175 | start if need be, then wait for RUNNING; phase, counters and result follow the calls |
| `Ensure.Run.StartUnlessRunning` | core/lifecycle/ensure.go:148-175 | nothing to do for a running environment, otherwise start and wait |
| `Ensure.Run.Raise` | core/lifecycle/ensure.go:130-175 | nothing to do for a running environment; a stopping one is waited for before it is started |
| `Ensure.Run.Ensure` | core/lifecycle/ensure.go:106-176 | against any provider: the calls obey the monitor; the result is the one they lead to, or the context ended while waiting, which happens exactly when a select chose the context; success means RUNNING in state and phase; every announced phase, both counters and the resolved id are exactly those of the calls; at most four calls more than ticks used |
| `Ensure.RunFollowsMonitor` | core/lifecycle/ensure.go:105-295 | the log of a run is accepted by the monitor at every moment: every call was in place |
| `EnsureTrace.RunIsShaped` | core/lifecycle/ensure.go:106-236 | the shape below, for everything a run has called by any moment and for every prefix of it; no call is ever out of place |
| `EnsureTrace.CallsAreShaped` | core/lifecycle/ensure.go:106-236 | every log, and every prefix, is at most three lookups (retried only after temporary failures), then at most one List after not-found, then at most one Create, then polls only of an environment found STOPPING, then at most one Start, then polls; the counters and the resolved environment are read off these parts |
| `EnsureTrace.SuccessIsRunning` | core/lifecycle/ensure.go:130-175 | success returns the environment seen last, and it is RUNNING |
| `EnsureTrace.StartIsOfAStartable` | providers/environment.go:37-46 | Start is only asked of the environment seen last, and that was STOPPED, UNKNOWN or FAILED |
| `EnsureTrace.CreateIsALastResort` | core/lifecycle/ensure.go:107-125 | Create only with auto-create on, for the handle, directly after a List without a sole survivor that followed a not-found lookup |
| `EnsureTrace.PhasesEndRight` | core/lifecycle/ensure.go:106-176 | the phases announced end in RUNNING for success and FAILED for failure; a disabled creation announces nothing |
| `EnsureTrace.StartedBeforePolled` | core/lifecycle/ensure.go:154-168 | an environment last seen STOPPED, UNKNOWN or FAILED before the start is polled only after its start was asked for and succeeded |
| `EnsureTrace.FirstCall` | core/lifecycle/ensure.go:106-107 | a run begins with a lookup of the handle and nothing else |
| `EnsureTrace.FailedLookupLeads` | core/lifecycle/ensure.go:107-126 | what follows a failed lookup, and nothing else can: another lookup after a temporary failure, three in all; the list after not-found; otherwise FAILED and the end with that error |
| `EnsureTrace.ListLeads` | core/lifecycle/ensure.go:114-123 | what follows a list without exactly one environment: PROVISIONING and a creation for the handle if allowed, otherwise the end with the error of the lookup and no phase |
| `EnsureTrace.FoundLeads` | core/lifecycle/ensure.go:126-166 | state by state what is announced for the first environment and which one call may follow: none for RUNNING, a poll of its id for STOPPING and every transitional or unreachable state, a start of its id for STOPPED, UNKNOWN and FAILED |
| `EnsureTrace.StopPollLeads` | core/lifecycle/ensure.go:138-166 | a poll of an environment that has only been seen STOPPING: still STOPPING means the next poll, any other state is dealt with as above, with the id of the answer |
| `EnsureTrace.RunPollLeads` | core/lifecycle/ensure.go:168-176 | a poll of an environment that is coming up: RUNNING is success, FAILED and NOT_FOUND announce FAILED and end the run with their own error, every other state means another poll |
| `EnsureTrace.FailedPollLeads` | core/lifecycle/ensure.go:258-269 | a failed poll: the next poll while the error is temporary, not for auth, and not the sixth in a row; otherwise FAILED and the end with that error |
| `EnsureTrace.AnswerLeads` | core/lifecycle/ensure.go:155-162 | a creation or start that fails announces FAILED and ends the run with its error; a start that succeeds is followed by a poll of the same id |
| `Phases.EnvState.SetPhase` | core/lifecycle/manager.go:158-185 | phase, last error and history after one call: nothing for a repeated phase, otherwise one more entry, trimmed from the front |
| `Phases.EnvState.Resolve` | core/lifecycle/manager.go:207-214 | an environment without an id leaves the resolved id alone |
| `Phases.HistoryIsTheLogsEnd` | core/lifecycle/manager.go:171-174 | for any sequence of phase changes the stored history is exactly the last 32 entries, or all if fewer, of the full log |
| `Phases.HistoryIsChained` | core/lifecycle/phase.go:99-100 | history entries chain without self-transitions, are at most 32, and end in the current phase |
| `Phases.TrackedFollows` | core/lifecycle/manager.go:158-175 | what the calls of SetPhase left behind is the track of the phases asked for |
| `Connect.Manager.constructor` | core/lifecycle/manager.go:39-41 | a negative number of retries counts as none |
| `Connect.LatestIs` | core/lifecycle/connect.go:40-43 | the environment in use is that of the last Ensure that succeeded: failed ones after it change nothing |
| `Connect.Manager.Refresh` | core/lifecycle/connect.go:40-43 | the environment in use is that of the last Ensure that succeeded |
| `Connect.Manager.BeforeRetry` | core/lifecycle/connect.go:30-43 | before another attempt: the pause, twice as long the next time up to 16 seconds, and a fresh look at the environment; or the context ended within the pause |
| `Connect.Manager.Dial` | core/lifecycle/connect.go:26-66 | at most R+1 attempts, each on the environment of the last Ensure that succeeded by then, all but the last failed temporarily and not for auth; success is the first success; failure carries the last error, which is permanent or for auth unless the attempts are used up; the pauses add up exactly |
| `Connect.Manager.Connect` | core/lifecycle/connect.go:19-71 | the same for the whole call, with the environment returned beside the connection or error, the phases asked for, the counter and the recorded error; a cancelled connect records nothing |
| `Connect.BackoffIs` | core/lifecycle/connect.go:26-39 | the pauses are 1, 2, 4, 8 and from then on 16 seconds |
| `Connect.SleptIs` | core/lifecycle/connect.go:35-39 | k pauses take 2^k - 1 seconds for k up to 4, and 16k - 49 from 4 on |
| `Connect.SleepIsBounded` | core/lifecycle/connect.go:29-70 | however a connect with R retries ends, it has slept at most 2^R - 1 (R up to 4) or 16R - 49 (R from 4 on) seconds |
| `Registry.Session.CompareAndSwap` | core/session/session.go:136 | only the first of any number of closes wins |
| `Registry.Manager.Admit` | core/session/session.go:105-112 | the limits are checked against the sessions and the counter of the environment |
| `Registry.Manager.OpenSession` | core/session/session.go:103-131 | refused with the registry untouched, or one new session under the next id, with first told from the count |
| `Registry.Manager.Close` | core/session/session.go:135-153 | a second close changes nothing; the first removes the session, and its count, and tells whether it was the last |
| `Registry.DecimalReadsBack` | core/session/session.go:117 | the decimal rendering of the sequence number can be read back |
| `Registry.IdSpelled` | core/session/session.go:117 | an id is the letter s and the decimal digits of the number, without leading zeros |
| `Registry.OpenAssignsNextId` | core/session/session.go:113-121 | the n-th session opened is registered under the id of n, before the sixty-four-bit counter wraps |
| `Registry.IdsDiffer` | core/session/session.go:113-117 | different sequence numbers render to different ids |
| `Registry.OpenAgrees` | core/session/session.go:103-126 | opening keeps counters exact, no zero entry, their sum the number of sessions, and both limits; first means no session before |
| `Registry.RemoveAgrees` | core/session/session.go:139-149 | removing takes out that session and no other and keeps the same agreement; last means no session left |
| `Registry.RefusesExactly` | core/session/session.go:105-112 | open is refused exactly when one more session would break a positive limit, with the error of the limit on the total if that is one of them |
| `Sessions.Always` | core/gateway/backend.go:35-79 | registry, sessions, first/last decisions and what is known of each busy period agree in every state of every run |
| `Sessions.CountersAreExact` | core/session/session.go:103-168 | over interleaved opens and closes, duplicate closes included: perEnv counts exactly the registered sessions, the counters sum to the number of sessions, limits hold, ids are never reused |
| `Sessions.FirstAndLastAlternate` | core/session/session.go:124-147 | in lock order the decisions of each environment begin with first and then alternate |
| `Sessions.LastDisconnectNoticedExactly` | core/gateway/backend.go:56-78 | once all sessions are over, some release read a zero count since the last open if and only if no failed connect removed the last session while no release had its count still to read; and then the last-session branch ran |
| `Sessions.NoLostLastDisconnect` | core/gateway/backend.go:69-78 | while sessions go away only through Release, the very release that removed the last session of the environment afterwards reads a count of zero and runs the last-session branch |
| `Sessions.NeverStopsByItself` | core/lifecycle/connect.go:84-110 | with stop_on_last_disconnect off and no operator request no run calls Provider.Stop |
| `Sessions.StopFollowsZero` | core/lifecycle/connect.go:84-104 | with stop_on_last_disconnect on and a provider that can stop, every release that read a zero count has the stop of its environment called, or still on its way |
| `Sessions.FailedConnectLosesTheLastDisconnect` | core/gateway/backend.go:56-60 | a run in which a failed connect ends the last session and nobody reacts |
| `Sessions.StopHitsALiveSessionExactly` | core/lifecycle/connect.go:84-104 | when a stop goroutine calls Provider.Stop: a release had read a zero count for that environment, and the environment has a registered session at the call if and only if a session opened after that reading still is registered |
| `Sessions.LiveAfterZeroExactly` | core/gateway/backend.go:74-77 | after a zero count an environment has registered sessions if and only if one opened later still is |
| `Sessions.StopCanHitALiveSession` | core/gateway/backend.go:74-77 | a run in which Provider.Stop is called for an environment with a live session |
| `SshChannel.SessionState.PtyRequest` | ssh/session.go:65-72 | a pty request is stored, sizes clamped to 16 bits, only before the session started |
| `SshChannel.SessionState.EnvRequest` | ssh/session.go:81-85 | an environment variable is stored only before the session started |
| `SshChannel.SessionState.Begin` | ssh/session.go:136-152 | only the first shell, exec or subsystem request wins |
| `SshChannel.SessionState.ReadSnapshot` | ssh/session.go:154-165 | the snapshot is the request data without the gateway control variable, whatever order the map is visited in |
| `SshChannel.SessionState.SetConnection` | ssh/session.go:176-184 | setConn without interruption: the connection is there, and the stored size is sent to it exactly if visible |
| `SshChannel.SessionState.Resize` | ssh/session.go:192-202 | resize without interruption: the size is stored, and sent exactly if it is visible and there is a connection |
| `SshChannel.EitherSectionDelivers` | ssh/session.go:176-202 | the locked halves of setConn and resize, in either order: the second one sends the new size, and the fields end up the same |
| `SshChannel.SkippedMeans` | ssh/session.go:176-183 | the record `skipped` of a run holds if and only if setConn found a hidden size after a visible one and no visible size was reported since |
| `SshChannel.Always` | ssh/session.go:57-211 | the channel invariant holds in every state of every interleaving of request loop and forwarder |
| `SshChannel.OneSessionPerChannel` | ssh/session.go:136-151 | at most one session is begun per channel; a later request changes nothing |
| `SshChannel.OpenRequestIsFrozen` | ssh/session.go:154-174 | hint and snapshot are read under separate locks but both are those of the request data when begin won; what that data is, the next row says |
| `SshChannel.OpenRequestFromEvents` | ssh/session.go:65-174 | told by the login and the events alone: the hint is that of the login, else the last GATEWAY_ENV set before the first begin, else empty; every other variable is as last set before it; the terminal is the one last asked for before it; and quiet says whether that begin was a subsystem |
| `SshChannel.SizeFromEvents` | ssh/session.go:65-102 | the stored size is that of the last window change, or pty request before the session began, each dimension at most 65535 |
| `SshChannel.SnapshotSize` | ssh/session.go:154-165 | the size in the snapshot is the one last reported when the snapshot was taken |
| `SshChannel.TeardownReleasesExactly` | ssh/forward.go:161-187 | after teardown the connection was closed once and the record released once if setConn came before the snapshot of teardown, and neither happened otherwise |
| `SshChannel.ReleasedAtMostOnce` | ssh/forward.go:161-187 | in every state: done closed at most once, the connection closed at most once, and released only after that and at most once |
| `SshChannel.CancelledExactly` | ssh/forward.go:161-187 | the session context is cancelled by teardown alone, before it closes or waits for anything |
| `SshChannel.LateConnectionIsLeftOpen` | ssh/forward.go:162-187 | a connection registered after the snapshot is never closed or released by teardown |
| `SshChannel.LateConnectionLeaks` | ssh/forward.go:162-187 | a run that ends with teardown over, the forwarder gone, and the connection neither closed nor released |
| `SshChannel.NewestSizeDeliveredExactly` | ssh/session.go:176-202 | with a connection and no delivery under way, the newest visible size has been delivered if and only if setConn did not find a hidden size stored after it |
| `SshChannel.HiddenSizeSkips` | ssh/session.go:176-183 | a run in which the client reported 24 by 80 and no size is ever sent |
| `SshChannel.NewestSizeInForceExactly` | ssh/session.go:176-202 | with a connection and no size on its way, the last size sent is the newest visible one if and only if the size setConn had read was not sent after a newer one, or a visible size was reported since |
| `SshChannel.OvertakenMeans` | ssh/session.go:176-184 | overtaken, told step by step, means that setConn sent an older size at some step and nothing was reported since |
| `SshChannel.OlderSizeCanWin` | ssh/session.go:176-183 | a run in which the last size delivered is not the newest |
| `SshConfig.ConfigFile.Write` | cli/sshconfig.go:152-160 | a text of nothing but white space is written empty, any other as it is |
| `SshConfig.ConfigFile.Splice` | cli/sshconfig.go:103-116 | a block found between its markers is replaced, one newline behind it included; the outcome is unchanged, removed or updated accordingly |
| `SshConfig.ConfigFile.Append` | cli/sshconfig.go:125-132 | a new block is set apart from the text by a finished line and a blank one |
| `SshConfig.ConfigFile.Patch` | cli/sshconfig.go:93-134 | the file after patching is the patched text; refusing or finding nothing to remove leaves it alone; and when each of the six outcomes is reported |
| `SshConfig.LocatedExactly` | cli/sshconfig.go:100-108 | a well-formed block is found with exactly the text around it, however that text ends or starts, if and only if no marker stands before it |
| `SshConfig.ReplaceInPlace` | cli/sshconfig.go:103-116 | replacing a block keeps everything before and after it byte for byte, wherever the text before it ends; before it stands no marker |
| `SshConfig.LocatedUnfinishedExactly` | cli/sshconfig.go:104-108 | the same for a block without its final newline, at the end of the file or before other text |
| `SshConfig.ReplaceUnfinished` | cli/sshconfig.go:103-116 | replacing a block that has lost its final newline keeps everything around it as well |
| `SshConfig.WriteThenPatch` | cli/sshconfig.go:93-134 | patching after a write acts as if only the second patch had seen the padded text |
| `SshConfig.WriteTwice` | cli/sshconfig.go:93-134 | writing twice is writing once |
| `SshConfig.LastWriteWins` | cli/sshconfig.go:93-134 | the last of two writes wins |
| `SshConfig.RemoveUndoesWriteExactly` | cli/sshconfig.go:93-134 | for a text without a block and without the alias, removing after writing gives the padded text back if and only if the text holds neither marker |
| `SshConfig.StrayEndSticks` | cli/sshconfig.go:100-103 | with a stray end marker the new block cannot be removed again |
| `SshConfig.StrayBeginSwallows` | cli/sshconfig.go:100-108 | with a stray begin marker removal also drops the text between it and the block |
| `SshConfig.RenderedBlockWellFormed` | cli/sshconfig.go:23-34 | the rendered block holds its markers at its two ends only, if and only if host, hostname and port do not hold the end marker |
| `SshConfig.BlockLines` | cli/sshconfig.go:23-34 | for values of one line the rendered block is these lines: host, hostname, port and user each on its own |
| `SshConfig.BlockDirectives` | cli/sshconfig.go:23-34 | what ssh reads in the rendered block, for values that are words: Host, HostName, Port, User and StrictHostKeyChecking with their values, each once, in that order, and nothing else |
| `SshConfig.InstalledDirectives` | cli/sshconfig.go:93-134 | what ssh reads in the whole file after an install: these five behind all it read before, or in place of the block that was there |
| `SshConfig.AliasAnywhere` | cli/sshconfig.go:137-150 | a line declares an alias if and only if its first word is host in any case and the alias is one of the words behind it |
| `SshConfig.AppendedAfterBlankLine` | cli/sshconfig.go:125-159 | the file after a block was appended, spelled out for an empty file, one that ends in a newline, any other, and one of white space alone |
| `SshConfig.WrittenAliasIsFound` | cli/sshconfig.go:93-150 | after patching in a rendered block the alias is declared, whether the block was replaced, appended or refused |
| `SshConfig.PadEntries` | cli/sshconfig.go:125-150 | padding declares no alias |
| `SshConfig.RoundIsNeutralExactly` | cli/sshconfig.go:93-134 | for a text the tool has not touched, writing and removing gives exactly that text back if and only if it is empty |
| `SshConfig.EachRoundAddsOneLine` | cli/sshconfig.go:93-134 | every round of writing and removing adds exactly one blank line and changes nothing else |
| `Lines.SplitJoin` | cli/sshconfig.go:138 | splitting into lines loses nothing and leaves no newline in a line |
| `Lines.TrimSpaceParts` | cli/sshconfig.go:156 | trimming keeps one contiguous piece and drops only white space |
| `Lines.SpaceIs` | cli/sshconfig.go:140 | the twenty-five characters that count as white space |
| `Lines.FieldsParts` | cli/sshconfig.go:140 | fields are the words of a text, all of them and in order, with nothing but white space between |
| `HostKeys.HostKeyStore.ReadPins` | providers/github/keys.go:146-167 | load reads the pins the text stands for, later lines overriding earlier ones |
| `HostKeys.HostKeyStore.Check` | providers/github/keys.go:112-144 | accept or reject by policy and pin; the file changes only by the line of a new pin |
| `HostKeys.CheckDecides` | providers/github/keys.go:112-144 | a key is accepted if and only if the policy is insecure, or it is the pinned key, or none is pinned and the first is trusted; only in the last case one line is written behind the text |
| `HostKeys.HostKeyStore.Forget` | providers/github/keys.go:183-206 | afterwards the file loads to the map without the forgotten names, and the count is right; an empty rest removes the file |
| `HostKeys.ForgetDecides` | providers/github/keys.go:183-206 | forgetting one name removes that pin alone and reports one or none; the empty name removes and counts all |
| `HostKeys.Rewrite` | providers/github/keys.go:190-198 | the rewritten text loads to exactly the kept pins, in whatever order the map is visited |
| `HostKeys.WholeFileIsGood` | providers/github/keys.go:155-166 | whatever text the file holds, every pin loaded from it can be written back |
| `HostKeys.AppendPin` | providers/github/keys.go:169-180 | appending a well-formed pin to whole lines adds exactly that pin |
| `HostKeys.AppendRecordsPinExactly` | providers/github/keys.go:146-180 | for any text, appending a new pin adds exactly that pin if and only if nothing but white space follows the last newline |
| `HostKeys.StepFrame` | providers/github/keys.go:112-206 | a check touches no pin but its own, a Forget only those it covers; only a check under trust on first use needs a file to append to |
| `HostKeys.PinStands` | providers/github/keys.go:112-206 | over any run a pin stands until a Forget covering it |
| `HostKeys.AcceptedKeysAgree` | providers/github/keys.go:112-206 | all keys accepted for a codespace between two Forgets covering it are equal, under strict for any file, under trust on first use for one with nothing but white space after its last newline |
| `HostKeys.UnfinishedLineAcceptsTwoKeys` | providers/github/keys.go:128-180 | from every other file trust on first use can accept two different keys for the same name |
| `HostKeys.StrictNeverPins` | providers/github/keys.go:135-137 | over any run under the strict policy, from any file, no pin appears or changes |
| `HostKeys.AcceptedIsPinned` | providers/github/keys.go:128-144 | unless the policy is insecure, an accepted key is the pinned one afterwards if and only if the name was pinned already or nothing but white space follows the last newline of the file |
| `Redactor.Redactor.Has` | core/logging/redact.go:39-46 | whether a secret is registered |
| `Redactor.Redactor.Add` | core/logging/redact.go:22-37 | the registry after adding any list of secrets |
| `Redactor.RegisteredIsRegistry` | core/logging/redact.go:22-37 | adding keeps the registry free of duplicates and in order, and adds exactly the offered secrets of at least eight bytes |
| `Redactor.RegisteredInOrder` | core/logging/redact.go:22-37 | one more secret offered is put at the end, unless it is shorter than eight bytes or known |
| `Redactor.Redactor.Redact` | core/logging/redact.go:49-61 | the loop over the registered secrets, one replacement after the other |
| `Redactor.NoStraddle` | core/logging/redact.go:57 | a secret that cannot fuse with the placeholder never straddles one |
| `Redactor.ReplaceIsClean` | core/logging/redact.go:55-59 | replacing one secret leaves none of it and creates no other |
| `Redactor.PassCreatesNothing` | core/logging/redact.go:55-59 | a whole pass creates no secret the text did not hold |
| `Redactor.OutputHoldsNoSecret` | core/logging/redact.go:49-61 | a registered secret the placeholder cannot fuse with is in no output, whatever the text, the other secrets and their order |
| `Redactor.SecretIsKeptExactly` | core/logging/redact.go:12-61 | a secret is kept out of every output of every registry if and only if it neither starts nor ends with a star nor contains three in a row |
| `Redactor.ReplaceAcross` | core/logging/redact.go:57 | replacing a secret works on both sides of a placeholder separately |
| `Redactor.RedactHidesOnlySecrets` | core/logging/redact.go:49-61 | nothing else is lost: the text can be cut so that all that is shown stays in place and every three stars stand for one occurrence of a registered secret |
| `Redactor.CleanTextUnchanged` | core/logging/redact.go:55-60 | text without a registered secret is unchanged |
| `Redactor.RedactIdempotent` | core/logging/redact.go:49-61 | redacting twice is redacting once |
| `Redactor.StarFreeSecretsNeverLeak` | core/logging/redact.go:12-61 | both hold whenever no registered secret contains a star |
| `Redactor.LoneSecretLeaksExactly` | core/logging/redact.go:12-61 | a secret registered alone leaks for some text if and only if it starts or ends with a star or contains three in a row |
| `Redactor.LoneSecretSettlesExactly` | core/logging/redact.go:49-61 | with one secret registered, redacting twice is redacting once for every text if and only if that secret cannot leak |
| `Substrings.Index` | core/logging/redact.go:56 | the leftmost occurrence, or -1 exactly when there is none |
| `YamlPatch.MappingValue` | core/config/write.go:166-173 | the value of the first pair with the key, found by the loop over pairs |
| `YamlPatch.AppendMapping` | core/config/write.go:175-180 | one key and one value more at the end of the content of a node, in place |
| `YamlPatch.ToMapping` | core/config/write.go:141-143 | a child that is no mapping is emptied into one in place; the rest of the tree is as before |
| `YamlPatch.Overwrite` | core/config/write.go:149 | a node becomes a fresh scalar in place; the rest of the tree is as before |
| `YamlPatch.StepDown` | core/config/write.go:135-144 | one turn of the loop: the child is there and a mapping, and the work left below it is the work left |
| `YamlPatch.Walk` | core/config/write.go:134-145 | the loop over all keys but the last |
| `YamlPatch.SetScalar` | core/config/write.go:147-152 | the last key is overwritten or appended |
| `YamlPatch.Patch` | core/config/write.go:106-152 | on the linked nodes: refused for an empty path or a top level that is no mapping, otherwise the tree afterwards is the patched tree |
| `YamlPatch.LookupPatched` | core/config/write.go:106-152 | the patched path looks up to a scalar with the given tag and value, plain style and no children |
| `YamlPatch.LookupElsewhere` | core/config/write.go:106-152 | every path that is neither a prefix nor an extension looks up as before, even below an intermediate that had to become a mapping |
| `YamlPatch.PatchTwice` | core/config/write.go:106-152 | the last of two patches to a path decides |
| `YamlPatch.PatchSame` | core/config/write.go:147-149 | writing the scalar that is there changes nothing |
| `YamlPatch.KeyOrderKept` | core/config/write.go:134-152 | in every mapping on the way existing keys keep their order and at most the next key of the path is added at the end |
| `YamlPatch.OldMappings` | core/config/write.go:134-152 | a mapping on the way that was there keeps all its content, but for the value under the next key, or that key, as a string scalar, and its value at the end |
| `YamlPatch.NewMappings` | core/config/write.go:136-143 | one that was missing, or was no mapping, is a mapping with the next key and its value alone; of what stood there only the style is left |
| `YamlRedact.RedactNode` | core/config/redact.go:57-77 | on the linked nodes: afterwards it is the redacted tree, no node added or moved |
| `YamlRedact.RedactItem` | core/config/redact.go:62-65 | an item of a document or sequence is visited with the sensitivity of its parent |
| `YamlRedact.RedactPair` | core/config/redact.go:67-70 | a value is visited with the sensitivity of its key or of its parent; the key is left alone; which keys are sensitive is stated by YamlRedact.PairIsRedacted |
| `YamlRedact.RedactScalar` | core/config/redact.go:71-75 | a scalar changes exactly if it is a non-empty string below a sensitive key |
| `YamlRedact.RedactionHidesExactly` | core/config/redact.go:55-77 | two trees redact to the same tree if and only if they differ only in what their credentials hold; what a credential is, YamlRedact.PairIsRedacted says |
| `YamlRedact.RedactionTouchesOnlySecrets` | core/config/redact.go:55-77 | a redacted tree differs from the original only in its credentials, and redacting again changes nothing |
| `YamlRedact.RedactedIsMasked` | core/config/redact.go:71-75 | every scalar that could be a credential, in the sense of YamlRedact.PairIsRedacted, holds the placeholder afterwards |
| `YamlRedact.PairIsRedacted` | core/config/redact.go:15-28 | a value is redacted below a sensitive parent or when its key, in lower case, holds one of the six words and ends in none of the six suffixes; a non-empty string scalar then reads ***redacted***, and otherwise stays as it is |
| `YamlRedact.InnerNodeIsRedacted` | core/config/redact.go:57-70 | nodes that are no scalars keep their own fields; documents and sequences pass their sensitivity on; keys and the children of anything else stay |
| `YamlRedact.CaseIsNoMatter` | core/config/redact.go:17-18 | keys equal up to the case of ASCII letters are treated alike |
| `TerminalModes.Parse` | providers/github/connection.go:77-96 | the loop reads the table of all pairs before opcode 0 or the last incomplete pair, and when there is none: echo on and both speeds 14400 |
| `TerminalModes.EncodedIsReadBack` | providers/github/connection.go:74-87 | an encoded list of modes is read back as it was, whatever follows its terminator, or with an incomplete pair behind it |
| `TerminalModes.ScanReadsAll` | providers/github/connection.go:79-87 | every input is the encoding of the modes read from it, none with opcode 0, followed by an incomplete pair or opcode 0 |
| `TerminalModes.TableHoldsLast` | providers/github/connection.go:85 | the table has exactly the opcodes read, each with the argument read last |
| `TerminalModes.BytesReadBack` | providers/github/connection.go:84 | an argument is its four bytes, the most significant first, and is encoded to these bytes again |

## Left out

- Ensure's contract speaks of a run that is alone with the environment's state; other goroutines may change phase, counters and last error between its steps. The single-flight transition system does not model phases.
- Ensure.Run.Ensure: does not model the error texts, the last state named in a timeout, log lines, or `observe` and the native state; error values are reduced to what errors.Is and IsTemporary tell of them.
- Progress notifiers (addNotifier, removeNotifier, notify) and their tokens: callbacks run outside the lock, so nothing is claimed about when they are called.
- The budget of an operation's context and the separate start, create and connect timeouts: one count of ticks stands for all of them.
- Connect.Manager.Connect: the Ensure calls inside it are oracles and do not change the phase in this model.
- The phases and the timeout of an operator stop: in `Sessions` it is one step that calls Provider.Stop.
- ResolveEnvironment and validEnvironmentName: they decide a handle before any state is touched.
- Session hooks (onFirst, onLast), session info, kinds and start times; `List`.
- Sessions.Always: runs are shorter than 2^64 opens, so that the sequence number does not wrap.
- Redactor.RedactHidesOnlySecrets: stated when no secret but the first registered can fuse with the placeholder; a later one that can may swallow an earlier placeholder together with the text beside it.
- Redactor.Redactor.Redact: text is a sequence of bytes; the reader-writer lock is not modelled.
- pump, notify, fail and sendExit: copying streams, messages to the user, and the exit code of 255 for a negative one.
- Signals and malformed requests on a channel: they change no field of sessionState, and stand for `OtherRequest`.
- In `SshChannel`, sizes sent are those of conn.Resize. The size that travels in the open request (ssh/forward.go:27-31) is part of the snapshot, not of what was sent.
- The five-second limit of teardown is a step that is always possible: `TeardownWaits` may be taken whether or not `done` is closed.
- Files are sequences of Unicode characters, or absent: I/O errors, permissions, atomic replacement, crashes and invalid UTF-8 are not modelled.
- SshConfig.ConfigFile.Patch: the message for the user is reduced to which of the six outcomes it is.
- HostKeys.AcceptedKeysAgree: under trust on first use names and keys are well-formed (a name without white space in front, `#` in front, spaces or newlines; a key of one line), as the provider and the SSH library make them.
- A host key is an opaque line of text; fingerprints and constant-time comparison are not modelled.
- YAML parsing and encoding, the document node around the top-level mapping (an empty document included), comments, aliases and anchors. `YamlPatch.Patch` starts at the top-level node.
- YAML trees are alias-free: no node is shared.
- Lower-casing of a key is modelled as far as it can produce ASCII letters.
- Fairness and wall-clock time: nothing is proved about what happens eventually, except that loops end within their ticks.
- Command line, prompts, setup, doctor, status rendering, REST client, process handling and cryptography.
