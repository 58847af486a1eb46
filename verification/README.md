# Verified models of the typeclaw operator's protocols

This project models the parts of the repository whose correctness rests on
interleavings, crashes or arithmetic, and proves what they promise over every
run, every history or every input.

* **Desktop control.** `ControlSpec` gives one function for each region the
  control registry runs under its mutex; `ControlRegistry` is the registry as a
  class whose methods are proved equal to those functions and to keep the
  protocol's invariant; `ControlRuns` lets
  any number of callers be suspended between their regions (takeover waiters,
  half-done agent releases, expire loops, power requests) and proves what every
  step keeps; `ControlTheorems` states the safety results over whole runs and
  `ControlDecisions` what each caller gets, exactly. `Power` adds the
  classification of power dispatches.
* **The computer-use plugin on top of it.** `Plugin` composes the plugin's
  serialized operations, local leases and one-shot observations with the
  registry and with Gateway restarts. The plugin starts fresh, but against any
  Gateway that can have been reached: an earlier plugin may have left an agent
  lease there. `ComputerUse` is the plugin's state as a class proved against it;
  `PluginTheorems` proves end-to-end freshness and one-shot use of observations;
  `PluginAdoption` proves that an acquire never takes over another session's
  lease, and whose lease a batch runs under; `PluginForeign` is the history in
  which it is nobody's; `PluginDecisions` says exactly what each operation decides,
  and that a batch goes to the machine it was observed on.
* **One-shot credential tickets.** `CredentialPolicy` and `CredentialSpec` model
  authorization and one reconcile over a store whose writes may fail, be lost or
  be cut off by a crash; `Credential` is the reconciler as a class;
  `CredentialRuns` proves the protocol over every run, `CredentialDecisions` what a
  reconcile does with every request.
* **Managed rollouts.** `Versions` models tag order and candidate choice,
  `RolloutSpec` one reconcile, `Rollout` the controller as a class and its runs,
  `RolloutDecisions` when a rollout begins and how it goes on.
* **Kernels.** `Screenshot` (fit loop and resampler), `GuestBatch`,
  `WindowsInput` and `Png` (guest agent), `RelaySpool` (restart relay).
  `Options`, `Text`, `Numerals` and `Rounding` hold what several of them share.

Every class method is proved against a function of the old state, and the
theorems are about those functions, so they speak about the methods. The
methods also keep the invariants the theorems rest on. Safety theorems say what
never happens; the members named `…Exactly` say what does, by conditions a
reader can check without the model's own functions.

Eight results deserve a word, because the code alone does not show them.

* `takeoverReservation` is an empty struct, so Go may make two
  reservations equal. `PresenceDecidesReservation` proves that the
  comparison after the drain window gives the same answer either way.
* A power request that finishes is always the operation in flight, so the early
  return for a stale operation cannot be taken and every finished request enters
  the history that decides the quarantine (`FinishAlwaysCounts`).
* `desktop_act` looks at its observation, not at what its local lease
  established. After an acquire that failed before it learned anything, a queued
  batch can be accepted under an agent lease that was granted to no session of
  this plugin (`AcceptedUnderForeignLease`). With the local lease's established
  boot and generation equal to the frame's, the lease was granted to the acting
  session and held ever since (`OwnGrantMeansOwnLease`); and where some session
  recorded the grant, the acting session was granted it if and only if it is that
  one (`GranteeDecides`).
* The rollout's configured minutes and hours are 32-bit numbers without an upper
  bound and are multiplied into a 64-bit duration. The confirmation window is as
  configured exactly up to 153722867 minutes (`WindowIsAsConfigured`); one minute
  more and the first ready observation confirms at once
  (`OverflowConfirmsAtOnce`), as it does for exactly the settings in seven
  intervals (`ConfirmsAtOnceIff`). The backup gate follows its setting exactly up to
  2562047 hours (`BackupGateIsAsConfigured`).
* The API documentation (`api/v1alpha1/typeclawinstance_types.go:148-151`) lets
  the confirmation timeout bound the time to a rollback. In the code the window
  opens only at the first readiness, and the model follows the code: a release
  that is never seen ready is never rolled back (`WaitsForReadiness`).
* The restart relay treats every failure to look up a consumed marker as "not
  consumed". Deduplication holds in a run if and only if no consume of a marked
  request meets such a failure (`DedupeExactly`); `MissedMarkerRepeats` is the
  run in which the Pod is deleted again.
* The restart relay removes or renames whatever the path holds by then, not what
  it read. Every valid drop is answered by a confirmed delete if and only if no
  consume takes away a valid drop written over the one it had read
  (`NeverLostExactly`); `ReplacedDropIsLost` is the run in which one is lost.
* Windows absolute coordinates tell neighbouring pixels apart exactly on screens
  of at most 65536 pixels a side (`SeparatesPixelsIff`).

## Model

| member | source | states |
|---|---|---|
| ControlRegistry.Registry.constructor | internal/desktopgateway/control.go:66-74 | a new registry is empty |
| ControlRegistry.Registry.GrantLocked | internal/desktopgateway/control.go:153-165 | installs a lease under the next generation and nothing else |
| ControlRegistry.Registry.AcquireUntilWait | internal/desktopgateway/control.go:78-114 | the locked region before the drain window: grants, refuses with the right error, or, for a human who asks to take over from an agent, cancels the agent and reserves |
| ControlRegistry.Registry.AcquireAfterWait | internal/desktopgateway/control.go:129-150 | the locked region after the drain window, with reservations compared by identity or only by presence |
| ControlRegistry.Registry.AcquireForAgent | internal/desktopgateway/control.go:171-187 | an agent is granted only a free, unblocked, unreserved desktop before shutdown |
| ControlRegistry.Registry.TouchAgentLease | internal/desktopgateway/control.go:216-222 | refreshes exactly an agent's HTTP lease |
| ControlRegistry.Registry.AgentLeaseToRelease | internal/desktopgateway/control.go:226-234 | finds the active lease exactly when an agent holds it |
| ControlRegistry.Registry.ReleaseLease | internal/desktopgateway/control.go:334-340 | forgets the lease only if it is still the active one |
| ControlRegistry.Registry.CloseLease | internal/desktopgateway/control.go:41-43 | signals done on that lease only |
| ControlRegistry.Registry.BeginPowerOperation | internal/desktopgateway/control.go:241-263 | refuses under shutdown, control, reservation, another operation or quarantine; otherwise blocks and remembers the earlier block |
| ControlRegistry.Registry.FinishPowerOperation | internal/desktopgateway/control.go:269-294 | ends exactly the operation in flight and sets the block from its outcome; never unblocks under shutdown |
| ControlRegistry.CancelHeld | internal/desktopgateway/control.go:299-323 | the loop over held desktops cancels exactly the active leases, in whatever order the map yields them |
| ControlRegistry.Registry.DropReservations | internal/desktopgateway/control.go:299-323 | every reserved desktop ends blocked and no reservation is left |
| ControlRegistry.Registry.BlockPowered | internal/desktopgateway/control.go:299-323 | every desktop with an operation in flight ends blocked |
| ControlRegistry.Registry.RevokeEverything | internal/desktopgateway/control.go:299-323 | shutdown blocks everything held, reserved or powered, and cancels every active lease |
| ControlRegistry.Registry.ReadStatus | internal/desktopgateway/control.go:343-351 | actor and generation of the active lease, else the last generation granted |
| ControlRuns.RegStep | internal/desktopgateway/control.go:78-341 | every step of every caller keeps the registry's invariant, moves generations and leases only forward, and disturbs no drain window but its own |
| ControlRuns.PcStable | internal/desktopgateway/control.go:103-150 | what a suspended caller relies on survives any step of the others |
| ControlRuns.ThreadsStep | internal/desktopgateway/control.go:78-341 | every suspended caller's facts, and one waiter per desktop, survive every step |
| ControlRuns.QuarantineStep | internal/desktopgateway/control.go:241-294 | the block flag keeps matching the history of finished operations |
| ControlTheorems.InvAlways | internal/desktopgateway/control.go:78-341 | the invariant holds in every reachable state of every interleaving |
| ControlTheorems.EvolvesAlways | internal/desktopgateway/control.go:153-165 | over any stretch of a run leases keep their identity, inactive leases stay inactive and generations never fall |
| ControlTheorems.GrantNeedsFree | internal/desktopgateway/control.go:78-187 | a step that grants finds the desktop free, unblocked, before shutdown, and unreserved except by its own caller |
| ControlTheorems.ControlExclusion | internal/desktopgateway/control.go:241-294 | power in flight implies blocked, no lease and no reservation; blocked before shutdown implies no lease and no reservation |
| ControlTheorems.LeasesNeverOverlap | internal/desktopgateway/control.go:78-187 | between two grants of a desktop the earlier lease has left the registry, and where |
| ControlTheorems.HumanLeaseLeavesByItsHolder | internal/desktopgateway/control.go:189-236 | a human's lease leaves only through the release by its own holder, even with an agent release interrupted in the middle |
| ControlTheorems.HumanLeaseCancelled | internal/desktopgateway/control.go:103-114 | a human's lease is cancelled only by its holder's context or by shutdown, never by a takeover |
| ControlTheorems.CancelledBy | internal/desktopgateway/control.go:103-114 | whatever lease is cancelled: by shutdown, by its own context, or an agent's by a human who asked to take over |
| ControlTheorems.TakeoverWindow | internal/desktopgateway/control.go:103-150 | at most one caller per desktop is in the drain window, and nobody is granted the desktop while it lasts |
| ControlTheorems.PresenceDecidesReservation | internal/desktopgateway/control.go:129-135 | comparing reservations by presence alone gives the same result as by identity, for every waiting caller |
| ControlTheorems.TakeoverSucceeds | internal/desktopgateway/control.go:129-150 | incumbent done, reservation there, context live: the caller gets the lease; the later blocked and busy tests cannot fire |
| ControlTheorems.ShutdownIsFinal | internal/desktopgateway/control.go:299-323 | after shutdown began no run grants a lease, begins a power operation or unblocks a desktop |
| ControlTheorems.QuarantineIsHistory | internal/desktopgateway/control.go:269-294 | outside an operation and before shutdown, blocked equals the fold over the finished operations |
| ControlTheorems.QuarantineHoldsUntilStart | internal/desktopgateway/control.go:241-294 | once quarantined, no lease is granted and no stop begins until a start succeeds |
| ControlTheorems.UnknownQuarantines | internal/desktopgateway/control.go:269-294 | every operation that ends unknown quarantines its desktop |
| ControlTheorems.UnknownHoldsUntilStart | internal/desktopgateway/control.go:241-294 | after an unknown outcome nothing is granted and no stop begins until a start succeeds |
| ControlTheorems.FinishAlwaysCounts | internal/desktopgateway/control.go:269-275 | over every run a finishing request is the operation in flight and enters the history; the return for a stale operation is unreachable |
| ControlTheorems.OnePowerRequest | internal/desktopgateway/control.go:241-263 | on each desktop at most one power request is suspended, and it is the operation in flight |
| ControlDecisions.AcquireExactly | internal/desktopgateway/control.go:78-114 | over every run an acquire is granted exactly on an open, free desktop, enters the drain window exactly when a live human asks to take over from an agent on an open one, and else changes nothing |
| ControlDecisions.TakeoverOnlyWhenAsked | internal/desktopgateway/control.go:103-114 | over every run a lease is cancelled only by shutdown, its own context, or a takeover that a live human asked for |
| ControlDecisions.ReservedOnlyWhenAsked | internal/desktopgateway/control.go:103-114 | over every run a desktop is reserved only by such a takeover |
| ControlDecisions.WindowEndsExactly | internal/desktopgateway/control.go:116-150 | a drain window ends with the lease exactly when the incumbent signalled done, the reservation is there and the context lives; else only the reservation goes |
| ControlDecisions.AgentAcquireExactly | internal/desktopgateway/control.go:171-187 | an agent gets a lease exactly on an open, free desktop |
| ControlDecisions.AcquireReasons | internal/desktopgateway/control.go:78-108 | which error a refused acquire gets |
| ControlDecisions.WaitReasons | internal/desktopgateway/control.go:116-150 | which error a refused waiter gets, and that it is granted otherwise |
| ControlDecisions.ReleaseExactly | internal/desktopgateway/control.go:334-341 | a release frees its desktop exactly if its lease still holds it, and touches nothing else |
| ControlDecisions.AgentReleaseExactly | internal/desktopgateway/control.go:226-236 | an agent release goes on exactly when an agent holds the desktop, with that lease |
| ControlDecisions.DoneWakesTheWaiter | internal/desktopgateway/control.go:41-43 | the done signal of a lease lets whoever waits for it go on |
| ControlDecisions.TouchStamps | internal/desktopgateway/control.go:216-222 | a touch stamps the agent's HTTP lease with the present |
| ControlDecisions.OutlivesItsTtl | internal/desktopgateway/control.go:189-222 | a lease granted or touched and not cancelled expires only after more than its ttl |
| ControlDecisions.IdleLeaseExpires | internal/desktopgateway/control.go:189-211 | idle for longer than its ttl a lease may expire, and then no longer holds its desktop |
| ControlDecisions.PowerBeginsExactly | internal/desktopgateway/control.go:241-263 | a power operation begins exactly without control, reservation, another operation or shutdown, and a stop only outside quarantine |
| ControlDecisions.PowerReasons | internal/desktopgateway/control.go:241-256 | which error a refused power request gets |
| ControlDecisions.ShutdownRevokes | internal/desktopgateway/control.go:299-323 | shutdown cancels exactly the leases in force and blocks exactly what was blocked, held, reserved or powered |
| ControlDecisions.GenerationCounts | internal/desktopgateway/control.go:153-165 | a desktop's generation is the number of leases ever granted on it |
| ControlDecisions.StatusExactly | internal/desktopgateway/control.go:343-351 | the status reports the holder and that number |
| Power.UnblockedOnlyOnEvidence | internal/desktopgateway/power.go:140-230 | control comes back after a dispatch exactly on an accepted or visibly effective start, or on a definitive refusal of a desktop that was free before |
| Power.DispatchExactly | internal/desktopgateway/power.go:140-252 | a dispatch succeeded exactly if accepted or in conflict with a machine seen settled as asked, is rejected exactly on a reason that proves it never ran, and is unknown otherwise |
| Power.RejectionStatusExactly | internal/desktopgateway/power.go:261-274 | which status tells which reason |
| Power.RejectionIsUnambiguous | internal/desktopgateway/power.go:237-274 | every outcome classified as rejected is answered with a status the plugin reads as "did not happen" |
| Plugin.ContinuedEffects | extensions/personal-desktop-computer-use/index.ts:596-702 | all that an operation's code between two replies can do: which observations, local leases and power flag it may change, and under which answers it posts input or an acquire |
| Plugin.AgentOnlySame | internal/desktopgateway/gateway.go:351-378 | outside the agent's own acquire no Gateway step puts another agent lease in control |
| Plugin.WorldStep | extensions/personal-desktop-computer-use/index.ts:228-250 | every event keeps the joint invariant of plugin and Gateway |
| ComputerUse.ComputerUsePlugin.constructor | extensions/personal-desktop-computer-use/index.ts:399-402 | the plugin starts with nothing queued, observed, reserved or uncertain |
| ComputerUse.ComputerUsePlugin.Enqueue | extensions/personal-desktop-computer-use/index.ts:233-249 | a call already aborted changes nothing; any other operation joins the chain behind every earlier one |
| ComputerUse.ComputerUsePlugin.BeginTurn | extensions/personal-desktop-computer-use/index.ts:238-241 | when its turn comes an aborted operation, or one whose lease or power tests fail, settles; any other one starts |
| ComputerUse.ComputerUsePlugin.InvalidateAllObservations | extensions/personal-desktop-computer-use/index.ts:431-433 | the loop leaves no session with an observation |
| ComputerUse.ComputerUsePlugin.ActAfterStatus | extensions/personal-desktop-computer-use/index.ts:1221-1262 | dispatches exactly when control, observation and every coordinate pass; a stale observation drops them all |
| ComputerUse.ComputerUsePlugin.ObserveAfterFrame | extensions/personal-desktop-computer-use/index.ts:1115-1150 | stores the frame under its own id, or forgets the session's observation when delivery fails |
| ComputerUse.ComputerUsePlugin.AfterInput | extensions/personal-desktop-computer-use/index.ts:1271-1302 | an input request that is answered, or fails on its way or at the Gateway, drops every observation |
| ComputerUse.ComputerUsePlugin.AcquireAfterStatus | extensions/personal-desktop-computer-use/index.ts:613-653 | posts an acquire only to a free, unblocked desktop; an agent it did not establish makes it quarantine its lease |
| ComputerUse.ComputerUsePlugin.AcquireAfterSecond | extensions/personal-desktop-computer-use/index.ts:637-651 | keeps an agent in control only under the boot and generation its lease was granted, else quarantines |
| ComputerUse.ComputerUsePlugin.AcquireAnswered | extensions/personal-desktop-computer-use/index.ts:654-697 | a granted acquire records the lease it was given |
| ComputerUse.ComputerUsePlugin.AcquireFailed | extensions/personal-desktop-computer-use/index.ts:677-686 | a failed acquire drops every observation, and only an ambiguous one goes on to clean up |
| ComputerUse.ComputerUsePlugin.AcquireRecovered | extensions/personal-desktop-computer-use/index.ts:686-700 | a cleanup that is not confirmed quarantines the local lease |
| ComputerUse.ComputerUsePlugin.AfterPower | extensions/personal-desktop-computer-use/index.ts:780-815 | once a request was sent every observation goes; an unknown outcome makes power uncertain, only a successful start clears it |
| ComputerUse.ComputerUsePlugin.ReadReply | extensions/personal-desktop-computer-use/index.ts:794-812 | a declared unknown outcome, an ambiguous status and a transport error are unknown, any other error is a rejection |
| ComputerUse.PluginReadsOutcome | internal/desktopgateway/power.go:52-134 | when the Gateway's answer arrives, plugin and Gateway agree whether the operation is done, not done or unknown |
| ComputerUse.ComputerUsePlugin.ReserveLocalControl | extensions/personal-desktop-computer-use/index.ts:452-477 | a session gets a lease exactly when it may then invoke an acquire with it |
| ComputerUse.ComputerUsePlugin.ReleaseLocalControl | extensions/personal-desktop-computer-use/index.ts:493-495 | only the current lease is dropped |
| ComputerUse.ComputerUsePlugin.QuarantineLocalControl | extensions/personal-desktop-computer-use/index.ts:497-506 | a quarantined current lease is closing and orphaned, and no observation is left |
| ComputerUse.ComputerUsePlugin.BeginLocalControlClose | extensions/personal-desktop-computer-use/index.ts:531-541 | exactly the holding session, not yet closing, may close |
| ComputerUse.ComputerUsePlugin.RenewLocalControl | extensions/personal-desktop-computer-use/index.ts:543-555 | a failed close gives the session a fresh lease with the same established controller |
| PluginTheorems.OneAtATimeInOrder | extensions/personal-desktop-computer-use/index.ts:228-250 | over any history operations run one at a time and in the order invoked |
| PluginTheorems.FailureDoesNotBlock | extensions/personal-desktop-computer-use/index.ts:242-248 | a queued operation gets its turn exactly when every earlier one has settled |
| PluginTheorems.SettlingHandsOn | extensions/personal-desktop-computer-use/index.ts:242-248 | an operation that settles, by a reply or by a failure, hands its turn to the next one |
| PluginTheorems.FailureSettles | extensions/personal-desktop-computer-use/index.ts:238-248 | a failure settles its operation, or leaves only an acquire's own recovery to do |
| PluginTheorems.TracedAlways | internal/desktopgateway/gateway.go:337-338 | every frame the plugin holds or acts on was stamped by the Gateway at an earlier event |
| PluginTheorems.HeldThroughout | internal/desktopgateway/control.go:153-165 | an agent in control under the generation stamped earlier, on the same boot, held it all the way |
| PluginTheorems.AcceptedBatchIsFresh | extensions/personal-desktop-computer-use/index.ts:1221-1303 | every batch the Gateway's lease check accepts was built on a frame the same session observed, and runs under the same agent lease, held without a break since that frame was stamped, with no lease granted in between, every coordinate inside that frame and power certain |
| PluginTheorems.ObservationDispatchedOnce | extensions/personal-desktop-computer-use/index.ts:704-716 | over any history an observation id is dispatched in at most one batch |
| PluginTheorems.NothingDispatchedWhileUncertain | extensions/personal-desktop-computer-use/index.ts:596-611 | no input is under way while a power outcome is uncertain |
| PluginAdoption.KnownWasGranted | extensions/personal-desktop-computer-use/index.ts:672-676 | whatever lease a session believes to hold was granted by the Gateway to an acquire of that session |
| PluginAdoption.AdoptedLeaseIsOwn | extensions/personal-desktop-computer-use/index.ts:624-651 | a controller an acquire finds and keeps was granted to the same session and held without a break until the Gateway reported it |
| PluginAdoption.OwnGrantMeansOwnLease | extensions/personal-desktop-computer-use/index.ts:1221-1229 | a batch accepted under the lease its local lease established runs under a lease granted to the acting session and held ever since |
| PluginAdoption.GrantedOnce | internal/desktopgateway/control.go:153-165 | a boot and generation are granted once, to one session |
| PluginAdoption.GranteeDecides | extensions/personal-desktop-computer-use/index.ts:704-716 | where some session recorded the grant of the lease a batch is accepted under, the acting session was granted it if and only if it is that session |
| PluginForeign.AcceptedUnderForeignLease | extensions/personal-desktop-computer-use/index.ts:557-569 | a history in which a batch is accepted under an agent lease granted to no session |
| PluginDecisions.ActExactly | extensions/personal-desktop-computer-use/index.ts:252-268 | an act posts exactly when an agent is in unblocked control, the presented observation is the stored one of this boot, machine and generation, and every click and scroll is on its frame; a stale one drops all |
| PluginDecisions.AcceptedBatchSameMachine | extensions/personal-desktop-computer-use/index.ts:252-268 | over every history an accepted batch's own status answer came after its frame was stamped and named the same non-empty machine, boot and generation under an agent |
| PluginDecisions.AcquireExactly | extensions/personal-desktop-computer-use/index.ts:613-653 | what an acquire does with each status answer |
| PluginDecisions.SecondLookExactly | extensions/personal-desktop-computer-use/index.ts:637-651 | only the very lease the local lease was granted is kept |
| PluginDecisions.AnswerExactly | extensions/personal-desktop-computer-use/index.ts:654-676 | a granted lease is recorded and every observation goes |
| PluginDecisions.RecoveryExactly | extensions/personal-desktop-computer-use/index.ts:686-700 | an unconfirmed cleanup quarantines, a confirmed one does not |
| PluginDecisions.ObserveExactly | extensions/personal-desktop-computer-use/index.ts:1115-1150 | a frame is stored under its own id exactly if it was delivered |
| PluginDecisions.LaunchExactly | extensions/personal-desktop-computer-use/index.ts:1314-1325 | a launch posts exactly when an agent is in unblocked control |
| PluginDecisions.PowerExactly | extensions/personal-desktop-computer-use/index.ts:780-815 | what each reply to a power request does to observations and uncertainty |
| PluginDecisions.StartExactly | extensions/personal-desktop-computer-use/index.ts:525-529 | which operations start when their turn comes |
| PluginDecisions.InvokeExactly | extensions/personal-desktop-computer-use/index.ts:452-491 | which calls may enter the chain |
| PluginDecisions.FailExactly | extensions/personal-desktop-computer-use/index.ts:677-686 | what a failed request does |
| PluginDecisions.LocalChangesExactly | extensions/personal-desktop-computer-use/index.ts:469-555 | how the local lease is reserved, closed, quarantined, dropped and renewed |
| PluginDecisions.QuarantineStops | extensions/personal-desktop-computer-use/index.ts:497-506 | under a quarantined lease nothing starts or is invoked |
| CredentialPolicy.FirstConsumerDecides | internal/credential/operation.go:102-129 | the scan answers a mode exactly when the first consumer of that name grants operation and repository under it |
| CredentialPolicy.AuthorizeExactly | internal/credential/operation.go:89-130 | authorization answers a mode if and only if secret, operation, repository and first consumer all allow it |
| CredentialPolicy.RepositoryExactly | internal/credential/operation.go:49-75 | a repository is accepted exactly if it is an owner and a name around one slash |
| CredentialPolicy.SecretRefExactly | internal/credential/operation.go:79-84 | a binding is accepted exactly if it is complete and immutable |
| Credential.Reconciler.UnknownOutcomeFor | internal/controller/credential_controller.go:460-475 | deletes the Job and records the outcome only once the delete is confirmed |
| Credential.Reconciler.CleanUpAndRemoveFinalizer | internal/controller/credential_controller.go:268-302 | the finalizer goes only after the network policy is cleaned up |
| Credential.Reconciler.RevokeAndRemoveFinalizer | internal/controller/credential_controller.go:247-266 | a deleted request with a live runner ends unknown before its finalizer goes |
| Credential.Reconciler.ObserveRunner | internal/controller/credential_controller.go:374-419 | the runner's state becomes a status: complete result, bounded failure, running, or unknown |
| Credential.Reconciler.ConsumeAndCreate | internal/controller/credential_controller.go:212-236 | the consumption record is written before the Create is issued, under every outcome of both writes |
| Credential.Reconciler.CheckSecretAndRun | internal/controller/credential_controller.go:179-236 | live Secret metadata must match before anything runs |
| Credential.Reconciler.ApplyVerdict | internal/controller/credential_controller.go:128-178 | what policy, binding and approval say becomes a status or lets the request proceed |
| Credential.Reconciler.BindAndApply | internal/controller/credential_controller.go:97-126 | name and owner are settled before anything else, with nothing irrevocable undone |
| Credential.Reconciler.BindRequest | internal/controller/credential_controller.go:304-321 | a request has one owner for good; another owner's request is denied |
| Credential.Reconciler.CheckTicket | internal/controller/credential_controller.go:110-126 | a changed spec or an expired ticket is denied before the verdict counts |
| Credential.Reconciler.Reconcile | internal/controller/credential_controller.go:65-237 | one reconcile takes the store where the model says, with every write failing, lost or crashed; nothing irrevocable is undone and a Create is issued only with every gate open |
| CredentialRuns.ProceedMeans | internal/controller/credential_controller.go:128-178 | the verdict lets a request proceed if and only if policy authorizes, bindings agree, and Confirm mode has its Approve decision |
| CredentialRuns.GatesAreJustified | internal/controller/credential_controller.go:110-204 | the gates of a Create hold if and only if ticket, policy, first consumer, bindings and approval, spelt out, all allow it |
| CredentialRuns.ReconcileGood | internal/controller/credential_controller.go:65-237 | every reconcile keeps the store's invariant and undoes nothing irrevocable |
| CredentialRuns.ReconcileJustified | internal/controller/credential_controller.go:120-236 | a reconcile adds no Create, or one for which every gate held |
| CredentialRuns.OneJustifiedCreate | internal/controller/credential_controller.go:212-236 | over any run the Create is issued at most once, only after the runner name is persisted, and only with an unexpired ticket, a consumer that allows operation and repository, agreeing request, policy and Secret bindings, and the approval Confirm mode asks for |
| CredentialRuns.TerminalIsFinal | internal/controller/credential_controller.go:71-79 | terminal statuses never change and a runner name is never cleared |
| CredentialRuns.TerminalIsBounded | internal/credential/operation.go:214-250 | Succeeded carries a complete result with a positive number, every other terminal phase a bounded error code |
| CredentialRuns.UnknownOutcomeHasNoJob | internal/controller/credential_controller.go:460-475 | after UnknownOutcome there is no Runner Job and none is ever created again |
| CredentialDecisions.CreateExactly | internal/controller/credential_controller.go:65-236 | a reconcile issues exactly one Create if and only if the request is open, without runner, identified, unchanged and justified, the Job absent, readable and renderable, and the writes before it done |
| CredentialDecisions.CreateStepExactly | internal/controller/credential_controller.go:212-236 | over every run a Create is issued by exactly those reconciles |
| CredentialDecisions.CreateStands | internal/controller/credential_controller.go:212-236 | with its write done the Job stands behind the complete record of the consumed ticket |
| CredentialDecisions.UnidentifiedDenied | internal/controller/credential_controller.go:80-126 | what is recorded without finalizer, instance, name, owner, spec or time |
| CredentialDecisions.FreshVerdicts | internal/controller/credential_controller.go:128-178 | what is recorded for a request without runner by policy, binding and approval |
| CredentialDecisions.FreshSecret | internal/controller/credential_controller.go:179-201 | what is recorded by the live Secret |
| CredentialDecisions.RunnerOutcomeExactly | internal/controller/credential_controller.go:374-419 | a complete issue is recorded with Succeeded, a bounded code with Failed, a Job at work as Running, and anything else ends unknown |
| CredentialDecisions.RunnerRevoked | internal/controller/credential_controller.go:128-207 | a runner whose authorization or Secret is gone ends unknown |
| CredentialDecisions.DeletionExactly | internal/controller/credential_controller.go:247-280 | a deleted request is gone exactly after its cleanup, and an open runner ends unknown first |
| CredentialDecisions.EndedIsReleased | internal/controller/credential_controller.go:71-79 | an ended request only loses its finalizer |
| CredentialDecisions.NamesExactly | internal/credential/operation.go:171-176 | which tickets share a request name, and that Jobs do not share theirs |
| Versions.PlainIsTheRegex | internal/update/registry.go:35 | the part-by-part test accepts exactly the tags the regular expression matches |
| Versions.PlainTagParses | internal/update/registry.go:202-216 | a release tag fails to parse exactly when one of its numbers overflows |
| Numerals.DecimalExactly | internal/update/registry.go:202-216 | a string of digits denotes n if and only if it is the decimal spelling of n behind zeros |
| Numerals.AtoiExactly | internal/update/registry.go:202-216 | a text reads as v if and only if it writes v and v fits 64 bits |
| Versions.ParsesExactly | internal/update/registry.go:202-216 | a plain tag parses to x.y.z exactly when its parts say so |
| Versions.NewerExactly | internal/update/registry.go:156-200 | releases are ordered by their numbers: major, then minor, then patch |
| Versions.ParseVersion | internal/update/registry.go:202-216 | the loop yields the version a tag denotes, or none |
| Versions.CompareVersions | internal/update/registry.go:180-200 | the loop yields the sign of the version order |
| Versions.TotalPreorder | internal/update/registry.go:156-200 | the comparison is a total preorder, unparsable tags lowest, ties exactly equal versions |
| Versions.PickIsGreatest | internal/update/registry.go:161-175 | the candidate is the first of the greatest qualifying tags, and exists exactly when a tag qualifies |
| Versions.PickExactly | internal/update/registry.go:161-175 | the one first of the greatest tags is picked, and no other |
| Versions.PickVersion | internal/update/registry.go:161-175 | the loop returns that candidate |
| Versions.TrackExactly | internal/update/registry.go:161-175 | a minor track admits exactly the releases of that stream, latest all |
| Rollout.AutoUpdater.constructor | internal/controller/autoupdate_controller.go:326-331 | an instance starts with no update status |
| Rollout.AutoUpdater.SetIdle | internal/controller/autoupdate_controller.go:205-213 | disabling keeps the confirmed version only |
| Rollout.AutoUpdater.AdvanceRollout | internal/controller/autoupdate_controller.go:218-282 | opens the window, confirms, rolls back or waits |
| Rollout.AutoUpdater.Poll | internal/controller/autoupdate_controller.go:121-161 | outside a rollout the candidate, the confirmed or spec version and the gate decide |
| Rollout.AutoUpdater.Promote | internal/controller/autoupdate_controller.go:163-183 | the backup gate, then the image patch, then the promotion |
| Rollout.AutoUpdater.Reconcile | internal/controller/autoupdate_controller.go:77-184 | one reconcile persists the move the model decides, or nothing, and keeps the stored invariant |
| Rollout.InvAlways | internal/controller/autoupdate_controller.go:77-184 | in every persisted status the target of a rollout is a release newer than the confirmed one, and a deadline stands exactly while confirming |
| Rollout.CurrentVersionOnlyGrows | internal/controller/autoupdate_controller.go:247-254 | the confirmed version, once set, only moves to strictly newer releases |
| Rollout.DeadlineNeverMoves | internal/controller/autoupdate_controller.go:218-282 | while a rollout is active its target and its deadline stay fixed |
| Rollout.WindowOpensAtReadiness | internal/controller/autoupdate_controller.go:218-246 | the deadline is set at the first observed readiness |
| Rollout.RolloutEnds | internal/controller/autoupdate_controller.go:218-282 | a rollout ends confirmed at or after the deadline while ready, rolled back strictly after it while not ready, or disabled |
| Rollout.WaitsForReadiness | internal/controller/autoupdate_controller.go:234-267 | a promoted release stays in Updating exactly as long as it is never seen ready and auto-update stays on; no timeout ends it |
| Rollout.RolledBackStaysOut | internal/controller/autoupdate_controller.go:136-154 | a rolled-back version is not promoted again until another was promoted or auto-update was disabled |
| Rollout.ActiveRolloutRunsItsTarget | internal/resources/effective.go:16-24 | while updating or confirming the rendered image is the target's |
| Rollout.WindowIsAsConfigured | internal/controller/autoupdate_controller.go:218-246 | the window equals the configured minutes if and only if they fit a 64-bit duration |
| Rollout.ConfirmedNotBeforeWindow | api/v1alpha1/typeclawinstance_types.go:148-151 | confirmation comes no earlier than the configured window, less the second lost in storage |
| Rollout.OverflowConfirmsAtOnce | internal/controller/autoupdate_controller.go:218-254 | one minute more than fits confirms on the first ready observation |
| Rollout.ConfirmsAtOnceIff | internal/controller/autoupdate_controller.go:218-254 | the first ready observation confirms exactly for the settings in seven intervals of minutes |
| Rollout.BackupGateIsAsConfigured | internal/controller/autoupdate_controller.go:287-304 | the gate follows the configured age for every snapshot if and only if the hours fit a 64-bit duration |
| Rollout.BackupGateOverflow | internal/controller/autoupdate_controller.go:287-304 | one hour more and a snapshot taken this instant is too old |
| RolloutDecisions.VersionTagExactly | internal/controller/autoupdate_controller.go:351-356 | the tag of an image is what follows its last colon, or all of it |
| RolloutDecisions.RolloutBeginsExactly | internal/controller/autoupdate_controller.go:121-183 | over every run a rollout begins if and only if the first of the greatest releases beats the confirmed version, or with none confirmed the spec image's, is not the remembered target, and gate, readiness and patches allow it |
| RolloutDecisions.PollExactly | internal/controller/autoupdate_controller.go:121-183 | what a poll does without a candidate, behind the gate, with a refused patch and else |
| RolloutDecisions.BackupGateExactly | internal/controller/autoupdate_controller.go:287-304 | when the gate is closed |
| RolloutDecisions.AdvanceExactly | internal/controller/autoupdate_controller.go:218-282 | over every run what one reconcile makes of an active rollout |
| RolloutDecisions.DefaultWindow | internal/controller/autoupdate_controller.go:229-232 | without a setting the window is a quarter of an hour |
| RolloutDecisions.OutsideRolloutSpecImage | internal/resources/effective.go:16-24 | outside a rollout the workload runs its spec's image |
| RolloutDecisions.DisabledForgets | internal/controller/autoupdate_controller.go:99-103 | disabled, everything but the confirmed version is forgotten |
| Screenshot.GuardIsTheProductBound | internal/desktopgateway/screenshot.go:57-66 | the division-form guard admits exactly the framebuffers within the pixel budget |
| Screenshot.TryQualities | internal/desktopgateway/screenshot.go:120-145 | the inner loop finds the first quality that fits at one size, or tries them all |
| Screenshot.TrySizes | internal/desktopgateway/screenshot.go:111-152 | the outer loop finds the first attempt of the whole schedule that fits |
| Screenshot.Fit | internal/desktopgateway/screenshot.go:46-152 | which requests are too large, undecodable, invalid or passed on; a JPEG request gets the first fitting attempt or stops at the first aborted one, within thirty encodes, inside framebuffer and width limit |
| Screenshot.FitIsBounded | internal/desktopgateway/screenshot.go:104-152 | no request has more than thirty attempts, and each lies inside framebuffer and width limit |
| Screenshot.AttemptsExactly | internal/desktopgateway/screenshot.go:104-152 | what is tried in which order, from the asked quality and the narrower width down, each attempt in the framebuffer's proportions |
| Screenshot.LimitsExactly | internal/desktopgateway/screenshot.go:84-95 | which numbers a query stands for, with defaults and ranges |
| Screenshot.ThirtyIsReached | internal/desktopgateway/screenshot.go:104-152 | thirty is reached |
| Screenshot.UnscaledHeight | internal/desktopgateway/screenshot.go:104-109 | a framebuffer that needs no narrowing starts at its own height |
| Screenshot.NearestNeighbor | internal/desktopgateway/screenshot.go:168-184 | every pixel shows the source pixel its axis maps name, which lies inside the source; gives up exactly when a sixteenth row finds the deadline passed |
| Screenshot.NearestIsFloor | internal/desktopgateway/screenshot.go:178-180 | the axis map is the exact proportion rounded down |
| Screenshot.NearestMonotone | internal/desktopgateway/screenshot.go:178-180 | row and column maps are monotone |
| Screenshot.NearestStrictWhenShrinking | internal/desktopgateway/screenshot.go:178-180 | shrinking never repeats a row or column |
| Screenshot.NearestOntoWhenEnlarging | internal/desktopgateway/screenshot.go:178-180 | enlarging skips none |
| Screenshot.NearestIdentity | internal/desktopgateway/screenshot.go:178-180 | equal size is the identity |
| GuestBatch.PreparedOneByOne | guest/desktop-agent/desktop_agent.py:1336 | preparation succeeds with every action in place, or fails with the status of some action |
| GuestBatch.PreparedExactly | guest/desktop-agent/desktop_agent.py:1203-1270 | an action is accepted if and only if it fits the schema, and the prepared action asks for the same: place, button, text, key tokens under their canonical names, nearest number of wheel steps in the right direction |
| GuestBatch.BatchExactly | guest/desktop-agent/desktop_agent.py:1310-1336 | a batch passes if and only if it has 1 to 16 acceptable actions with at most 4000 characters in all, and then means what was asked |
| GuestBatch.RejectionStatusExactly | guest/desktop-agent/desktop_agent.py:1310-1336 | a rejection blames the request except when the geometry cannot be had |
| GuestBatch.KeySpecExactly | guest/desktop-agent/desktop_agent.py:63 | which key texts match |
| GuestBatch.WheelStepsBound | guest/desktop-agent/desktop_agent.py:1268-1270 | a wheel turns 1 to 33 steps, so the cap of 40 is never reached |
| GuestBatch.PreparedBatchIsSafe | guest/desktop-agent/desktop_agent.py:1203-1266 | a validated batch keeps its actions in order, inside the one sampled geometry, typing at most 4000 characters |
| GuestBatch.Agent.ActionBatch | guest/desktop-agent/desktop_agent.py:1310-1364 | rejected with no input sent, applied in full, or partial at i: the first i succeeded, action i failed, nothing later was tried |
| WindowsInput.PressKey | guest/desktop-agent/desktop_agent.py:708-785 | events are sent exactly for known modifiers and a key the tables, the function keys or the layout resolve, and they are the chord of asked and implied modifiers around it |
| WindowsInput.FunctionKeyExactly | guest/desktop-agent/desktop_agent.py:65 | f1 to f24 and no other names |
| WindowsInput.ImpliedExactly | guest/desktop-agent/desktop_agent.py:716-728 | shift, control and alt are bits of the layout's answer, the key code its low byte |
| WindowsInput.ChordEvents | guest/desktop-agent/desktop_agent.py:776-783 | the loops build that chord |
| WindowsInput.ChordIsNested | guest/desktop-agent/desktop_agent.py:769-785 | a key press releases exactly what it pressed, in reverse order, with exactly the held modifiers down at the key |
| WindowsInput.HeldCovers | guest/desktop-agent/desktop_agent.py:776-777 | the held modifiers are those asked for and those the layout implies |
| WindowsInput.AbsoluteMonotone | guest/desktop-agent/desktop_agent.py:694-703 | the pixel map is monotone and reaches both ends |
| WindowsInput.AbsoluteIsNearest | guest/desktop-agent/desktop_agent.py:694-703 | a pixel goes to the nearest position of its exact proportion |
| Rounding.RoundExactly | guest/desktop-agent/desktop_agent.py:1268-1270 | the nearest integer, and of two as near the even one |
| WindowsInput.SeparatesPixelsIff | guest/desktop-agent/desktop_agent.py:694-703 | distinct pixels get distinct positions exactly up to 65536 pixels a side |
| Png.FilterRows | guest/desktop-agent/desktop_agent.py:221-224 | the loop puts filter byte 0 before every scanline |
| Png.EncodePng | guest/desktop-agent/desktop_agent.py:212-229 | writes signature, header, data and end chunks, or fails on a wrong pixel count or a length over 32 bits |
| Png.ReadOneChunk | guest/desktop-agent/test_desktop_agent.py:1286-1299 | a written chunk reads back with its length and checksum, whatever follows it |
| Png.UnfilterScanlines | guest/desktop-agent/test_desktop_agent.py:1304-1309 | stripping the filter bytes returns the pixels |
| Png.RoundTrip | guest/desktop-agent/desktop_agent.py:207-229 | reading a written PNG returns the same width, height and pixels, per sections 3.2, 4.1 and 6.2 of RFC 2083 |
| Png.FileLayout | guest/desktop-agent/desktop_agent.py:207-229 | where signature, chunks, lengths, types and checksums stand, most significant byte first, per sections 2.1, 3.1, 3.2 and 4.1 of RFC 2083 |
| Png.ScanlineAt | guest/desktop-agent/desktop_agent.py:221-224 | every scanline stands behind a filter byte of 0, in order |
| Png.BgrxToRgb | guest/desktop-agent/desktop_agent.py:232-242 | the three strided copies reorder every pixel's channels, or the size is refused |
| Png.CaptureRoundTrip | guest/desktop-agent/desktop_agent.py:207-242 | every channel of every captured pixel comes back from the file |
| RelaySpool.Watcher.Consume | internal/relay/watch.go:99-165 | one drop is validated, actuated and archived as the model says, under every failure, crash and replacement of the file, and markers still follow deletes |
| RelaySpool.Watcher.Scan | internal/relay/watch.go:84-89 | the scan lists exactly the files that match, each once, sorted |
| RelaySpool.Watcher.PollOnce | internal/relay/watch.go:83-93 | one pass consumes every drop file found, each once, in order |
| RelaySpool.MarkersFollowDeletes | internal/relay/watch.go:145-165 | a marker stands only after a confirmed Pod delete for its request |
| RelaySpool.DeletesAreAsked | internal/relay/watch.go:108-135 | over every run every Pod delete was asked for by a drop of this schema and kind, for this runtime and that request |
| RelaySpool.DeparturesAreLogged | internal/relay/watch.go:99-180 | a consume changes no path but its own, and what it takes away is what the log says |
| RelaySpool.ValidExactly | internal/relay/watch.go:108-135 | which drops are valid |
| RelaySpool.GlobExactly | internal/relay/watch.go:39 | which files are drops |
| RelaySpool.NeverLostExactly | internal/relay/watch.go:99-180 | over a run every readable valid drop leaves only after a confirmed Pod delete for its request, if and only if no consume takes away a valid drop written over the one it had read |
| RelaySpool.NeverLost | internal/relay/watch.go:95-165 | with no path written again while it is consumed, no valid drop is lost |
| RelaySpool.ReplacedDropIsLost | internal/relay/watch.go:102-173 | a run in which a replaced drop is lost |
| RelaySpool.DedupeExactly | internal/relay/watch.go:137-143 | over a run no delete follows its marker if and only if no consume of a marked request failed to look the marker up |
| RelaySpool.AtMostOnceAfterMark | internal/relay/watch.go:137-143 | with every lookup answered, no delete for a request follows its marker |
| RelaySpool.MissedMarkerRepeats | internal/relay/watch.go:137-143 | a run in which a failed lookup deletes the Pod again |
| RelaySpool.SmoothPass | internal/relay/watch.go:83-165 | a pass without failures takes out every drop found, with exactly one delete per distinct new request |
| RelaySpool.SmoothPassEmpties | internal/relay/watch.go:83-165 | a pass without failures over what the scan lists leaves no drop file, with exactly one delete per distinct new request |

## Left out

- HTTP, TLS, WebSocket and noVNC plumbing, authentication and origin checks, and the Kubernetes and KubeVirt clients.
- Kubernetes object renderers, deep copies, cloud-init, sysprep, names and labels: record construction with easy claims.
- JSON, SHA-256, JPEG, zlib and CRC internals: functions of which only decompression inverting compression is used.
- X11, Quartz and Win32 calls: a backend is a list of calls, any of which may raise; the X11 and macOS backends, typed text and application launch are not modelled.
- Input after acceptance: the Gateway checks the lease and then forwards the batch without holding it, so nothing is claimed about when input reaches the guest.
- ControlRegistry.Registry.GrantLocked: generations are unbounded, because the wrap-around of a 64-bit counter is out of reach.
- Timers and tickers: the clock is logical, an idle check is one step, and the waiting loop of shutdown, which changes nothing, is not a step.
- Plugin.ContinuedEffects: the status answer carries an arbitrary blocked flag and machine id, and changes of the local lease from outside an operation may happen at any moment; both allow more behaviours than the code has.
- The Gateway requests inside release, power stop and cleanup are steps of the Gateway's environment that may happen at any moment.
- Observation ids are the place of the observing operation in the chain, which stands for the uniqueness of a random UUID.
- Rollout.AutoUpdater.Reconcile: condition texts, messages and requeue times are not part of the status.
- Credential.Reconciler.Reconcile: the time of consumption and the observed generation are not recorded; an already existing Job of the same name is not modelled as a Create error, because only this controller creates it.
- Phases of a credential request may move to Denied or PendingApproval with a runner recorded, as in the code; nothing is claimed about phases moving forward only.
- Screenshot.Fit: what makes the deadline pass or the encoder fail is a parameter, per attempt.
- Screenshot.NearestNeighbor: asks for a source of positive size, which the size guard gives it.
- GuestBatch.PreparedExactly: the alias tables are parameters, so the claims hold for any table; quotients are rounded exactly, not as binary floating point. A key text may end in one newline, because the pattern's end anchor admits it in Python.
- RelaySpool.Watcher.PollOnce: files that arrive at other paths during a pass are arrivals of the runs, not of this method; a scan error, which only a malformed pattern can cause, does not occur.
- WindowsInput.PressKey: the table of named keys and the keyboard layout are parameters, so the claims hold for any.
- PluginAdoption.GranteeDecides: says nothing where the answer to the granting acquire was lost, because then no record of the grant exists in the plugin.
