# AegisHook: a verified model

AegisHook decides whether a coding agent's tool call may run. A hook beside the agent submits each
call to a review engine; the engine answers from scopes and rules, from a human, or from a model, and
the hook lets the call run only on an explicit approval. This project models that core in Dafny and
proves what it is relied on for.

## What is modelled

* **Policy** (`Policy.dfy`, `PolicyLaws.dfy`): ordering rules by an in-place stable sort and taking the
  first match, proved equal to a declarative choice of the best applying rule, which is then spelled out
  in the rules' own fields.
* **Review engine** (`Reviews.dfy`, `ReviewLemmas.dfy`, `Config.dfy`, `Engine.dfy`): the store of
  instances, reviews and audit rows; settings, rules, scopes, version snapshots and model tests. Every
  operation is a pair of functions (its error, the state it commits), and the class
  `EngineObject.Engine` holds the fields the source updates and implements each operation by loops
  and assignments that are proved to reach exactly that state. A commit writes its record and its
  audit row together or not at all, and every commit may fail.
* **Hook and whole system** (`Bridge.dfy`, `System.dfy`, `EngineSteps.dfy`): the polling loop of one
  hook, and runs in which any number of hooks interleave with every engine operation, expiry sweeps,
  late model verdicts, restarts and configuration changes. A hook fetches a reply in one step and
  judges it in a later one, so anything may happen while a reply is on its way. Every method of the
  engine class is proved to be such a step. The main theorems range over all runs: what becomes of a
  submission (`Rulings.dfy`), what sessions, verdicts and edits bring about (`Effects.dfy`), what a
  permit rests on (`Permits.dfy`), where approvals, rejections and results come from (`Authors.dfy`), and
  concrete runs for the properties that need a condition (`Counterexamples.dfy`).
* **Masking lexer** (`MaskCode.dfy`, `MaskLaws.dfy`): the index-driven scanner that blanks literals and
  comments in place, against a functional lexer that gives each position its covering token. The laws
  say on the text where each kind of lexeme ends; exactly one function obeys them, and it is the scanner's.
* **Hook installation** (`HookDocument.dfy`, `HookContents.dfy`, `ClientFiles.dfy`, `ClientInstall.dfy`,
  `InstallLaws.dfy`): rewriting JSON
  hook documents, compare-and-set file edits with rollback, and the plan of one install, switch or
  uninstall, with the agreement between the registry, the hooks and the shared adapter files on disk
  over all runs, whatever programs the operations come from, what an installed document says field by
  field, and an uninstall that gives back the whole disk.
* **Device enrollment** (`Enrollment.dfy`, `EnrollmentDesk.dfy`): requests, codes, quotas, source
  blocks, credentials and revocation.
* **Paths, scripts, prompt** (`AgentPaths.dfy`, `ScopeCheck.dfy`, `PathLaws.dfy`, `Scripts.dfy`,
  `ScriptLaws.dfy`, `PromptGuard.dfy`, `PromptLaws.dfy`): containment of remote paths after
  normalisation, the scope check built on it, bounded capture of referenced scripts, and the managed
  block of the prompt editor.

Where a method and a function are proved equal, a module of laws says what the function means without
naming it or the functions it is built from: on the fields of rules, replies and records, or on the text
itself.

`Common.dfy` holds the option type and the order of strings.

## Conventions

* Times are unbounded integers in nanoseconds. One operation reads the clock once.
* A digest stands for the value it was computed from, that is, SHA-256 is taken as injective. The
  review key keeps its NUL-joined text, because that join is not injective by itself.
* Random ids and secrets are parameters that have not been used before.
* Results of calls outside the engine (database commits, key file writes, model replies, file
  contents, symlink resolution, matching a rule's pattern) are parameters, so the theorems hold for
  all of them.
* A model review is a separate later step, since the goroutine takes the lock again after its
  request; a model test is two steps for the same reason.

## Where a property needs a condition

* A permit rests on the last reply the hook fetched: it is given exactly when the review was approved
  and awaiting execution, with a deadline, at that fetch (`Permits.PermitIff`). A rejection or a
  recorded result therefore excludes every permit on replies fetched from then on
  (`Permits.NoPermitAfterResult`), but not one on a reply that was already on its way
  (`Counterexamples.PermitAfterResult`).
* The key of a call is its own exactly when instance id and call id contain no NUL
  (`Permits.KeyIsUnique`). With NUL-free instance ids, which the hook's hashed ids are, a permit is
  always for the hook's own call (`Permits.PermitIsForOwnCall`); otherwise another instance's approval
  can answer (`Counterexamples.SharedKeyAnswersForOther`).
* The tested flag is backed by a passed test at all moments of a run exactly when every restart so
  far found a key file that the flag was backed for (`System.TestedIsBackedIff`). Every restart does,
  unless a save's commit and its key rollback both failed (`System.KeyOnDiskIsSafe`); after such a
  save a restart can run with a key nobody tested (`Counterexamples.UntestedKeyInForce`).
* A disconnect leaves no pending review behind exactly when all its cancellations were committed
  (`ReviewLemmas.DisconnectOwnership`).
* An edit can be undone exactly when it recorded content and mode and does not turn a link into a
  file (`ClientFiles.UndoRestores`); every edit the client plans qualifies.
* Registry and disk agree in all runs exactly when no two installations share a hook file
  (`ClientInstall.AgreementIffOwnFiles`); a project that is the home directory breaks this
  (`ClientInstall.SharedFileLosesHook`).
* Uninstalling restores the document exactly when it held no owned group and nothing empty before
  (`HookDocument.UninstallUndoesInstall`), and with it the whole disk
  (`InstallLaws.UninstallRestoresDisk`).
* The enrollment quota needs a clock that does not run backwards (`Enrollment.ClockSetBack`).
* An access that no remote scope rejects stays below an authorised root for every path the agent
  names, as long as the root keeps the server and share it starts with
  (`ScopeCheck.PermittedPathIsContained`).
* Normalising a remote path twice changes nothing exactly when a network share keeps its server and
  share name, and a relative path stays inside its working directory exactly when that directory is
  not on a network share (`AgentPaths.NormalisationIsStable`, `AgentPaths.RelativeStaysInside`).
* A complete capture means that no reference had a problem exactly when no problem-free path reads
  like another reference's path and problem (`Scripts.CompleteCoversEverything`). References as the
  finder makes them on a POSIX host never do (`Scripts.FinderKeysDoNotCollide`), so there a complete
  capture covers everything (`Scripts.CompleteMeansCovered`); the loop on its own would let a problem
  slip (`Scripts.CollisionHidesProblem`).
* Disabling the prompt block undoes enabling it exactly when the text before the insertion does not
  complete a border of the start marker (`PromptGuard.RoundTripIff`); the shipped markers have none.
* `docs/rules.md:47` says that model mode never hands a call to a human. The code does so when the
  scripts were not captured completely (`internal/core/model.go:258-268`), and the model follows the
  code.

## Model

| member | source | states |
|---|---|---|
| Policy.InsertInPlace | internal/core/policy.go:255-265 | one insertion of the stable sort on the slice itself: the prefix becomes the stable insertion, the rest is untouched |
| Policy.SortRules | internal/core/policy.go:255-265 | the slice is sorted in place into its stable order |
| Policy.InsertStableAt | internal/core/policy.go:255-265 | a rule is inserted in front of exactly the longest suffix it strictly precedes |
| Policy.SortedIsInOrder | internal/core/policy.go:255-265 | with distinct ids and approve/reject decisions the result has no rule behind one that it precedes, and is still well formed |
| Policy.EvaluatePaths | internal/core/policy.go:269-319 | copying, sorting and scanning returns the ruling of the functional evaluation |
| Policy.EvaluateIsBestRule | internal/core/policy.go:269-319 | the outcome is the ruling of the one applying rule that precedes all other applying rules; none exactly when no rule applies |
| Policy.EvaluateIgnoresOrder | internal/core/policy.go:269-319 | permuting the stored rules changes no decision |
| Policy.LosersDoNotMatter | internal/core/policy.go:269-319 | removing any rule but the winner changes no decision |
| Policy.ApprovalMeansNoRejection | internal/core/policy.go:269-319 | an approval by rule means that no enabled rejecting rule matches the call |
| PolicyLaws.StringLessIsLexicographic | internal/core/policy.go:255-265 | the order of ids is decided by their first difference, a proper prefix coming first |
| PolicyLaws.EvaluateByFields | internal/core/policy.go:255-319 | no ruling exactly when no enabled rule for the tool has its expression or builtin matcher hit; otherwise the verdict, id and text of the one rule that rejects if any hit rejects, and outranks its like by priority and then by id |
| Policy.ListingIsUnique | internal/core/store.go:358-365 | a rule table has only one listing in evaluation order |
| ReviewLemmas.CleanTrailRulesOnce | internal/core/store.go:179-244 | an audit trail that replays cleanly has one verdict and one result row at most, and tells which |
| ReviewLemmas.SubmitKeeps | internal/core/reviews.go:115-222 | a submission keeps the store invariant and changes no stored review |
| ReviewLemmas.DecideKeeps | internal/core/reviews.go:249-291 | a human verdict keeps the invariant, evolves only its own undecided review, and keeps ownership of pending reviews |
| ReviewLemmas.ModelKeeps | internal/core/model.go:245-278 | a late model verdict keeps the invariant and ownership, whatever happened to the review meanwhile |
| ReviewLemmas.ResultKeeps | internal/core/reviews.go:292-323 | a result is recorded only on an approved call that awaits execution, and keeps the invariant |
| ReviewLemmas.RegisterKeeps | internal/core/reviews.go:15-65 | registering keeps the invariant, the instance's identity and every installation it was observed with |
| ReviewLemmas.HeartbeatKeeps | internal/core/reviews.go:66-81 | a heartbeat keeps invariant, identity and ownership |
| ReviewLemmas.DisconnectKeeps | internal/core/reviews.go:82-114 | a disconnect keeps the invariant however many of its cancellations were committed |
| ReviewLemmas.DisconnectOwnership | internal/core/reviews.go:82-114 | every pending review still has a live owner exactly when all cancellations were committed |
| ReviewLemmas.ExpireKeeps | internal/core/store.go:476-514 | a sweep keeps invariant and ownership, whichever of its commits fail |
| ReviewLemmas.ExpireClosesEverythingDue | internal/core/store.go:476-514 | after a sweep at t no pending review is overdue or owned by an instance silent for 30 seconds, and sweeping again at t changes nothing |
| ReviewLemmas.RestartKeeps | internal/core/store.go:111-128 | restart recovery keeps the invariant and, when every commit succeeds, leaves nothing pending |
| ReviewLemmas.InstancesLostKeeps | internal/core/store.go:129-137 | marking instances disconnected after a restart keeps the invariant |
| ReviewLemmas.PolicyRulingIsSafe | internal/core/reviews.go:169-175 | a scope or rule ruling always has an id other than the human one and a reason |
| Config.SavedRuleIsValid | internal/core/policy.go:328-379 | a rule that passes validation can be mistaken neither for a human verdict nor for an unknown decision |
| Config.SaveRuleKeeps | internal/core/policy.go:328-379 | saving a rule takes the next version, keeps all earlier versions and the tested flag's backing |
| Config.DeleteRuleKeeps | internal/core/policy.go:380-387 | deleting a custom rule takes the next version and never empties the table of builtins |
| Config.ScopesKeep | internal/core/policy.go:388-427 | scope edits take the next version and keep all earlier ones |
| Config.SaveSettingsKeeps | internal/core/store.go:388-441 | a save that validation lets through keeps the configuration invariant and the tested flag's backing in memory however its writes end; exactly which writes leave the key in memory on disk |
| Config.FailedRollbackLosesBacking | internal/core/store.go:426-438 | after an admitted save whose commit and key rollback both failed, a restart runs with the refused key, still marked tested, and backed exactly when that very configuration had passed a test |
| Config.FinishTestKeeps | internal/core/model.go:279-304 | a test reply that arrives after other saves marks only the configuration it tested |
| Config.ReloadKeeps | internal/core/store.go:72-89 | a restart rebuilds exactly the settings in force with the key from the key file, and the tested flag is backed afterwards exactly when it was backed for that key |
| Config.UpgradePromptKeeps | internal/core/prompt_upgrade.go:31-52 | the prompt migration preserves the current version's snapshot, committed or not, and keeps the invariant |
| Config.UpgradeRulesEffect | internal/core/rule_catalog.go:67-129 | the catalog upgrade leaves every stored rule alone and adds exactly the missing presets, switched off under a customised category |
| Config.UpgradeRulesIdempotent | internal/core/rule_catalog.go:91-93 | a second start of the same program adds nothing and takes no version |
| Config.UpgradeRulesKeeps | internal/core/rule_catalog.go:94-128 | the upgrade keeps the invariant and overwrites no version |
| Bridge.Await | internal/bridge/bridge.go:226-269 | the polling loop allows the call if and only if some reply is, by its own fields, an approval of this call after replies that were all pending and polled on in time; if and only if its fetches and acts end in the allowed stage; and with orderly replies if and only if the last approves |
| Bridge.PermitIsTimely | internal/bridge/bridge.go:234-254 | before a permit every earlier reply was pending, no turn started more than a second after its reply's deadline, and after every turn the last heartbeat was at most eight seconds old and had succeeded |
| Bridge.LoopOnViews | internal/bridge/bridge.go:226-269 | fed with given replies in time, the loop allows exactly when all but the last are pending and the last allows |
| Bridge.AllowedByFields | internal/bridge/bridge.go:226-269 | the loop allows after reply n exactly when that reply names the call, has a deadline and says approved, awaiting, with rule and reason, and every earlier one was about the call and pending, whatever its comment, and was polled on in time |
| Bridge.OrderlyIsDecidedLast | internal/bridge/bridge.go:226-269 | when all replies but the last are pending, with any comment and rule, and fetched in time, the last one alone decides |
| System.RunKeepsInv | internal/core/reviews.go:115-323 | the store, configuration and hook invariants hold in every state of every run |
| System.Lifecycle | internal/core/reviews.go:115-323 | between any two states of a run nothing stored is lost, a submission never changes, a decision is taken once and stays, a result is recorded once and stays, and no version is rewritten |
| Rulings.SubmissionFollowsPolicy | internal/core/reviews.go:156-222 | every review a run stores: a scope violation is rejected with its id, the deciding rule of the table in force rejects or approves with its id and text, an approval with missing scripts goes to a human, and without a rule the mode decides between a human and the model, each with its deadline; the record carries exactly the call |
| Rulings.RefusedStaysRefused | internal/core/reviews.go:169-196 | a call whose submission violated a scope or was hit by an enabled rejecting rule is rejected in every later state, with the same rule id |
| Rulings.RefusedIsNeverPermitted | internal/bridge/bridge.go:226-269 | and no hook is ever permitted under its key |
| Rulings.ApprovedByRuleIsPermitted | internal/core/reviews.go:185-196 | a completely captured call that an approving rule decides is permitted when its hook acts on the reply to its submission |
| Effects.SeenIsAdmitted | internal/core/reviews.go:118-129 | after a registration or heartbeat at t the instance's complete new calls are admitted exactly until t plus thirty seconds |
| Effects.SeenKeepsReviews | internal/core/store.go:476-514 | and until then no sweep closes one of its reviews before the review's own deadline |
| Effects.NewInstanceIsRegistered | internal/core/reviews.go:15-37 | which registrations of a new instance go through, field by field |
| Effects.KnownInstanceIsRegistered | internal/core/reviews.go:28-45 | a known instance registers again exactly as the session, directory, agent and node it was, and a remote one on its platform |
| Effects.RegistrationRecords | internal/core/reviews.go:37-64 | a registration stores the installations named now, none for a remote agent, everything seen so far as observed, each once, and an idle live instance |
| Effects.VerdictIsInTime | internal/core/reviews.go:249-291 | in every run a human or model verdict that decides a review comes no later than its deadline and is dated by its own clock reading |
| Effects.HumanAnswerTakesEffect | internal/core/reviews.go:249-291 | a human's answer to exactly the stored call decides it as answered when it comes by the deadline, and changes nothing when it comes later |
| Effects.ModelReplyTakesEffect | internal/core/model.go:245-278 | a recorded model reply rejects, approves what was captured completely, hands the rest to a human, or comes too late and changes nothing |
| Effects.ReportIsRecorded | internal/core/reviews.go:292-323 | the owner's report on an approved, awaiting call is stored with its text, and any other word changes nothing |
| Effects.EditIsRead | internal/core/reviews.go:148-185 | a rule, scope or settings edit that goes through changes exactly what it names, and every submission until the next edit carries the edited rules, scopes, mode, prompt and model |
| Effects.AcceptedSettings | internal/core/store.go:388-425 | which settings a save lets through; model mode only for a model configuration that is marked tested and unchanged |
| Effects.AcceptedRule | internal/core/policy.go:328-379 | which rules a save lets through |
| Effects.UpgradeRespectsCategories | internal/core/rule_catalog.go:67-90 | a missing builtin is added as the catalog has it, switched off exactly when it is off there or its category is disabled, inverted, rewritten or narrowed |
| System.VersionNamesConfiguration | internal/core/reviews.go:184-184 | two reviews of equal version, seen at any two moments of a run, carry the same rules, mode and model, the same prompt up to the input boundary added for a model review, and on the same node the same scopes |
| System.VersionNamesSettings | internal/core/store.go:197-241 | stored snapshots and the settings in force that have equal versions, at any two moments of a run, are equal up to the key and the tested flag, and a snapshot is never rewritten |
| System.AuditedOnce | internal/core/store.go:179-244 | every review's audit trail has one verdict row and one result row at most, the latter exactly when a result is recorded |
| System.IncompleteScriptsNeedHuman | internal/core/reviews.go:175-203 | in every reachable state a review with incomplete scripts that is approved was approved by a human on the human path; needsHuman, decision time and execution agree with the decision |
| Authors.ApprovalHasAuthor | internal/core/reviews.go:176-196 | every approval in a run comes from the winning approve rule at submission, from a human who approved exactly that digest, or from the model on a completely captured call of model mode |
| Authors.RejectionHasAuthor | internal/core/reviews.go:249-291 | every rejection in a run comes from a scope or the winning reject rule, a human with a reason for exactly that digest, the model, the end of the owning session, the sweep on a review that is due, or a restart, and carries that author's rule id |
| Authors.ResultIsReported | internal/core/reviews.go:292-323 | an approved call stops awaiting execution only by a result its own instance reported, and stores what was reported |
| System.TestedIsBackedIff | internal/core/model.go:279-304 | over any run, however tests and saves interleave: the tested flag has at all moments meant that exactly this protocol, address, model and key passed a test, if and only if every restart found a key file the flag was backed for |
| System.KeyOnDiskIsSafe | internal/core/store.go:426-441 | unless a save's commit and its key rollback both fail with another key, the key in memory is on disk and every restart is safe in that sense |
| System.ModelModeIsTested | internal/core/store.go:420-425 | model mode is only ever on for a configuration that passed a test, up to the first restart that finds a key file nobody tested |
| Counterexamples.UntestedKeyInForce | internal/core/store.go:426-438 | a run of five steps, with a failed commit and a failed key rollback, after whose restart the settings are marked tested with a key that never passed a test |
| System.PendingReviewsAreOwned | internal/core/reviews.go:82-124 | while disconnects commit all their cancellations, every pending review belongs to a registered instance that is not disconnected |
| Permits.PermitIff | internal/bridge/bridge.go:226-269 | a hook acting on a fetched reply is permitted exactly when, at the moment of that fetch, the review under its key was approved, awaiting execution and had a deadline, whatever happened since |
| Permits.ActFollowsReview | internal/bridge/bridge.go:231-246 | a hook acting on a reply fetched from a pending review goes on waiting, whatever comment or rule the review carries; fetched from an approved and awaiting one it is permitted, and in every other case denied |
| Permits.PermitIsBacked | internal/server/server.go:325-341 | whatever interleaves, a permit rests on one earlier fetch of the same hook run, after which the run did nothing else; at that moment the review under its key was approved, awaited execution and held the digest of exactly its tool, arguments and scripts |
| Permits.NoPermitAfterResult | internal/core/reviews.go:311-322 | once a rejection or a result is recorded, no reply fetched from then on permits |
| Permits.LateRunIsNeverPermitted | internal/core/reviews.go:311-322 | a hook run that had not submitted yet when a rejection or a result was recorded is never permitted, at any later moment |
| Counterexamples.PermitAfterResult | internal/server/server.go:325-341 | a run in which a reply fetched before a result is judged after it and permits, so the last fetch is what a recorded result has to precede |
| Permits.PermitIsLoopPermit | internal/bridge/bridge.go:226-269 | the hook of a run is the polling loop: an act permits exactly when the loop, fed with the replies that run has fetched so far, allows the call |
| Permits.KeyIsUnique | internal/core/reviews.go:136-137 | a call's key is its own exactly when instance id and call id contain no NUL |
| Permits.PermitIsForOwnCall | internal/core/reviews.go:136-147 | as long as all registered instance ids are NUL-free, a permit rests on the review of the hook's own instance and call, whatever the call id contains |
| Counterexamples.SharedKeyAnswersForOther | internal/core/reviews.go:136-147 | a run in which, with a NUL in an instance id, one instance's hook is permitted by the approval of another instance's call |
| EngineObject.Engine.constructor | internal/core/store.go:72-110 | a first start has default settings at version 1, the builtin rules and an empty store |
| EngineObject.AppendUnseen | internal/core/reviews.go:15-65 | appending the unseen identifiers one by one gives the ordered union without repetition |
| EngineObject.ListRules | internal/core/store.go:358-365 | the listing holds exactly the values of the rule table in evaluation order |
| EngineObject.Engine.CommitReview | internal/core/store.go:179-244 | record and audit row are written together or not at all |
| EngineObject.Engine.CommitSettings | internal/core/store.go:197-241 | the settings record and its version snapshot are written together, an existing snapshot is kept, and memory follows the commit |
| EngineObject.Engine.CommitTables | internal/core/store.go:197-241 | a rule or scope edit and the next version are written together |
| EngineObject.Engine.Register | internal/core/reviews.go:15-65 | the outcome and the stored record of a registration, refused, uncommitted or committed |
| EngineObject.Engine.Heartbeat | internal/core/reviews.go:66-81 | the outcome of a heartbeat and the one record it changes |
| EngineObject.Engine.Disconnect | internal/core/reviews.go:82-114 | the instance is marked first, then its pending reviews are cancelled until a commit fails; success means all of them were |
| EngineObject.Engine.Admit | internal/core/reviews.go:118-147 | a submission is refused for the source's reasons in the source's order, reuse of a call id with another digest included |
| EngineObject.Engine.Consult | internal/core/reviews.go:169-175 | scopes decide before rules |
| EngineObject.Engine.Prepare | internal/core/reviews.go:156-184 | the draft of a fresh submission: digest, mode, version, prompt, model, rules, the node's scopes and the deadline, as the configuration in force has them |
| EngineObject.Engine.Assess | internal/core/reviews.go:150-210 | the record of a fresh submission: scope, rule, forced human, human or model path with the matching deadline |
| EngineObject.Engine.SubmitUnder | internal/core/reviews.go:139-222 | an admitted submission under given rules: a stored call is answered unchanged, a fresh one is committed with its audit row or not at all |
| EngineObject.Engine.Enter | internal/core/reviews.go:215-221 | a fresh record and its audit row are committed, and a model review starts exactly on the model path |
| EngineObject.Engine.Submit | internal/core/reviews.go:115-222 | a stored call is answered from the store; a fresh one is committed under the configuration in force and starts a model review only on the model path |
| EngineObject.Engine.Decide | internal/core/reviews.go:249-291 | every refusal of a human verdict, the repeated verdict, and the committed one |
| EngineObject.Engine.FinishModelReview | internal/core/model.go:245-278 | the end of a model review: dropped when the review moved on, handed to a human when scripts are incomplete, else committed |
| EngineObject.Engine.Result | internal/core/reviews.go:292-323 | every refusal of a result, the repeated result, and the committed one |
| EngineObject.Engine.Expire | internal/core/store.go:476-514 | the sweep closes exactly the due reviews whose commit goes through |
| EngineObject.Engine.CloseIfDue | internal/core/store.go:489-513 | a passed deadline is the reason before a silent owner is |
| EngineObject.Engine.SaveRule | internal/core/policy.go:328-379 | validation and commit of a rule |
| EngineObject.Engine.DeleteRule | internal/core/policy.go:380-387 | only custom ids can be deleted |
| EngineObject.Engine.SaveScope | internal/core/policy.go:388-422 | a scope that passes validation is stored with the next version in one commit, or nothing changes |
| EngineObject.Engine.DeleteScope | internal/core/policy.go:423-427 | a scope is removed with the next version in one commit, or nothing changes |
| EngineObject.Engine.Merge | internal/core/store.go:391-425 | validation of settings, and the record to store: any change of the model configuration clears the tested flag |
| EngineObject.Engine.SaveSettings | internal/core/store.go:388-441 | the key file is written before the commit and rewritten after a failed one; which state each failure leaves |
| EngineObject.Engine.BeginTest | internal/core/model.go:279-283 | a test copies the settings and releases the lock |
| EngineObject.Engine.FinishTest | internal/core/model.go:287-303 | the copied settings are stored as tested only if the version has not moved |
| EngineObject.Engine.Missing | internal/core/rule_catalog.go:67-90 | the loop collects exactly the missing presets, adapted to customised categories |
| EngineObject.Engine.UpgradeRules | internal/core/rule_catalog.go:67-129 | all missing presets and one new version in one commit, or nothing |
| EngineObject.Engine.CancelPending | internal/core/store.go:111-128 | restart rejects the pending reviews one commit each and stops at the first failure |
| EngineObject.Engine.Reload | internal/core/store.go:73-98 | settings from the stored record and key file, then the prompt migration |
| EngineObject.Engine.MarkInstancesLost | internal/core/store.go:129-137 | every instance whose record can be rewritten becomes disconnected, keeping an earlier reason |
| EngineObject.Engine.Reopen | internal/core/store.go:37-141 | a start reloads, migrates, upgrades, rejects everything pending and marks the instances, in that order, and stops at the first failed commit: for each point where it can stop, exactly the settings and records it leaves |
| EngineSteps.PerformInstance | internal/core/reviews.go:15-81 | registering and heartbeats move an engine object exactly by their step of a run |
| EngineSteps.PerformSubmit | internal/core/reviews.go:115-222 | so do submissions, whether refused, replayed, committed or lost |
| EngineSteps.PerformDecide | internal/core/reviews.go:249-291 | so do human verdicts, the repeated ones included |
| EngineSteps.PerformVerdict | internal/core/model.go:245-278 | so do late model verdicts and results |
| EngineSteps.PerformDisconnect | internal/core/reviews.go:82-114 | a disconnect is a step, with some set of committed cancellations |
| EngineSteps.PerformExpire | internal/core/store.go:476-514 | so is a sweep, with some set of committed closings |
| EngineSteps.PerformRestart | internal/core/store.go:111-128 | so is the rejection of everything pending at a start |
| EngineSteps.PerformLost | internal/core/store.go:129-137 | so is marking the instances disconnected |
| EngineSteps.PerformRules | internal/core/policy.go:328-387 | saving and deleting rules are steps |
| EngineSteps.PerformScopes | internal/core/policy.go:388-427 | saving and deleting scopes are steps |
| EngineSteps.PerformSave | internal/core/store.go:388-441 | saving settings is a step for every way its three writes can end |
| EngineSteps.PerformTest | internal/core/model.go:279-304 | beginning and finishing a model test are steps |
| EngineSteps.PerformReload | internal/core/store.go:73-98 | reloading is a restart step followed by the prompt migration step |
| EngineSteps.PerformCatalog | internal/core/rule_catalog.go:67-129 | the catalog upgrade is a step |
| MaskCode.Mask | internal/core/rule_matchers.go:385-450 | the in-place scanner terminates with exactly the masked text of the functional lexer, length included |
| MaskCode.ScanToken | internal/core/rule_matchers.go:394-448 | one turn of the scanner ends its token where the functional lexer does |
| MaskCode.TokenCovers | internal/core/rule_matchers.go:394-448 | between two token boundaries every position shows what that one token leaves: code bytes as they are, literals and comments blank but for line breaks, an SQL quoted name as one x |
| MaskCode.SkipQuoted | internal/core/rule_matchers.go:420-440 | the quote loop honours escapes, doubled quotes in SQL and triple quotes elsewhere |
| MaskCode.Blank | internal/core/rule_matchers.go:387-393 | blanking changes exactly the range and keeps line breaks |
| MaskCode.NewlinesStay | internal/core/rule_matchers.go:385-450 | line feeds and carriage returns stay at their positions, and none appear |
| MaskCode.ChangedPositions | internal/core/rule_matchers.go:385-450 | a changed position is blank, or the x of an SQL quoted name followed by a blank |
| MaskCode.MaskedIsClean | internal/core/rule_matchers.go:385-450 | no literal or comment starts anywhere in the output |
| MaskCode.MaskedHasNoOpeners | internal/core/rule_matchers.go:385-450 | the output has no quote, no #, no // or /*, and in SQL mode no -- |
| MaskCode.MaskIsIdempotent | internal/core/rule_matchers.go:385-450 | masking twice is masking once, in both modes |
| MaskCode.UnchangedIffClean | internal/core/rule_matchers.go:385-450 | exactly the texts without literals and comments are returned unchanged |
| MaskLaws.LineCommentLaw | internal/core/rule_matchers.go:408-412 | a line comment is blanked up to its line break or the end of input, and the rest is masked as a fresh input |
| MaskLaws.BlockCommentLaw | internal/core/rule_matchers.go:413-419 | a block comment is blanked to just past its first terminator, or to the end of input, and the rest is masked as a fresh input |
| MaskLaws.DollarLiteralLaw | internal/core/rule_matchers.go:396-407 | in SQL a dollar literal is blanked to just past the next copy of its delimiter, or to the end of input, and the rest is masked as a fresh input |
| MaskLaws.QuotedLaw | internal/core/rule_matchers.go:420-444 | a quoted text, described by a grammar of escapes, doubled quotes and plain characters, is blanked to its closing run or the end of input, an SQL name leaving one x, and the rest is masked as a fresh input |
| MaskLaws.CodeLaw | internal/core/rule_matchers.go:445-447 | any other character stays, and the rest is masked as a fresh input |
| MaskLaws.EveryTextSplits | internal/core/rule_matchers.go:394-449 | every non-empty text begins with one of these lexemes |
| MaskLaws.MaskedObeys | internal/core/rule_matchers.go:385-450 | the masked text obeys all these laws at every split |
| MaskLaws.LawsDetermineMasking | internal/core/rule_matchers.go:385-450 | two functions that obey the laws agree on every text, so the laws describe the scanner completely |
| HookDocument.FilterGroups | internal/core/install_agents.go:107-122 | the loop drops exactly the owned groups, reports whether one was there and whether a group was modified |
| HookDocument.ModifyEvent | internal/core/install_agents.go:98-133 | one event's rewrite or its error |
| HookDocument.ModifyHookDocument | internal/core/install_agents.go:85-141 | the whole rewrite, stopping at the first event with an error |
| HookDocument.RewriteEffect | internal/core/install_agents.go:98-133 | the rewrite succeeds exactly when no event has an error of its own, and acts on each event alone |
| HookDocument.OthersStay | internal/core/install_agents.go:85-141 | every other key and event keeps its value, and foreign groups of a rewritten event keep their order |
| HookDocument.InstallOwnsOnce | internal/core/install_agents.go:283-312 | after an install the entry checks out, with exactly one owned group per event |
| HookDocument.UninstallOwnsNothing | internal/core/install_agents.go:123-138 | after an uninstall no owned group, empty list or empty hooks object is left |
| HookDocument.InstallIsIdempotent | internal/core/install_agents.go:85-141 | installing again succeeds and changes nothing |
| HookDocument.UninstallUndoesInstall | internal/core/install_agents.go:85-141 | uninstalling after an install always succeeds, and restores the document exactly when it had no owned group, no empty list at the agent's events and no empty hooks object |
| HookContents.InstallRunsEverywhere | internal/core/install_agents.go:40-62 | after an install each of the five events, and the failure event exactly for agents other than Codex, runs the owner's command exactly once, with a timeout of 86520 seconds before a tool call, 3 at the end of a Codex session and 10 elsewhere, and no other field |
| HookContents.InstallStaysAtEvents | internal/core/install_agents.go:98-133 | in a document that did not speak of the command, no other event and no other group speaks of it after an install |
| HookContents.UninstallIsQuiet | internal/core/install_agents.go:98-138 | and nothing at all speaks of it after the uninstall |
| HookContents.ChangedHandlerIsRefused | internal/core/install_agents.go:117-120 | a group with a handler that contains the owner's command but is not the owned one makes install and uninstall fail |
| ClientFiles.Client.ApplyEdit | internal/core/client_install.go:394-441 | an edit takes effect only if the node is what it expects, and a failure changes nothing |
| ClientFiles.Client.UndoEdit | internal/core/client_install.go:394-441 | the same primitive backwards |
| ClientFiles.Client.Transact | internal/core/client_install.go:250-264 | for any list of planned edits, paths repeating, and any failing step: all edits take effect in order, or the whole disk is what it was before |
| ClientFiles.Client.Rollback | internal/core/client_install.go:255-259 | undoing the applied edits in reverse restores the initial disk |
| ClientFiles.UndoRestores | internal/core/client_install.go:394-441 | undoing an applied edit restores the node exactly when content and mode were recorded and no link became a file |
| ClientFiles.PlannedEditsRestore | internal/core/client_install.go:377-393 | an edit planned on the initial disk can be undone even after other planned edits of the same path |
| ClientFiles.LinkToFileIsNotUndone | internal/core/client_install.go:394-441 | why planned edits exclude putting a file over a link: the primitive would apply such an edit and then refuse to undo it |
| ClientFiles.LastEditWins | internal/core/client_install.go:250-264 | after success each path holds what the last edit naming it says |
| ClientFiles.UnnamedPathStays | internal/core/client_install.go:250-264 | a path no edit names is untouched |
| ClientInstall.HookEditEffect | internal/core/client_install.go:336-376 | once its target is written, a hook edit has put the hook in place, or taken it away |
| ClientInstall.PlanIsPlanned | internal/core/client_install.go:183-249 | every edit of a plan was made by looking at the disk it is applied to, so the transaction can be undone |
| ClientInstall.SplitEntries | internal/core/client_install.go:186-198 | the loop keeps exactly the entries that stay and makes one removal edit for each of the others |
| ClientInstall.PrepareAdapters | internal/core/client_install.go:210-239 | adapter files are created once and must afterwards be registered, unmodified and equal; else the operation is refused |
| ClientInstall.HasGrokConflict | internal/core/client_install.go:144-150 | Grok is refused a second installation scope |
| ClientInstall.PreparePlan | internal/core/client_install.go:144-249 | the plan of one operation: its edits in order and the registry they lead to, or the refusal |
| ClientInstall.Operate | internal/core/client_install.go:144-301 | one whole operation on the disk: planned, applied or rolled back, and tidied up |
| ClientInstall.NextMembers | internal/core/client_install.go:186-208 | which entries the new registry lists, with unique keys |
| ClientInstall.NextGrok | internal/core/client_install.go:144-150 | at most one Grok installation stays registered |
| ClientInstall.RemovedIsGone | internal/core/client_install.go:186-198 | a removed entry's hook is gone from the disk |
| ClientInstall.TargetIsPresent | internal/core/client_install.go:199-209 | the requested hook is in place after an install |
| ClientInstall.OtherHooksStay | internal/core/client_install.go:183-249 | hook files of all other installations are untouched |
| ClientInstall.UncarriedAreGone | internal/core/client_install.go:183-249 | what the new registry does not carry is not on the disk, for every key and every program |
| ClientInstall.AdaptersAreWritten | internal/core/client_install.go:210-239 | after an install every adapter file lies on the disk as recorded |
| ClientInstall.RuntimeStays | internal/core/client_install.go:226-235 | an install that is not refused while anything is registered names the program already recorded |
| ClientInstall.OtherProgramIsRefused | internal/core/client_install.go:226-235 | while anything is registered, an install by another program is refused and changes nothing |
| ClientInstall.OperationKeepsAgreement | internal/core/client_install.go:144-301 | an operation that commits, is refused or rolls back, from whatever program, keeps registry, hooks and adapter files in agreement |
| ClientInstall.OperationKeepsTidy | internal/core/client_install.go:269-286 | the uninstall that empties the registry removes every adapter file |
| ClientInstall.InstallFromScratch | internal/core/client_install.go:199-249 | with nothing registered and no adapter file left, an install by any program is planned wherever the hook file can take it |
| ClientInstall.EveryRunAgrees | internal/core/client_install.go:144-301 | from an untouched directory, over any sequence of installs, switches and uninstalls by any programs failing at any edit: keys are unique, Grok has one entry at most, an installation is listed with a program's command exactly when that hook is in place, and while anything is listed every adapter file is in place, unmodified, and names the program of all listed hooks |
| ClientInstall.AgreementIffOwnFiles | internal/core/client_install.go:304-335 | all runs from all untouched directories agree exactly when no two installations share a hook file |
| ClientInstall.SharedFileLosesHook | internal/core/client_install.go:304-335 | from any untouched directory: installing two installations of one hook file and uninstalling the first succeeds, leaves the second registered, and its hook is gone |
| InstallLaws.PresentRuns | internal/core/install_agents.go:283-312 | a hook in place is Pi's link, OpenCode's file, or a document whose every event of the agent runs the command |
| InstallLaws.OperationLists | internal/core/client_install.go:183-209 | an operation that takes effect leaves exactly the installations it should: an install adds its own, a switch takes the agent's other scope away (for Grok every other installation), an uninstall its own; what is not listed is not present for any program |
| InstallLaws.ForeignFileIsKept | internal/core/client_install.go:336-376 | a foreign file, link or directory at the place of a hook makes the install refuse and stays |
| InstallLaws.UnknownAdapterIsKept | internal/core/client_install.go:226-228 | with nothing registered, an adapter file of unknown origin makes the install refuse and stays |
| InstallLaws.HookEditKeepsOthers | internal/core/client_install.go:365-376 | installing and removing keep every other key, event and group of the document; the file goes only if the client created it and nothing of others is in it |
| InstallLaws.CleanupTakesIntact | internal/core/client_install.go:269-286 | the final clean-up removes exactly the recorded adapter files that are as recorded |
| InstallLaws.ChangedNodeIsRefused | internal/core/client_install.go:399-419 | an edit refuses a node that is no longer what its plan saw |
| InstallLaws.UninstallRestoresDisk | internal/core/client_install.go:144-301 | from any untouched directory, install and uninstall of one installation give back the whole disk exactly when the hook document had no empty event list and no empty hooks object |
| Enrollment.CredentialsAreConserved | internal/core/client_nodes.go:56-96 | in every state of every run the issued nodes are the consumed requests plus the used codes, tokens are unique, and each node has exactly one enrollment audit row |
| Enrollment.OneCredentialPerSource | internal/core/client_nodes.go:56-96 | a request or code yields one credential at most over a whole run |
| Enrollment.RejectedNeverIssues | internal/core/client_requests.go:125-147 | after a rejection a request never yields a credential |
| Enrollment.GrantIsApprovedAndInTime | internal/core/client_requests.go:96-147 | a credential from a request follows an approval given while the request was open, and is issued before it expires |
| Enrollment.PollIssuesIff | internal/core/client_requests.go:125-147 | a poll yields a credential exactly for the right secret of an approved, unexpired request from unblocked addresses whose commit goes through |
| Enrollment.EnrollIssuesIff | internal/core/client_nodes.go:56-70 | a code yields a credential exactly when it is stored, unused, unexpired and of full length, for a known platform, and the commit goes through |
| Enrollment.IssuedCredential | internal/core/client_nodes.go:71-96 | the credential carries its source's name and platform, and the source is spent with it |
| Enrollment.CredentialIsInTime | internal/core/client_nodes.go:44-70 | every credential of a run comes less than ten minutes after the step that made its code or opened its request, and a request's only for the secret it was opened with |
| Enrollment.RequestOpensIff | internal/core/client_requests.go:60-95 | a request is opened exactly for a valid name, platform and address that is not blocked, below both quotas, and then for ten minutes |
| Enrollment.DecisionTakesEffect | internal/core/client_requests.go:96-124 | what a committed decision does: approval unless the source is blocked, rejection, blocking with rejection, and nothing after the request's expiry |
| Enrollment.RunEvolves | internal/core/client_requests.go:96-147 | requests, codes and nodes are never lost; only progress, use and revocation change, and only forwards |
| Enrollment.AuthenticatesIffLive | internal/core/client_nodes.go:97-111 | a token authenticates as a node exactly when some step issued it to that node and none has revoked it since |
| Enrollment.RevokedStaysOut | internal/core/client_nodes.go:97-128 | a revoked node's token never authenticates again |
| Enrollment.OpenRequestsAreBounded | internal/core/client_requests.go:60-95 | at every moment no earlier than the clock readings so far, at most 256 requests are unexpired in total and 5 from any source |
| Enrollment.ClockSetBack | internal/core/client_requests.go:76-87 | a run of six requests after which a clock set back by one lifetime shows six unexpired requests of one source |
| Enrollment.BlockedSourceGetsNothing | internal/core/client_requests.go:60-147 | between its block and the next unblocking a source opens no request, none of its requests is approved and none yields a credential |
| Enrollment.BlockedIffStanding | internal/core/client_requests.go:44-48 | a source is blocked exactly when some step blocked it and none has unblocked it since |
| EnrollmentObject.Desk.CountOpen | internal/core/client_requests.go:76-84 | the quota loop counts the unexpired requests of one source and of all |
| EnrollmentObject.Desk.CreateClientRequest | internal/core/client_requests.go:60-95 | every refusal in order, the failed commit, and the committed request, as one step of a run |
| EnrollmentObject.Desk.DecideClientRequest | internal/core/client_requests.go:96-124 | approval, rejection and blocking with its two commits, each of which may fail, as one step of a run |
| EnrollmentObject.Desk.PollClientRequest | internal/core/client_requests.go:125-147 | the answer to a poll, and the consumption with its credential in one commit; without the commit nothing is granted |
| EnrollmentObject.Desk.EnrollClient | internal/core/client_nodes.go:56-70 | a code is used and its credential issued in one commit, or refused, or the failed commit is answered |
| EnrollmentObject.Desk.CreateEnrollment | internal/core/client_nodes.go:44-55 | a code valid for ten minutes, or the failed commit, as one step of a run |
| EnrollmentObject.Desk.RevokeClient | internal/core/client_nodes.go:120-128 | revocation, or the failed commit, as one step of a run |
| EnrollmentObject.Desk.UnblockClientIP | internal/core/client_requests.go:44-48 | unblocking a source, or the failed commit, as one step of a run |
| EnrollmentObject.Desk.AuthenticateClient | internal/core/client_nodes.go:97-111 | the answer is the one node the token authenticates as, none exactly if there is none |
| AgentPaths.AgentPathNames | internal/core/agent_paths.go:23-43 | the normalised text renders exactly the place its components lead to, from the root, the drive or the working directory |
| AgentPaths.NormalisationIsStable | internal/core/agent_paths.go:23-43 | normalising a normalised path changes nothing, exactly when a network share keeps server and share name |
| AgentPaths.WithinIsContainment | internal/core/agent_paths.go:44-48 | on all inputs the textual test is containment of places: component prefix under the same anchor |
| AgentPaths.PosixContainment | internal/core/agent_paths.go:44-48 | for absolute POSIX paths: the root's resolved components are a prefix of the path's |
| AgentPaths.DriveContainment | internal/core/agent_paths.go:44-48 | for drive paths whose root does not climb above the drive: the same, case-folded |
| AgentPaths.WithinIsPreorder | internal/core/agent_paths.go:44-48 | containment is reflexive and transitive on all inputs |
| AgentPaths.ScopeCheckIsContainment | internal/core/policy.go:441-447 | on all inputs the scope check, which normalises twice, is containment of what both paths name, a network share cut by dot-dots read as its second normalisation leaves it |
| AgentPaths.AbsoluteRootDecides | internal/core/policy.go:441-447 | below an absolute root that keeps its share, the scope check is containment of what root and path name, for every path |
| AgentPaths.RelativeStaysInside | internal/core/agent_paths.go:31-33 | a relative path without dot-dots stays inside its absolute working directory exactly when that is not a network share |
| PathLaws.UpLaw | internal/core/agent_paths.go:23-43 | below an absolute directory, a component followed by dot-dot disappears, whatever follows |
| PathLaws.RootLaw | internal/core/agent_paths.go:23-43 | dot-dot at the root of a POSIX file system disappears |
| PathLaws.DotLaw | internal/core/agent_paths.go:23-43 | single dots and doubled separators disappear |
| PathLaws.EndLaw | internal/core/agent_paths.go:23-43 | the same at the end of a path, where a final separator disappears too |
| PathLaws.CleanLaw | internal/core/agent_paths.go:23-43 | a POSIX path of ordinary components is its own normal form |
| PathLaws.RelativeLaw | internal/core/agent_paths.go:31-33 | a relative POSIX path is read below the working directory |
| PathLaws.SeparatorLaw | internal/core/agent_paths.go:27-30 | backslashes and slashes mean the same in a Windows path |
| PathLaws.CleanDriveLaw | internal/core/agent_paths.go:34-42 | a Windows path of ordinary components on a drive keeps them, its ASCII letters in lower case |
| PathLaws.CleanWithin | internal/core/agent_paths.go:44-48 | between clean POSIX paths containment is equality or a prefix of text that ends at a separator |
| PathLaws.SiblingIsOutside | internal/core/agent_paths.go:44-48 | a clean POSIX root followed by dot-dot and another name than its own last component is outside the root |
| PathLaws.SiblingIsRejected | internal/core/policy.go:435-469 | a remote POSIX agent that asks for such a path under a scope with that one root is rejected |
| ScopeCheck.CheckScopePaths | internal/core/policy.go:435-469 | the loop returns the objection of the first governing scope that has one |
| ScopeCheck.PathReachable | internal/core/policy.go:443-448 | the inner loop finds out whether some authorised path contains the target |
| ScopeCheck.NoHitIffAllAllow | internal/core/policy.go:435-469 | no scope objects exactly when every governing scope allows the path and all hosts |
| ScopeCheck.HitIsFirstObjection | internal/core/policy.go:435-469 | a rejection is that of the first objecting scope; none before it objects |
| ScopeCheck.MoreScopesRejectMore | internal/core/policy.go:435-469 | adding or reordering scopes never lifts a rejection |
| PathLaws.HitByFields | internal/core/policy.go:435-469 | no hit means that every scope whose project contains the working directory lets path and hosts pass, and a hit names what one of them does not let pass |
| ScopeCheck.PermittedPathIsContained | internal/core/reviews.go:162-170 | a remote agent's file access that no scope rejects names a place below one authorised root of every governing scope that has any, for every path the agent names, its roots being absolute as saving a scope demands and keeping their share |
| Scripts.CaptureScripts | internal/core/scripts.go:246-313 | the loop's files and status for every reference list and all file contents |
| Scripts.CaptureIsBounded | internal/core/scripts.go:246-313 | at most 8 whole snapshots of different paths, 2^20 bytes together |
| Scripts.IncompleteIffListed | internal/core/scripts.go:246-313 | incomplete exactly when some listed file is |
| Scripts.CompleteIffCapturable | internal/core/scripts.go:246-313 | complete exactly when a declarative condition on the first reference of each key holds, and then the files are exactly the whole snapshots of those that need one, in order |
| Scripts.CompleteCoversEverything | internal/core/scripts.go:250-312 | a complete capture hides no problem, and captures every path whole or as a directly started native binary, exactly when no key collides |
| Scripts.FinderKeysDoNotCollide | internal/core/scripts.go:79-93 | references as the finder makes them on a POSIX host, resolved paths absolute and problems not, never collide |
| Scripts.CompleteMeansCovered | internal/core/scripts.go:246-313 | so a complete capture of found references hides no problem and covers every path |
| Scripts.CollisionHidesProblem | internal/core/scripts.go:250-261 | the loop on its own, given a colliding key that the finder does not produce on a POSIX host, gives a complete capture that drops an undetermined reference |
| ScriptLaws.ListedFilesAreHonest | internal/core/scripts.go:250-312 | every listed file is a true copy of a referenced text file, or has no content and the reason why |
| ScriptLaws.CompleteAccountsForAll | internal/core/scripts.go:246-313 | a capture that is not incomplete has, for every reference of the finder, a true copy of the file or an ELF or Windows image that is started directly |
| ScriptLaws.SmallTextIsCaptured | internal/core/scripts.go:246-313 | at most eight determined references to readable text of one mebibyte together are always captured |
| ScriptLaws.CaptureLimits | internal/core/scripts.go:246-313 | at most 8 whole snapshots and 1048576 bytes |
| PromptGuard.SetDataGuard | web/src/prompt-guard.ts:14-45 | enabling and disabling as specified, the removal loop included, for any non-empty end marker |
| PromptGuard.DisabledHasNoGuard | web/src/prompt-guard.ts:35-44 | disabling any prompt leaves no complete block, and changes only prompts that have one |
| PromptGuard.RoundTripIff | web/src/prompt-guard.ts:14-45 | for a prompt without markers, disabling undoes enabling exactly when the text before the insertion completes no border of the start marker |
| PromptGuard.BorderlessRoundTrip | web/src/prompt-guard.ts:14-45 | with a borderless start marker it does so for every prompt without markers |
| PromptGuard.EnableIsIdempotent | web/src/prompt-guard.ts:19-34 | enabling twice is enabling once, on every prompt |
| PromptLaws.EnableInserts | web/src/prompt-guard.ts:19-34 | a prompt without markers gets the block and a blank line in front of its first anchor, or at its beginning |
| PromptLaws.EnableRefuses | web/src/prompt-guard.ts:19-26 | with a marker in it a prompt stays as it is exactly when it has a complete block, and is refused otherwise |
| PromptLaws.DisableCuts | web/src/prompt-guard.ts:35-44 | disabling takes out the text from the first start marker to the first end marker behind it and one blank line, and goes on with the rest |
| PromptGuard.ShippedTemplateIsFit | internal/core/prompt_guard.go:4-16 | the shipped markers are borderless and, around any text without the opening bracket, meet every condition above |
| PromptGuard.RefreshKeepsState | internal/core/prompt_upgrade.go:14-29 | replacing the older release's block never turns the guard on or off |
| PromptLaws.RefreshReplaces | internal/core/prompt_upgrade.go:14-29 | between the only start and the only end marker the older release's block gives way to the current one, and anything else stays |
| PromptGuard.RefreshIsIdempotent | internal/core/prompt_upgrade.go:14-36 | after a refresh a further start finds nothing to replace and takes no version, as long as the shipped block is not the older one |

## Left out

- HTTP routing, authentication of the management page, cookies, server-sent events and proxy headers: plumbing around the engine calls.
- SQLite, JSON text, file locking and the durability of single writes: a commit is atomic and may fail, an edit of a file takes effect or changes nothing.
- Redaction of stored arguments, comments and context: a stored review keeps the digest of the original call, not its text.
- Rule patterns, regular expressions, the shell parser and the 26 builtin matchers: matching is an arbitrary predicate of call and rule.
- Model requests, retries, token usage and prices: a verdict is an arbitrary ruling the reply parser lets through.
- Legacy review records without a path, and legacy rules without a matcher: all records are taken to be written by the current program.
- Unicode: a text is a sequence of characters, its length is their number, and only ASCII letters are case-folded in Windows paths.
- Policy.EvaluatePaths: the stable sort is an insertion sort, because Go's sort.SliceStable is not part of this model; any stable sort gives the same slice.
- Policy.LosersDoNotMatter: one rule is removed at a time.
- EngineObject.Engine.Submit: user message, context and model input of a review are not recorded in the model.
- EngineObject.Engine.SaveScope: the validation of project, paths, name and targets is one boolean parameter; that the roots of a remote scope are absolute is a hypothesis of ScopeCheck.PermittedPathIsContained.
- EngineObject.Engine.SaveRule: the limits on name, message and pattern text are two boolean parameters.
- Effects.AcceptedSettings: the validation of prices and of an unknown mode word is not modelled.
- Effects.NewInstanceIsRegistered: the checks of a remote node's identity, platform and path are one boolean parameter, and symlinks of the working directory are resolved beforehand.
- System.IsRun: an engine operation is one step; a crash between the commits of one operation is not modelled, failing commits are.
- Permits.PermitIsBacked: transport errors, wake-ups and heartbeats of a hook appear as the step that gives up; the timing of the loop itself is in Bridge.Await.
- ClientFiles.Client.Transact: no other program writes the files meanwhile, undo primitives work, and created or emptied directories are not modelled.
- ClientInstall.EveryRunAgrees: all operations use one Pi directory, so the place of a hook is a function of agent, scope and project.
- ClientInstall.Operate: the early refusal for another address or token is subsumed by the comparison of the connection file; context caches and the pending enrollment file are not modelled, and deleting an adapter file never fails.
- HookDocument.ModifyHookDocument: reading and encoding the document are left out, and group values are compared by value instead of by their JSON text.
- The server-side installer InstallAgent (internal/core/install_agents.go:143-281): it writes the same documents and records without the client's transaction.
- Enrollment.OneCredentialPerSource: freshness of generated ids and tokens is assumed, not derived.
- EnrollmentObject.Desk.UnblockClientIP: blocks are kept by address instead of by the digest of the address.
- ScopeCheck.CheckScopePaths: taking the host out of a URL argument and lower-casing it; in a run of System the outcome of the scope check is an arbitrary parameter, which covers it.
- Scripts.FinderKeysDoNotCollide: what the finder resolves on Windows is not covered.
- Scripts.CaptureScripts: finding the references in a shell command, the choice of the command argument, and digests of snapshots are left out; the messages stand for themselves in English.
- callWords, httpCommand, redisCommand and the SQL splitter: command patterns of single rules.
- Dashboard components, cost figures, install scripts and command-line flags.
