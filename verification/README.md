# A model of the agentgateway Educates operator

The operator gives every workshop participant a rate-limited LLM API key. A
grant (`AgentGatewaySession`) asks for budgets, a cluster-wide catalog sets
defaults and maxima, and the operator turns the two into a Secret in the
session's own namespace, a hashed registration in the gateway's namespace, and
one policy whose generated expressions read the registration back. Nothing it
does is transactional: any call to the API server may fail, reads may be stale,
namespaces end at any moment, and two controllers work from different objects.

This project models that logic in Dafny 4.11 and proves what it keeps, over all
inputs and over runs of any length. `dafny verify dfyconfig.toml` checks
everything.

## How it is laid out

| module | what it holds |
|---|---|
| `Decimal`, `Money` | decimal text; reading dollar strings into int64 micro-dollars digit by digit, and printing them |
| `Budget` | grant, catalog default, catalog maximum and built-in constant resolved to one ceiling |
| `Registration` | the per-session entry, its comparison, and which sessions a catalog edit wakes |
| `Policy` | the generated override and charge expressions as syntax trees, their text, an evaluator, what a key is held to |
| `Session` | one reconcile pass over Secret, registration, namespaces and status, every call able to fail |
| `Lifecycle` | runs of passes, Secret deletions and namespace deletions: no resurrection, a stable key |
| `Staleness`, `StaleStatus`, `StaleWrites` | the Secret, the registration, the key handed on, the recorded namespace, the shared row, the policy and the models when every read may be arbitrarily old |
| `Sync`, `Progress` | catalog edits and the catalog's own status writes against session and platform passes, at the grain of single API calls, with queues, undelivered events and cached reads |
| `Teardown`, `Orphans`, `Expiry` | removing a registration within a bounded window, who may leave one behind, and the sweep that ends it anyway |
| `Helm` | the converge table and the repair table over a revision history whose actions fail as they like |
| `Models` | rendering the catalog into pairs of model objects, and pruning |
| `Overlay` | the in-place edits of the data-plane overlay |
| `Drain` | the platform's ordered teardown, cut short anywhere and retried |

Where the source changes objects step by step the model is a class whose methods
do the same, each proved against a function or a relation; the run-level results
are about those. A method that calls the API server takes its failures as
parameters, so a result about it is a result about every pattern of failure.

## What came out false, and exactly when

These hold of the code as it is, against its own comments or what one would hope for.
Each names the exact condition and then the result that shows it at an input the code
can receive.

- `Policy.TokenOverrideFailsWhen`: the comment at `internal/controller/policy.go:28-30`
  says an unparseable token budget falls back. The expression falls back only when
  the field is missing; an unparseable one is an evaluation error, and only then.
  At "many": `Policy.WrittenBudgetDoesNotFallBack`.
- `Models.ResolvesUnlessALaterNameCollides`: the comment at
  `internal/controller/agentgatewaycatalog_controller.go:203-204` says the suffix
  keeps the two names of a pair from colliding. Another catalog entry named with the
  suffix collides with it; of the two the later one wins. At "m" and "m-upstream":
  `Models.SuffixedNameWins`.
- `Models.HandWrittenSurvivesIff`: a model written by hand is left alone
  (`agentgatewaycatalog_controller.go:166-167`) exactly while no catalog asks for its
  name. One that does takes the object over, and a later catalog without the name
  deletes it: `Models.HandWrittenIsDeleted`.
- `Overlay.RestoredIff`: disabling the admin interface gives back the overlay exactly
  when it had the Service spec, neither half of the interface, and no empty container
  on those paths. With an author's own port 15000: `Overlay.OwnPortIsLost`.
- `Staleness.RegisteredIffReadCurrent`: a create that finds the registration already
  there counts as success (`agentgatewaysession_controller.go:670-676`), so a pass that
  succeeds leaves the wanted entry exactly when its read was current or the entry was
  there already. With a lowered maximum: `Staleness.OlderEntryKept`.
- `Staleness.RegisteredHashIsStoredIff`: the hash a pass registers is that of the stored
  key exactly when it wrote the Secret itself or the version it relied on still carries
  that key. After a deletion and a late read: `Staleness.OldKeyRegistered`.
- `StaleStatus.ForgetsIff`: a pass writes back the whole status of the copy it read
  (`agentgatewaysession_controller.go:729-740`), so one whose copy is from before the
  first record, but has the finalizer, can erase the recorded namespace, and
  (`StaleStatus.StaleMintsWhen`) can mint for a session that has ended. A copy without
  the finalizer ends in a conflict. From a first Ready pass on:
  `StaleStatus.OldCopyResurrects`. Without such a copy nothing comes back:
  `StaleStatus.NoResurrectionWhileRemembered`.
- `Expiry.TakesLiveIff`, `Expiry.RewriteTakenIff`: the sweep deletes by name
  (`agentgatewaysession_expiry.go:126`), so it takes a live registration exactly when an
  expired one was rewritten after the listing by a grant whose own expiry is still to
  come. A grant created anew: `Expiry.RecreatedGrantIsTaken`; an unchanged grant never
  loses one: `Expiry.UnchangedGrantIsSafe`.
- `StaleWrites.EnsuredIff`: the shared row, the policy and the models are created the
  same way (`ratelimit.go:374`, `policy.go:177`, `agentgatewaycatalog_controller.go:300`),
  so a write that succeeds leaves what was wanted exactly when its read found the object,
  or there was none, or it held that already. With a lowered default:
  `StaleWrites.OlderRowKept`; with a repointed alias: `StaleWrites.OlderModelKept`.
- `Sync.UnlistedEditLandsWhen`: a listing that fails selects nobody and is not retried
  (`agentgatewaysession_controller.go:788-818`). An edit and the status write that always
  follows it make four listings; the edit lands on a settled session exactly when it
  changes nothing the grant has pinned or one that worked selected the grant
  (`Sync.EditAndStatusLandIff`). So a grant that names a budget is reached unless all four
  fail, and one that names none hangs on a single listing when the default cost is
  removed: `Progress.RemovedDefaultIsMissed`.
- `Progress.DrainsIffPlatformOwed`: a rate-limit step that fails ends the platform pass
  without a requeue (`internal/controller/ratelimit.go:58-64`); the system can come to
  rest from exactly the states where that is not the last word: no event is to come and
  no status write is owed. Right after a start: `Progress.DroppedPassIsReached`.
- `Session.MintedIsOwnedIff`: repairing an emptied Secret (`agentgatewaysession_controller.go:536-547`)
  computes an owner reference and does not store it, so the repaired Secret is collected
  with the session exactly when it was owned before. When someone else created it
  without a key: `Lifecycle.RepairedSecretIsUnowned`.
- `Lifecycle.ReturnsIffUnrecorded`: a key comes back after its session namespace ended
  exactly when no complete pass had recorded the owning namespace.
- `Drain.Drainer.ReconcileDelete`: when the platform cannot be read back before the last step
  (`agentgatewayplatform_teardown.go:198-200`) the pass ends without error, the
  finalizer still there, and it ends so exactly then: `Drain.Drainer.LeftQuietly`.

## What is assumed

- The catalog object stays Ready, the provider is bundled except where a model says
  otherwise, the gateway namespace's name does not change, and session names are
  unique, since the registration's name uses only the session's name.
- SHA-256 is a free constructor: a digest is known by its preimage. JSON encoding is a
  constructor with its own decoding, beside text that does not decode. Expiry text
  (RFC 3339, section 5.6) is an injective code of whole seconds.
- A text is a sequence of characters. The parser cuts bytes after the sixth decimal;
  the two agree on every text whose decimals are ASCII, which is all the pattern allows.
- Money and charges are exact: reals stand for the evaluator's doubles.
- A name with any Helm history cannot be installed again, a pending record locks out an
  upgrade, a rollback copies the revision it returns to, and a recorded revision carries
  the values it was given. The last is an assumption: the code sets no option that would
  reset values (`internal/helm/client.go:129-134`).
- In `Lifecycle` and `StaleStatus` a pass is atomic and the environment acts between
  passes. `Staleness`, `StaleWrites`, `Sync` and `Orphans` do not assume that. In `Sync`
  and `Orphans` one pass runs per key, as the work queue guarantees; in `Sync` a catalog
  event may be delivered long after the edit it tells of and a read of the catalog
  answers with any version from the last delivered one on, while other reads are current.
- In `Sync` the catalog controller writes its status at least once after the last edit
  and at most once for each, and no informer resyncs: a resync would be one more event.
- In `Sync` an edit of a grant or a key and the queueing of that session are one step.
  In `Orphans` only the operator creates the gateway namespace.
- A namespace name that is gone is not created again with the same owner.

## Model

| member | source | states |
|---|---|---|
| `Money.ParseDigits` | api/agentgateway/v1alpha1/cost.go:201-221 | the digit loop answers exactly when the text is all digits and its number fits int64, and with that number; every intermediate value is an int64, so no step overflows |
| `Money.ParseDollarsToMicroDollars` | api/agentgateway/v1alpha1/cost.go:41-78 | the parser's value and each of its error cases, for every text |
| `Money.ReadExact` | api/agentgateway/v1alpha1/cost.go:20-78 | for every text of the CRD pattern, however padded, the result is floor(dollars x 10^6), an error exactly when that is 0 or above 2^63-1 |
| `Money.TrimPadding` | api/agentgateway/v1alpha1/cost.go:41-46 | surrounding white space never changes what is read |
| `Money.ReadsIff` | api/agentgateway/v1alpha1/cost.go:41-78 | for every text, of the pattern or not: it reads exactly when it is digits, or digits, a point and a fraction of digits as far as the sixth place, and the amount is a positive int64; and which error the others give |
| `Money.PrintedReadsBack` | internal/controller/agentgatewaysession_controller.go:380-393 | printing any amount in 1..2^63-1 and reading it without the dollar sign gives it back, through padding, trimming and the two-digit minimum |
| `Money.PrintedIsInjective` | internal/controller/agentgatewaysession_controller.go:380-393 | two amounts that print alike are the same amount |
| `Money.PrintedShape` | internal/controller/agentgatewaysession_controller.go:380-393 | every amount prints as a dollar sign, whole dollars without leading zeros and two to six decimals, the last no zero where there are more than two |
| `Budget.TokenCeiling` | api/agentgateway/v1alpha1/budget.go:42-105 | the ceiling is the smaller of the maximum and the grant's number, or where it names none the catalog default, or 100000; reported as clamped, with the number asked, exactly when the grant's number did not survive; an inheriting grant gets the shared row's number |
| `Budget.CostCeiling` | api/agentgateway/v1alpha1/cost.go:129-175 | when a cost ceiling applies and exactly which: the grant's amount when it reads and the default's otherwise, under a readable maximum the smaller, under an unreadable one a micro-dollar; and exactly when it is reported as clamped, with what was asked |
| `Registration.DesiredFields` | internal/controller/registration.go:115-135 | the hash and each metadata field of a built entry, the authored window and lifetime or their defaults, exactly when each budget is present, and nothing else |
| `Registration.PinsInEntry` | internal/controller/agentgatewaysession_controller.go:610-635 | entries built alike pin the same budgets: a change of either shows in the entry |
| `Registration.Equals` | internal/controller/registration.go:142-152 | equal sizes and a one-way lookup answer true for equal entries and for no others |
| `Registration.WakeSetSound` | internal/controller/agentgatewaysession_controller.go:769-818 | a grant not selected by the mapping on the old or the new catalog would be given the same entry under both |
| `Registration.WokenIff` | api/agentgateway/v1alpha1/agentgatewaysession_types.go:350-357 | exactly which grants of the catalog an edit selects: those with a positive token budget or a cost text, and all when the catalog offered or offers a cost; no others |
| `Registration.MapCatalogToSessions` | internal/controller/agentgatewaysession_controller.go:788-818 | the requests are exactly the sessions of that catalog that need a reconcile, in listing order |
| `Policy.TokenTextAgrees` | internal/controller/policy.go:37-54 | the token override reasoned about prints to the text the operator writes |
| `Policy.CostTextAgrees` | internal/controller/policy.go:51-72 | the same for the cost override |
| `Policy.ChargeTextAgrees` | internal/controller/policy.go:119-125 | the same for the charge |
| `Policy.OverrideRead` | internal/controller/policy.go:37-72 | what either override evaluates to, over any metadata |
| `Policy.IntOfTextIs` | internal/controller/policy.go:37-42 | digits with either sign or none are read as their number when it fits int64 |
| `Policy.OnlySignedDigitsRead` | internal/controller/policy.go:37-42 | and nothing else is |
| `Policy.EnforcedExactly` | internal/controller/policy.go:37-72 | for every grant and catalog the overrides evaluate over the built registration without error and enforce exactly the grant's window and the resolved ceilings; the cost descriptor applies exactly when a cost ceiling is configured |
| `Policy.TokenOverrideFailsWhen` | internal/controller/policy.go:27-42 | the override is an error exactly when a budget is present that does not read as a number, signs included |
| `Policy.WrittenBudgetDoesNotFallBack` | internal/controller/policy.go:27-42 | a budget written as a word leaves the key at the shared row, not at the fallback |
| `Policy.ChargeIsPositive` | internal/controller/policy.go:85-125 | every charge is at least 1, and its exact value; an error only outside int64 |
| `Session.Cluster.EnsureSecret` | internal/controller/agentgatewaysession_controller.go:461-562 | the new state and the result, whichever calls fail: reuse, address repair, refusal while ending, minting, re-minting |
| `Session.Cluster.EnsureRegistration` | internal/controller/agentgatewaysession_controller.go:610-705 | the new state and whether it succeeded, whichever calls fail |
| `Session.Cluster.Reconcile` | internal/controller/agentgatewaysession_controller.go:55-241 | a whole pass, whichever calls fail |
| `Session.FinalizerFirst` | internal/controller/agentgatewaysession_controller.go:83-88 | every valid pass whose write of the finalizer works stores it, however the pass ends; a pass that leaves a grant without it has changed nothing |
| `Session.PassEndsAs` | internal/controller/agentgatewaysession_controller.go:55-241 | exactly when a pass ends Rejected, Waiting, Ending or Ready, by what it finds and which calls fail |
| `Session.RegistrationFollowsKey` | internal/controller/agentgatewaysession_controller.go:658-705 | whatever a pass does to the registration, it leaves one entry, of the stored key under the resolved terms |
| `Session.ReadyAgrees` | internal/controller/agentgatewaysession_controller.go:118-241 | after every pass that ends Ready the entry carries the hash of the stored key with the resolved budgets, window and expiry |
| `Session.SecondPassWritesNothing` | internal/controller/agentgatewaysession_controller.go:461-705 | an immediate second pass is Ready and leaves every object, versions included, as it was |
| `Session.PassKeepsKey` | internal/controller/agentgatewaysession_controller.go:461-485 | no pass, however it fails, replaces or removes a live key |
| `Session.ReusedSecret` | internal/controller/agentgatewaysession_controller.go:461-485 | a live Secret keeps everything but the gateway's address |
| `Session.PassMintsWhen` | internal/controller/agentgatewaysession_controller.go:418-562 | exactly when a pass mints a key, the namespace's phase and record included, and what the minted Secret holds |
| `Session.MintedIsOwnedIff` | internal/controller/agentgatewaysession_controller.go:530-547 | a created Secret is owned by the session namespace exactly when that is there, a repaired one exactly when it was before |
| `Session.FirstReadyRecords` | internal/controller/agentgatewaysession_controller.go:214-223 | the Ready pass that minted under a session namespace records that namespace |
| `Lifecycle.NoResurrection` | internal/controller/agentgatewaysession_controller.go:395-430 | once the namespace is ending and its ownership was recorded, no continuation creates a key, nor a Secret unless someone else does |
| `Lifecycle.ReturnsIffUnrecorded` | internal/controller/agentgatewaysession_controller.go:395-430 | a lost key can come back exactly when no owner was ever recorded |
| `Lifecycle.RepairedSecretIsUnowned` | internal/controller/agentgatewaysession_controller.go:530-547 | a Secret created by someone else without a key is repaired without an owner, and nothing is recorded |
| `Lifecycle.AfterFirstReadyPass` | internal/controller/agentgatewaysession_controller.go:214-223 | from the first complete pass on that holds for every later ending |
| `Lifecycle.RecordPersists` | internal/controller/agentgatewaysession_controller.go:214-223 | a recorded namespace is never forgotten |
| `Lifecycle.KeyIsStable` | internal/controller/agentgatewaysession_controller.go:461-485 | while nobody deletes or empties the Secret every pass of every run hands out one key |
| `Staleness.LiveKeyIsNeverRotated` | internal/controller/agentgatewaysession_controller.go:461-562 | under arbitrarily stale reads a non-empty key changes only through an external write or deletion |
| `Staleness.CurrentReadAgrees` | internal/controller/agentgatewaysession_controller.go:461-562 | with a current read the two models of the Secret store the same object and hand on the same key |
| `Staleness.HandsOnIff` | internal/controller/agentgatewaysession_controller.go:461-562 | exactly when a pass under stale reads has a key to go on with |
| `Staleness.RegisteredHashIsStoredIff` | internal/controller/agentgatewaysession_controller.go:461-562 | the registered hash is the stored key's exactly when the pass wrote the Secret or relied on a version that still carries its key; the re-read after a lost create included |
| `Staleness.OldKeyNeedsExternal` | internal/controller/agentgatewaysession_controller.go:461-562 | an old version's key differs from the stored one only after an external replacement |
| `Staleness.OldKeyRegistered` | internal/controller/agentgatewaysession_controller.go:461-485 | a deletion, a minting pass and a late read register the hash of the lost key |
| `Staleness.OlderEntryKept` | internal/controller/agentgatewaysession_controller.go:670-676 | a stale absent read leaves the entry pinned under the old maximum and reports success |
| `Staleness.RegisteredIffReadCurrent` | internal/controller/agentgatewaysession_controller.go:666-705 | a successful registration step leaves the wanted entry exactly when its read was current or the entry was there already |
| `Staleness.CurrentRegistrationAgrees` | internal/controller/agentgatewaysession_controller.go:666-705 | with a current read that step is the pass's own |
| `Staleness.PublishAgrees` | internal/controller/agentgatewaysession_controller.go:666-705 | the publishing call of the call-grained model is the same step, in what it stores and when it is retried |
| `StaleStatus.CurrentCopyIsThePass` | internal/controller/agentgatewaysession_controller.go:729-740 | with a current copy the whole-status write is the pass's own |
| `StaleStatus.WritesStatusIff` | internal/controller/agentgatewaysession_controller.go:55-241 | which passes write the status, by what each finds and which calls fail |
| `StaleStatus.ForgetsIff` | internal/controller/agentgatewaysession_controller.go:83-88 | exactly when a pass erases the recorded namespace, the conflict of a copy without the finalizer included |
| `StaleStatus.StaleMintsWhen` | internal/controller/agentgatewaysession_controller.go:418-430 | exactly when a pass with an old copy mints for a recorded and ended session |
| `StaleStatus.NoResurrectionWhileRemembered` | internal/controller/agentgatewaysession_controller.go:395-430 | over every run in which no copy is from before the first record, no key comes back |
| `StaleStatus.OldCopyResurrects` | internal/controller/agentgatewaysession_controller.go:729-740 | a Ready and recorded session ends, and a pass with a copy from before the record mints again; one from before the finalizer fails |
| `StaleWrites.EnsuredIff` | internal/controller/ratelimit.go:355-390 | a successful create-or-update leaves what was wanted exactly when its read found the object, or there was none, or it held that already |
| `StaleWrites.DefaultsStoredIff` | internal/controller/policy.go:165-190 | the row and the fallback of a successful platform pass are both the default exactly when neither read missed an object holding another |
| `StaleWrites.OlderRowKept` | internal/controller/ratelimit.go:370-380 | a lowered default with a stale absent read of the row leaves row and fallback disagreeing |
| `StaleWrites.ModelStoredIff` | internal/controller/agentgatewaycatalog_controller.go:288-319 | the same for the spec and label of a model |
| `StaleWrites.CurrentModelAgrees` | internal/controller/agentgatewaycatalog_controller.go:288-319 | with a current read it is the render's own write |
| `StaleWrites.OlderModelKept` | internal/controller/agentgatewaycatalog_controller.go:300-302 | a stale absent read leaves the older model and reports success |
| `Sync.InvHolds` | internal/controller/agentgatewaysession_controller.go:610-818 | every call-grained step keeps the invariant tying each session no listing lost to the queue, to a pass on data not yet passed over, or to a fresh entry |
| `Sync.ListedSelectsWoken` | internal/controller/agentgatewaysession_controller.go:788-818 | a delivery whose listings work wakes exactly the grants selected on either object |
| `Sync.ListedLosesNothing` | internal/controller/agentgatewaysession_controller.go:788-818 | while every listing works no delivery loses a session |
| `Sync.EditsLand` | internal/controller/agentgatewaysession_controller.go:763-818 | in every reachable state, with events delivered, each registered session is queued, in a pass, or carries exactly the current catalog's entry, unless a failed listing lost it and nothing queued it since; unless a platform pass is owed the shared row and the fallback are the effective default |
| `Sync.ListedEditsLand` | internal/controller/agentgatewaysession_controller.go:763-818 | with every listing working that holds of every session |
| `Sync.DrainedEnforces` | internal/controller/ratelimit.go:112-165 | once drained, for every session no listing lost, what the gateway enforces from the stored registration, policy and row is the resolver's answer, within every readable maximum |
| `Sync.StepKeepsPlatform` | internal/controller/policy.go:138-190 | the row and the fallback written by a platform pass stay accounted for |
| `Sync.UnlistedEditLandsWhen` | internal/controller/agentgatewaysession_controller.go:788-818 | over any backlog, with any listings failing, the edits land on a settled session exactly when the pins stay or a listing that worked selected the grant |
| `Sync.EditAndStatusLandIff` | internal/controller/agentgatewaycatalog_controller.go:377-386 | for one edit and its status write, which of the four listings reach the grant |
| `Progress.QuietPassSettles` | internal/controller/agentgatewaysession_controller.go:55-241 | one undisturbed pass leaves the entry of the catalog version it read under the key it found or minted, and takes its key off the queue unless it minted |
| `Progress.PlatformSettles` | internal/controller/agentgatewayplatform_controller.go:120-204 | one undisturbed platform pass writes the default of the version it reads into each place |
| `Progress.WorkFalls` | internal/controller/agentgatewaysession_controller.go:55-241 | a measure of what is outstanding falls with every working step that does anything |
| `Progress.EveryRunDrains` | internal/controller/agentgatewaysession_controller.go:55-241 | every run of working steps that do something is no longer than that measure, and where none is left to do everything is drained |
| `Progress.IdleIffQuiet` | internal/controller/agentgatewaysession_controller.go:743-767 | no working step does anything exactly where nothing is outstanding |
| `Progress.DrainsIffPlatformOwed` | internal/controller/ratelimit.go:50-93 | the states from which working steps bring everything to rest, catalog status writes to come included; from the others no run does, failing calls included |
| `Progress.PassEnds` | internal/controller/agentgatewaysession_controller.go:55-241 | a pass whose calls work ends from any stage, on whatever data it holds |
| `Progress.DroppedPassIsReached` | internal/controller/ratelimit.go:50-64 | the stuck state is reached from a start by one failing step |
| `Progress.RemovedDefaultIsMissed` | internal/controller/agentgatewaysession_controller.go:788-818 | from a start, one failed listing of four leaves a removed default cost pinned with nothing queued |
| `Teardown.SessionTeardown.GatewayNamespaceForTeardown` | internal/controller/agentgatewaysession_teardown.go:101-133 | when the lookup fails, when it answers that nothing is left to clean, and which namespace it answers otherwise |
| `Teardown.SessionTeardown.RemoveRegistration` | internal/controller/agentgatewaysession_teardown.go:136-150 | the registration is gone exactly when the removal worked |
| `Teardown.SessionTeardown.ReleaseFinalizer` | internal/controller/agentgatewaysession_teardown.go:153-175 | the new state and the outcome of each way the grant's calls end |
| `Teardown.SessionTeardown.ReconcileDelete` | internal/controller/agentgatewaysession_teardown.go:35-95 | a whole teardown pass, whichever calls fail |
| `Teardown.ReleasesWhen` | internal/controller/agentgatewaysession_teardown.go:35-95 | with working platform, namespace and grant calls the finalizer goes exactly when there is nothing to clean, the removal worked, or the window is over |
| `Teardown.TeardownEndsAs` | internal/controller/agentgatewaysession_teardown.go:35-175 | exactly how each teardown pass ends and what it leaves, whichever calls fail |
| `Teardown.RetriesBounded` | internal/controller/agentgatewaysession_teardown.go:70-95 | at most ceil(timeout / 15 s) passes of one deletion ever ask for a retry |
| `Teardown.ReleasedInTime` | internal/controller/agentgatewaysession_teardown.go:70-95 | passes on schedule release less than one delay after the window closes |
| `Orphans.InvHolds` | internal/controller/agentgatewayplatform_teardown.go:63-89 | every step of sessions, platform and namespace keeps the ownership invariant |
| `Orphans.NoOrphans` | internal/controller/agentgatewaysession_teardown.go:35-133 | a registration in an active gateway namespace belongs to a grant holding its finalizer, or was left by the last release of its name, after the window; no platform means no active namespace |
| `Orphans.WriteAgrees` | internal/controller/agentgatewaysession_controller.go:666-705 | its writing step leaves a registration exactly when the session pass's own does |
| `Orphans.TeardownAgrees` | internal/controller/agentgatewaysession_teardown.go:35-95 | its three teardown steps together are one teardown pass |
| `Orphans.OrphanedWithoutDrain` | internal/controller/agentgatewaysession_teardown.go:101-107 | without the platform's drain, teardown would leave the registration behind |
| `Expiry.IsExpired` | internal/controller/agentgatewaysession_expiry.go:146-181 | true exactly when there is an entry and every one reads, is dated and is past |
| `Expiry.Sweeper.Sweep` | internal/controller/agentgatewaysession_expiry.go:95-143 | the registrations left by a sweep, some deletions failing and others rewriting between the listing and the deletions |
| `Expiry.UnracedSweep` | internal/controller/agentgatewaysession_expiry.go:95-143 | left alone, it takes exactly what has expired and can be deleted |
| `Expiry.TakesLiveIff` | internal/controller/agentgatewaysession_expiry.go:117-132 | a live registration is taken exactly when an expired one was rewritten after the listing |
| `Expiry.RewriteTakenIff` | internal/controller/agentgatewaysession_expiry.go:117-132 | such a rewrite is taken while live exactly when its grant's expiry is still to come |
| `Expiry.UnchangedGrantIsSafe` | internal/controller/agentgatewaysession_controller.go:712-727 | a pass over an unchanged grant never loses a live registration to the sweep |
| `Expiry.RecreatedGrantIsTaken` | internal/controller/agentgatewaysession_expiry.go:117-132 | a grant created anew under an expired name does |
| `Expiry.SweepLeaves` | internal/controller/agentgatewaysession_expiry.go:95-181 | without delete errors a registration stays exactly when it is empty or some entry is live, unreadable or undated |
| `Expiry.DateNeverMoves` | internal/controller/agentgatewaysession_controller.go:712-727 | the date is creation plus the authored lifetime, or four hours, in every pass, so reconciling never postpones the sweep |
| `Expiry.ExposureBounded` | internal/controller/agentgatewaysession_expiry.go:74-143 | with complete sweeps at most a gap apart, no readable and fully expired registration outlives the later of its expiry and its writing by more than the gap |
| `Helm.LastDeployedRevision` | internal/helm/client.go:177-206 | the highest deployed or superseded revision, found exactly when there is one, whatever the order of the listing |
| `Helm.Client.EnsureRelease` | internal/helm/converge.go:55-113 | a whole pass over the history, however each action ends |
| `Helm.ConvergeKeepsOrdered` | internal/helm/converge.go:55-113 | however its actions end, a pass leaves revisions that count up, so passes chain |
| `Helm.PassPays` | internal/helm/converge.go:55-178 | the measure: every revision a pass records is paid for |
| `Helm.RevisionsBounded` | internal/helm/converge.go:55-178 | any run of passes over an owned history with unchanged inputs records at most two revisions, and stays owned |
| `Helm.PassKeepsOwned` | internal/helm/client.go:222-231 | an owned release stays owned through every action |
| `Helm.ForeignUntouched` | internal/helm/converge.go:119-130 | a release of somebody else's is left exactly as it is |
| `Helm.IdleAnswers` | internal/helm/converge.go:119-156 | for each answer of a pass that leaves the store alone, exactly which record and which reads give it |
| `Helm.ActingAnswers` | internal/helm/converge.go:60-178 | the same for each answer of a pass that acted: deployed is only upgraded, pending rolled back and failed upgraded in place while a revision is usable, reinstalled only when none is |
| `Helm.UsableIsKept` | internal/helm/converge.go:156-178 | however its actions end, no pass loses the last usable revision |
| `Helm.OneDeployedIsKept` | internal/helm/client.go:103-173 | at most one revision is ever deployed |
| `Helm.FailuresOnlyAdd` | internal/helm/client.go:129-173 | a failed upgrade or rollback adds a failed record and leaves usable ones usable |
| `Helm.StuckRemovalWaits` | internal/helm/converge.go:119-156 | a repair whose removal got stuck leaves a release the next pass waits for |
| `Helm.TwoPassesConverge` | internal/helm/converge.go:119-178 | with working actions two passes leave the wanted chart and values deployed on record exactly when the release was not held, waiting, refused or unusable, each said of the record itself |
| `Models.Reconciler.ApplyModel` | internal/controller/agentgatewaycatalog_controller.go:288-319 | creates, or replaces the spec and keeps the other labels |
| `Models.Reconciler.RenderModels` | internal/controller/agentgatewaycatalog_controller.go:144-154 | a whole render: the finished store, or exactly the writes made before the first failure |
| `Models.Reconciler.PruneModels` | internal/controller/agentgatewaycatalog_controller.go:172-201 | only strays go, all of them unless a deletion fails |
| `Models.ManagedNamesAreThePairs` | internal/controller/agentgatewaycatalog_controller.go:144-201 | from any prior store the managed names are exactly a pair for each entry |
| `Models.OtherLabelsStay` | internal/controller/agentgatewaycatalog_controller.go:288-319 | a model that is rendered or taken over keeps every label but the operator's |
| `Models.ResolvesUnlessALaterNameCollides` | internal/controller/agentgatewaycatalog_controller.go:203-286 | an entry resolves to its provider, model, credential and address exactly when no later name collides |
| `Models.AllResolveIffNoneCollide` | internal/controller/agentgatewaycatalog_controller.go:203-286 | the whole catalog resolves exactly when no name is another's plus the suffix |
| `Models.SuffixedNameWins` | internal/controller/agentgatewaycatalog_controller.go:203-286 | of "m" and "m-upstream" only the one listed later resolves |
| `Models.HandWrittenIsDeleted` | internal/controller/agentgatewaycatalog_controller.go:172-201 | a hand-written model is taken over by one catalog and deleted by the next |
| `Models.RenderTwiceIsRenderOnce` | internal/controller/agentgatewaycatalog_controller.go:144-201 | a second pass changes nothing |
| `Models.InterruptionLeavesNoTrace` | internal/controller/agentgatewaycatalog_controller.go:144-201 | whatever a cut-short pass left, the next complete one ends where an undisturbed one would |
| `Models.HandWrittenSurvivesIff` | internal/controller/agentgatewaycatalog_controller.go:172-201 | over any run of catalogs a hand-written model is untouched exactly when none asks for its name |
| `Overlay.Document.ApplyAdminAddr` | internal/controller/gateway_objects.go:259-286 | the edited document, or failure, for any document at all |
| `Overlay.Document.ApplyAdminServicePort` | internal/controller/gateway_objects.go:191-230 | the same for the port list, order kept |
| `Overlay.Document.ApplyAdminInterface` | internal/controller/gateway_objects.go:169-174 | both halves, or failure |
| `Overlay.Parameters.Ensure` | internal/controller/gateway_objects.go:127-159 | a pass over the stored overlay; any failure stores nothing |
| `Overlay.SetAddrIs` | internal/controller/gateway_objects.go:259-265 | the nested write is the level-by-level description |
| `Overlay.ClearAddrIs` | internal/controller/gateway_objects.go:267-285 | so is the removal with its two prunings |
| `Overlay.ServicePortIs` | internal/controller/gateway_objects.go:198-229 | so is the port list's read, filter and write |
| `Overlay.SwitchedOn` | internal/controller/gateway_objects.go:169-286 | the address is set and exactly one port is the admin port, after the others in order |
| `Overlay.SwitchedOff` | internal/controller/gateway_objects.go:169-286 | neither half is left, the others keep their order |
| `Overlay.KeptPorts` | internal/controller/gateway_objects.go:204-218 | exactly the ports numbered 15000 are dropped, whatever else they say |
| `Overlay.KeptInOrder` | internal/controller/gateway_objects.go:204-218 | and the rest keep their order |
| `Overlay.EditsAreFramed` | internal/controller/gateway_objects.go:169-286 | every other path reads as before |
| `Overlay.EnablingTwice` | internal/controller/gateway_objects.go:169-286 | enabling twice is enabling once |
| `Overlay.RestoredIff` | internal/controller/gateway_objects.go:169-286 | disabling after enabling restores the document exactly when it was reversible |
| `Overlay.OwnPortIsLost` | internal/controller/gateway_objects.go:191-230 | an author's own port 15000 is gone after switching on and off |
| `Overlay.LastSettingWins` | internal/controller/gateway_objects.go:127-159 | after any run of settings the overlay is what the last alone makes of the original |
| `Overlay.PassPinsType` | internal/controller/gateway_objects.go:127-159 | every pass that stores anything stores a ClusterIP Service and leaves every path that is not the operator's as it reads |
| `Drain.Drainer.ReconcileDelete` | internal/controller/agentgatewayplatform_teardown.go:27-206 | where a pass may stop, exactly when the finalizer goes, and exactly when it is left without an error |
| `Drain.Drainer.LeftQuietly` | internal/controller/agentgatewayplatform_teardown.go:196-200 | with every call working and the platform unreadable the pass succeeds over a standing finalizer |
| `Drain.Drainer.DrainConfiguration` | internal/controller/agentgatewayplatform_teardown.go:93-126 | which calls it makes and what is left when one fails |
| `Drain.Drainer.DrainModels` | internal/controller/agentgatewayplatform_teardown.go:145-162 | labelled models only, one call each, any of them failing |
| `Drain.PassEffect` | internal/controller/agentgatewayplatform_teardown.go:63-162 | one pass adds nothing, leaves what is not the operator's, and releases only after everything |
| `Drain.OwnedNeverGrows` | internal/controller/agentgatewayplatform_teardown.go:63-162 | over any run of partly failing passes nothing the operator owns comes back |
| `Drain.ReleasedOnlyWhenDrained` | internal/controller/agentgatewayplatform_teardown.go:63-89 | a run that released the finalizer left no policy, Gateway, overlay, labelled model, release or undeleted namespace |
| `Drain.ForeignOutlivesTheDrain` | internal/controller/gateway_objects.go:480-502 | foreign models, an unlabelled legacy Gateway and other releases survive every drain step |
| `Drain.DrainedInReverseOrder` | internal/controller/agentgatewayplatform_teardown.go:63-89 | when one thing is gone, everything installed after it is gone too |

## Left out

- Kubernetes clients, watches, caches and discovery as code; the model has their outcomes. An object kind whose definition is missing counts as a kind with no objects.
- `status.effectiveTokenBudget` and the conditions: inheriting grants are not woken, so they need not follow reality after every event.
- Session.Cluster.EnsureSecret: nobody else writes the Secret during the pass, so a create never finds one there; the lost create, the re-read after it and the key then handed on are in `Staleness.RegisteredHashIsStoredIff`.
- Lifecycle.NoResurrection: passes are atomic there, so it says nothing of a namespace that vanishes between the ending check and the owner lookup of one pass; stale copies of the grant are in `StaleStatus`.
- Sync.EditsLand: grants whose deletion has begun, sessions whose namespace has ended, and passes of a catalog that is not Ready are not modelled; stale reads of registrations, the row and the policy are in `Staleness` and `StaleWrites`.
- Helm.RevisionsBounded: a crash inside an action and any other writer of the release are excluded.
- Models.Reconciler.RenderModels: reads of the store are current. The constant parts of a model object, its parent reference and visibility, are fixed by its kind.
- Models.DistinctNames: repeated names within one catalog are excluded by the CRD's list key.
- Drain.ReleasedOnlyWhenDrained: a change of provider in the middle of a teardown is not modelled, nor is draining a bundled release after such a switch.
- `ensureListenerRouteKinds` and the parameters reference of the Gateway: each sets one field of an object the operator made and decides nothing that the modelled parts depend on.
- External-provider reconciliation, rendering of Deployments and Services, condition wording, admission markers and charts.
- A monotone charge: a free model costs 1000 micro-dollars and a model at one micro-dollar costs 1, so only a charge of at least 1 is claimed.
