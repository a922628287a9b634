# Verified model of the GSV command-line client

GSV's command-line client deploys a set of Cloudflare Workers (a gateway, the
`ripgit` worker and channel adapters), talks to the deployed gateway over one
WebSocket connection, installs itself as a system service and logs users in.
This project models four parts of that client in Dafny and proves what every
run of them keeps. The network, the file system, the terminal and the clock are
parameters with arbitrary answers, so each theorem ranges over every pattern of
failures.

- **Deploying** (`Naming`, `Bindings`, `GatewayPatch`, `Migrations`, `Deploy`,
  `DeployProperties`, `LinkNames`, `DeployRuns`, `Purge`, `Retry`, `Install`, with `Sorting`). Workers bind
  each other in a cycle, but a binding may only name a worker that exists, so a
  deploy uploads everything twice; an adapter-only deploy patches the live
  gateway instead. The main results: every service binding of every upload
  targets a worker that exists; a successful deploy leaves every selected adapter
  and its gateway linked both ways, and a name resolves to that link exactly when
  no other binding takes it; the final bindings do not depend on the upload
  order; the worker loaders of CodeMode follow the user's preference in every
  run; migration steps are accepted once, over one deploy and, but for one exactly
  described case, over any number of releases; worker names of different instances never collide; replacing a
  bundle never loses the last good one, whichever calls fail; a purge
  accounts for every object and ends against any server with finitely many cursors.
- **The connection** (`Connection`). A table of waiters shared by senders, a
  writer task, a reader task, timeouts and drains is a state machine whose steps
  are the critical sections. The invariants hold over all interleavings, and
  a waiting request can still be answered if and only if it is not in the table
  after both drains.
- **Printers** (`WindowsQuoting`, `Escaping`, `LogFollow`). Every list of
  arguments survives the Windows command line, the chained replacements are
  single-pass substitutions with inverses, and following a log never skips.
- **Authentication** (`Auth`). The nested setup and login retries are bounded,
  the bounds are tight, and every rerun has a cause.

Code that works in steps appears twice: as a method or a class with the source's
loops and assignments, and as a function on values which the method is proved
equal to and which the lemmas are about. `Common` and `Json` hold the shared
value types.

Some statements one might expect are false of the code. In each case the exact
condition is proved, and where that does not show it by itself, a concrete input
on which the statement fails:

- A full teardown of instance `i` deletes the gateway of an instance named
  `i-assembler`, because `-assembler` is not a reserved suffix
  (`Naming.TeardownIsolation`, `Naming.AssemblerInstanceIsHit`).
- `--force` deletes the installed bundle before the new file's checksum is
  looked at (`Install.LocalInstallKeepsOldBundle`, `Install.ForceLosesBundle`).
- A request may pass the flag check, register its waiter after the drains and
  never be answered. It can still be answered exactly while one drain is to come
  or its frame is there (`Connection.AnswerableExactly`). There are two ways in:
  after both drains nothing resolves the waiter
  (`Connection.WindowIsReachable`, `Connection.StuckForever`); and after the
  reader's drain alone, with a writer that still works, nothing does until a
  write fails, although no new request is accepted
  (`Connection.ReaderWindowIsReachable`, `Connection.StuckUntilAWriteFails`).
- A script first deployed with an inferred migration is at tag `auto-v1`; steps of
  its first explicit list up to one with that tag are never sent
  (`Migrations.AllSentExactlyWithoutAutoTag`, `Migrations.AutoTagHidesSteps`).
- A migration list whose last tag is repeated is sent again
  (`Migrations.RedeploySendsNothing`, `Migrations.RepeatedTagIsSentTwice`).
- An object whose deletion worked but was answered only to the retry, as not
  found, is not counted. The count is right exactly when, of the deletions that are
  reached, the first one of each object tells whether it removed it
  (`Purge.PurgeCountsExactly`, `Purge.LostReplyIsNotCounted`).
- Doubling the ASCII quote is not enough for a PowerShell literal, since
  PowerShell also accepts typographic quotes (`Escaping.PowershellRoundTrip`,
  `Escaping.TypographicQuoteBreaksLiteral`).
- A search path with a line break does not survive the systemd unit file, and one
  with a carriage return or a character outside XML not the launchd file
  (`Escaping.SystemdLineRoundTrip`, `Escaping.XmlReadsBackExactly`).
- A log file that cannot be looked at for a moment is printed again from its start
  (`LogFollow.RepeatsExactlyWhenOvertaken`).
- The retry delay is monotone only up to attempt 2^32
  (`Retry.DelayMonotoneExactlyUpTo`).

## Model

| member | source | states |
|---|---|---|
| Deploy.Account.UploadWorkerScript | cli/src/deploy.rs:3229-3288 | One upload is answered and recorded; an accepted one changes the account, and so does a refused one that an earlier try had applied. |
| Deploy.Account.UploadFirst | cli/src/deploy.rs:3231-3384 | The first pass in place, with growing available scripts and the CodeMode fallback, is the specified first pass. |
| Deploy.Account.UploadSecond | cli/src/deploy.rs:3386-3426 | The second pass in place is the specified second pass: no migrations, available scripts fixed. |
| Deploy.Account.ReconcileExistingGateway | cli/src/deploy.rs:1625-1655 | Patching the live gateway changes its bindings to what the patch means, or nothing at all, whether or not the reply says so. |
| Deploy.Account.ApplyDeploy | cli/src/deploy.rs:3110-3463 | The whole deploy, with its preliminary errors in order and the URL it returns, is the specified one. |
| Deploy.PrepareBundles | cli/src/deploy.rs:3119-3230 | The checks and loops before the first upload yield the specified bundles or the first error. |
| Deploy.BindingFields | cli/src/deploy.rs:2988-3016 | An uploaded service has exactly the name, type, target, environment and entrypoint of the configured one, and a loader exactly its name and type. |
| DeployRuns.UploadsAreExplained | cli/src/deploy.rs:3228-3426 | After the uploads of any run, failed or not, each log entry is what was sent, to the right worker and to the account as it then was, and each script is what the last upload applied to it made it. |
| DeployRuns.UploadsFailExactly | cli/src/deploy.rs:3231-3426 | The uploads fail if and only if a bundle is not ready, or some upload was neither accepted nor the one loader rejection that Auto falls back from. |
| DeployRuns.EveryBundleTwiceInOrder | cli/src/deploy.rs:3231-3426 | Uploads that do not fail get every bundle accepted once in each pass, in order, the first pass before the second. |
| DeployRuns.PrepareRefusesBecause | cli/src/deploy.rs:3119-3212 | The error of a refused deploy names the first reason in the order of the checks, and the first component it holds for. |
| DeployRuns.DeployAnswers | cli/src/deploy.rs:3228-3442 | A deploy past its checks answers that an upload failed if and only if the log or the bundles say so, and otherwise the fault of the live settings, annotations or patch. |
| DeployProperties.EveryTargetExists | cli/src/deploy.rs:3157-3426 | In every run, failed or not, available scripts exist in the account and every service binding of every upload targets a worker that existed when it was sent. |
| DeployProperties.OtherInstancesUntouched | cli/src/deploy.rs:3110-3442 | No run of one instance's deploy creates, removes or changes a worker of another instance. |
| DeployProperties.PrepareYields | cli/src/deploy.rs:3131-3156 | What is uploaded is one bundle per selected component, each supported and with its own configuration, in deploy order, and without repetition if the selection has none. |
| DeployProperties.SecondPassBinds | cli/src/deploy.rs:3386-3426 | After a complete second pass every uploaded worker has the bindings computed from all available scripts. |
| DeployProperties.FinalBindingsIgnoreOrder | cli/src/deploy.rs:3383-3426 | For any order of the bundles, the final bindings are determined by the set of existing and selected workers. |
| DeployProperties.UploadedAdapterIsLinked | cli/src/deploy.rs:3383-3426 | After the uploads each selected adapter binds its instance's gateway, and an uploaded gateway binds the adapter. |
| DeployProperties.ReconciledSideBinds | cli/src/deploy.rs:3428-3442 | A gateway patched in place binds every selected adapter, and no other worker changes. |
| DeployProperties.DeployLinksBothWays | cli/src/deploy.rs:3110-3442 | After a successful deploy every selected adapter has a binding with the fields of a link to its instance's gateway, and that gateway one to the adapter's worker, however it was brought up to date. |
| LinkNames.MetadataResolvesExactly | cli/src/deploy.rs:2954-3043 | A name with a service has exactly one binding, saying what the service says, if and only if no other kind of binding in the upload has the name. |
| LinkNames.DeployResolvesBothWays | cli/src/deploy.rs:3110-3442 | After a successful deploy the adapter's `GATEWAY` and the gateway's name for the adapter have exactly one binding, the wanted one, if and only if the name is free in the uploaded configuration; a gateway patched in place always resolves the adapter. |
| LinkNames.ConfiguredServiceResolves | cli/src/deploy.rs:2496-2530 | After a successful deploy a service configured for the default instance's worker of a component resolves to this instance's worker of it, the rest kept, if and only if no other kind of binding takes the name. |
| LinkNames.GatewayResolvesItsRipgit | cli/src/deploy.rs:3141-3156 | In particular a deployed gateway's ripgit service resolves to the instance's own ripgit. |
| LinkNames.GatewayBindsEveryExistingAdapter | cli/src/deploy.rs:3110-3442 | A successful deploy of the gateway binds every adapter worker of its instance that exists, selected or not, and exactly those when their names are not taken otherwise. |
| DeployProperties.ReportedUrlIsTheGateways | cli/src/deploy.rs:3444-3462 | A URL is returned if and only if the gateway was deployed and the subdomain is known; it is on workers.dev and names the instance's gateway. |
| DeployProperties.WorkersDevDomainOf | cli/src/deploy.rs:1806-1817 | The domain is the subdomain without surrounding whitespace and trailing dots, on workers.dev, which is not added twice. |
| DeployProperties.PrepareSucceedsExactly | cli/src/deploy.rs:3119-3156 | The checks pass if and only if something is selected, the scripts are listed, every component has a name and a bundle, adapters have a gateway, a selected gateway has its ripgit, and the buckets are there. |
| DeployProperties.ReconcileSucceedsExactly | cli/src/deploy.rs:1625-1655 | Patching the live gateway succeeds if and only if its settings are fetched and list its bindings, their names are distinct, and the patch is not needed or has well-formed annotations and is accepted. |
| DeployProperties.DeploySucceedsExactly | cli/src/deploy.rs:3110-3442 | With the checks passed, assets synchronised and all uploads accepted, a deploy succeeds if and only if the gateway it leaves in place, if it must be linked, can be brought up to date. |
| DeployProperties.CodemodeIsConsistent | cli/src/deploy.rs:3289-3399 | In a successful gateway deploy both passes agree on the loaders; On always sends them, Off never, Auto exactly on a paid plan without a rejection, and at most one rejection occurs. |
| DeployProperties.EveryUploadFollowsPreference | cli/src/deploy.rs:3158-3399 | In every run, failed or not, every gateway upload has loaders under On and none under Off; under Auto they need a paid plan and are dropped on one only after a rejection; no other worker loses its loaders. |
| DeployProperties.MigrationsAcceptedOnce | cli/src/deploy.rs:3243-3399 | Two passes and a possible fallback get each worker's migration steps accepted exactly once. |
| DeployProperties.DeployMigratesOnce | cli/src/deploy.rs:3110-3442 | A successful deploy leaves each selected worker with the steps and the tag of exactly one migration. |
| Bindings.BindingList.Reconcile | cli/src/deploy.rs:2532-2554 | The in-place edit replaces the first binding of the name or appends one. |
| Bindings.ServiceBindingsForBundle | cli/src/deploy.rs:2496-2530 | The loop over configured bindings yields the rescoped bindings whose targets are available, in order. |
| Bindings.ReconcileSetsOne | cli/src/deploy.rs:2532-2554 | Reconciling sets the named binding, leaves every other name's binding alone and keeps names unique. |
| Bindings.RetargetedLookup | cli/src/deploy.rs:2514-2527 | A name resolves to its rescoped binding when the target is available, and to nothing when it is not and names are unique. |
| Bindings.RetargetedNames | cli/src/deploy.rs:2514-2527 | Filtering invents no name and keeps names unique. |
| Bindings.TargetsAvailable | cli/src/deploy.rs:2514-2527 | Every binding that is kept targets an available worker. |
| Bindings.ReconcileKeepsPlaces | cli/src/deploy.rs:2532-2554 | The first binding of the name is replaced where it stands, or one is appended. |
| Bindings.RetargetedConcat | cli/src/deploy.rs:2514-2527 | Rescoping works binding by binding, in order. |
| Bindings.RetargetedOne | cli/src/deploy.rs:2514-2527 | Rescoping changes nothing in a binding but its target. |
| Bindings.ConfiguredServiceIsUploaded | cli/src/deploy.rs:2496-2530 | Every name that is not injected is uploaded with its configured environment and entrypoint and its target rescoped, if that target is available. |
| Bindings.AdapterTargetIsInstanceScript | cli/src/deploy.rs:132-148 | Bundled targets are rescoped to the instance's own adapter and gateway workers. |
| Bindings.AdapterBindsGateway | cli/src/deploy.rs:2496-2530 | An adapter's upload binds its own instance's gateway through the public entrypoint whenever that gateway is available. |
| Bindings.GatewayBindsAdapter | cli/src/deploy.rs:2496-2530 | A gateway's upload binds each available adapter with its entrypoint, and with unique names no unavailable one. |
| GatewayPatch.PatchExisting | cli/src/deploy.rs:1472-1516 | The loop over live bindings yields the specified entries, or the first fault in list order. |
| GatewayPatch.GatewayAdapterBindingPatch | cli/src/deploy.rs:1443-1524 | The patch as computed with a map and a vector is the specified patch, including its errors. |
| GatewayPatch.UpToDateIsNoPatch | cli/src/deploy.rs:1443-1524 | There is nothing to patch if and only if names are unique and every wanted binding is there as wanted. |
| GatewayPatch.NothingToPatchExactly | cli/src/deploy.rs:1464-1523 | There is nothing to patch if and only if every binding has its own non-blank name and each selected adapter's name has one binding, whose type, service, entrypoint and environment fields link to the instance's own worker. |
| GatewayPatch.ReconcileChangesOnlySelected | cli/src/deploy.rs:1443-1524 | Field by field: bindings that are not a selected adapter's stay as and where they are, only selected adapters' are added, and each selected adapter's name has one link to its own worker. |
| GatewayPatch.MatchesExactly | cli/src/deploy.rs:1503-1506 | A live binding counts as wanted if and only if type, service and entrypoint are the wanted strings and the environment is missing or null. |
| GatewayPatch.NameOfExactly | cli/src/deploy.rs:1484-1493 | A binding has a usable name if and only if the name is a string with something but whitespace in it. |
| GatewayPatch.FaultIsFirst | cli/src/deploy.rs:1483-1500 | Of several faults the first in list order is reported, a missing name with its index. |
| GatewayPatch.SortedBindingsAscend | cli/src/deploy.rs:1518-1521 | Missing bindings are added in the order of their names. |
| GatewayPatch.PatchedIsUpToDate | cli/src/deploy.rs:1443-1524 | Applying a patch, where inherit keeps the live binding, yields unique names and every wanted binding. |
| GatewayPatch.ReconcileReachesFixedPoint | cli/src/deploy.rs:1443-1524 | Every unselected binding stays unchanged at its index, only selected names are added, and recomputing the patch gives none. |
| GatewayPatch.ReconciledGatewayBinds | cli/src/deploy.rs:1625-1655 | After reconciling, the gateway binds every selected adapter's worker with its entrypoint. |
| GatewayPatch.ReconcileFailsExactlyOnBadLists | cli/src/deploy.rs:1464-1500 | Reconciling fails if and only if the live list is missing, has an unnamed binding or a repeated name. |
| GatewayPatch.WritableVersionAnnotations | cli/src/deploy.rs:1526-1556 | The loop over the writable annotations collects the specified ones or names the first malformed one. |
| GatewayPatch.AnnotationsAreCopied | cli/src/deploy.rs:1526-1556 | Collecting fails if and only if annotations are malformed; otherwise exactly the writable ones that are set are sent, unchanged. |
| Naming.NormalizedIsValid | cli/src/deploy.rs:159-184 | Normalising an instance name is idempotent: what is returned is itself accepted. |
| Naming.AcceptedExactly | cli/src/deploy.rs:159-184 | A text is accepted as a name if and only if it is that name in any case with whitespace around it, and the name is made of the allowed characters and not reserved. |
| Naming.RefusedBecause | cli/src/deploy.rs:159-184 | Which error a refused text is given. |
| Naming.TrimOf | cli/src/deploy.rs:160-160 | Trimming removes the whitespace around a text and nothing else. |
| Naming.ValidNotReserved | cli/src/deploy.rs:159-184 | An accepted name is not empty, not `ripgit`, has no dash at an end and no reserved suffix. |
| Naming.NormalizeComponents | cli/src/deploy.rs:691-717 | All components when none is named, otherwise each once at its first mention, and an error naming the first unknown one. |
| Naming.DeduplicatedIsDistinct | cli/src/deploy.rs:699-714 | The normalised list has no repetition and the same members. |
| Naming.FirstMentionsInOrder | cli/src/deploy.rs:699-714 | Components keep the order in which they are first mentioned. |
| Naming.ScriptNamesInjective | cli/src/deploy.rs:116-126 | Equal worker names of accepted instances mean equal instance and equal component. |
| Naming.ScriptNamesAre | cli/src/deploy.rs:116-126 | The gateway's worker is named after the instance, every other after instance and component, except the default instance's ripgit. |
| Naming.AdaptersAreFound | cli/src/deploy.rs:602-612 | An adapter is found by its component and by its default worker, which is the default instance's, and by nothing else. |
| Naming.ConfigServiceOfComponent | cli/src/deploy.rs:132-148 | For every component, the default instance's worker name is rescoped to this instance's worker of the same component. |
| Naming.OtherConfigServiceStays | cli/src/deploy.rs:132-148 | Every other target is left as it is. |
| Naming.TeardownCoversSelection | cli/src/deploy.rs:2280-2308 | A teardown deletes the selected components' workers, plus the legacy worker when all are selected, and nothing else. |
| Naming.GatewayIsDeletedLast | cli/src/deploy.rs:2268-2308 | Every other worker of a teardown is deleted before the gateway. |
| Naming.TeardownLabels | cli/src/deploy.rs:2293-2306 | Each entry of a teardown is labelled with the component whose worker it names. |
| Naming.TeardownIsInOrder | cli/src/deploy.rs:2291-2307 | A teardown has one entry per target, in deploy order. |
| Naming.OrderIsStrict | cli/src/deploy.rs:2268-2278 | The deploy order is ripgit, whatsapp, discord, telegram, assembler, gateway. |
| Naming.TeardownIsolation | cli/src/deploy.rs:2280-2308 | A teardown hits a worker of another instance if and only if it is a full one and that worker is the gateway of the instance named like the legacy worker. |
| Naming.AssemblerInstanceIsHit | cli/src/deploy.rs:73-78 | Instance `gsv-assembler` is accepted, and a full teardown of `gsv` deletes its gateway. |
| Sorting.SortByKeyCorrect | cli/src/deploy.rs:2291-2291 | Sorting by deploy order is sorted, a permutation and stable. |
| Migrations.PayloadSendsTheRest | cli/src/deploy.rs:2568-2621 | From the tag any prefix leaves, exactly the steps after that prefix are sent. |
| Migrations.PayloadCarriesTheRest | cli/src/deploy.rs:2562-2621 | From the tag a prefix leaves, each outstanding step is sent with exactly its own fields apart from the tag, between the old and the last tag. |
| Migrations.StrippedStep | cli/src/deploy.rs:2562-2566 | A step is sent with every field but the tag unchanged, and only if it is an object. |
| Migrations.StripSkipsOthers | cli/src/deploy.rs:2577-2580 | Entries that are not objects are left out. |
| Migrations.NoTagNoMigration | cli/src/deploy.rs:2572-2576 | A list that is empty or whose last step has no tag migrates nothing. |
| Migrations.InferredCreates | cli/src/deploy.rs:2623-2645 | The inferred step names each class once, in ascending order, and does nothing else. |
| Migrations.UnknownTagSendsEverything | cli/src/deploy.rs:2608-2614 | A current tag the list does not know makes the whole list be sent. |
| Migrations.EveryStepOnce | cli/src/deploy.rs:2556-2645 | Over any run of deploys of lists that extend one another with distinct tags, the inferred step, if any, is sent and then each step once and in order, except those up to the inferred tag in the first explicit list. |
| Migrations.EveryStepArrives | cli/src/deploy.rs:2556-2645 | Over any such run the k-th step sent has exactly the fields of the k-th outstanding step apart from the tag, after an inferred step that creates each class once, in ascending order. |
| Migrations.AllSentExactlyWithoutAutoTag | cli/src/deploy.rs:2585-2645 | Every step of the last list is sent if and only if no migration was inferred or the first explicit list has no step tagged `auto-v1`. |
| Migrations.AutoTagHidesSteps | cli/src/deploy.rs:2585-2645 | A run in which two steps of a list are never sent. |
| Migrations.RedeploySendsNothing | cli/src/deploy.rs:2585-2601 | Redeploying a current list sends nothing if and only if its last tag does not occur earlier. |
| Migrations.RepeatedTagIsSentTwice | cli/src/deploy.rs:2585-2607 | With a repeated tag a step is sent a second time. |
| Purge.PurgeBucketObjects | cli/src/deploy.rs:2210-2266 | The pagination loop ends against every server with finitely many cursors and leaves what the specification says. |
| Purge.PurgeConserves | cli/src/deploy.rs:2221-2263 | From any point of the loop, counted plus uncounted plus left is conserved and nothing is added. |
| Purge.PurgeCountsDeletions | cli/src/deploy.rs:2210-2266 | Objects before equal counted plus uncounted plus left, and nothing is uncounted when every reply tells whether the object was removed. |
| Purge.PurgeCountsExactly | cli/src/deploy.rs:2210-2266 | For every listing and every pattern of replies, objects before equal counted plus left if and only if, among the calls that are reached, the first deletion of each object in the bucket tells whether it removed it. |
| Purge.PurgeIsOneSweep | cli/src/deploy.rs:2221-2263 | Page by page, the loop deletes what one sweep over all listed keys deletes. |
| Purge.PurgeFailsExactly | cli/src/deploy.rs:2221-2263 | A purge is reported as failed if and only if the listing, followed along new cursors, answers an error, or the deletion of a listed key is given up. |
| Purge.LostReplyIsNotCounted | cli/src/deploy.rs:2193-2248 | A bucket is emptied and reported as nothing deleted. |
| Purge.PurgeFollowsListing | cli/src/deploy.rs:2221-2263 | A listing without a repeated cursor is followed to its end and exactly the listed keys are removed. |
| Purge.CompleteListingEmptiesBucket | cli/src/deploy.rs:2210-2266 | Such a purge empties the bucket if and only if the listing covers it, and counts all of it if and only if moreover the first deletion of each object tells. |
| Retry.DelayTable | cli/src/deploy.rs:1251-1254 | The delay doubles from 400 ms and is 5000 ms from the fifth step on, with a 32-bit exponent. |
| Retry.DelayMonotoneExactlyUpTo | cli/src/deploy.rs:1251-1254 | The delay is monotone on all attempts up to a bound if and only if the bound is at most 2^32. |
| Retry.TotalDelayBound | cli/src/deploy.rs:1264-1292 | The sleeps of one call sum to at most 6000 ms. |
| Retry.RetriedReplies | cli/src/deploy.rs:1243-1249 | Retried are status 429, every status 5xx and the transport errors of a timeout, connection, request or body. |
| Retry.SendWithRetry | cli/src/deploy.rs:1256-1299 | At most five requests, repeated only after retryable outcomes, the last reply is returned, and the trailing error never is. |
| Install.VersionRoot.ReplaceComponentDir | cli/src/deploy.rs:860-905 | Exchange, fallback through the backup and rollback, with every intermediate disk recorded, are the specified run. |
| Install.VersionRoot.InstallExtractedComponent | cli/src/deploy.rs:907-942 | Staging, replacing and removing the staging directory are the specified run. |
| Install.EveryStepIsSafe | cli/src/deploy.rs:860-942 | At every intermediate disk the component is the whole old or the whole new bundle, or the old one is complete at the backup path. |
| Install.InstallIsFailureSafe | cli/src/deploy.rs:907-942 | Success means exactly the new bundle is in place; failure means the old one is there or at the backup path, or there was none. |
| Install.WindowOnlyWithoutExchange | cli/src/deploy.rs:870-904 | The component path is ever empty if and only if the fallback without exchange is taken, and stays empty if and only if moving in and restoring both fail. |
| Install.SucceedsExactly | cli/src/deploy.rs:860-942 | The answer is success if and only if the new bundle was exchanged or moved into place. |
| Install.LeftBehindExactly | cli/src/deploy.rs:874-939 | The staged directory and the backup are left behind if and only if their removal was needed and not done, and for the backup, moving back too. |
| Install.LastGoodBundleSurvives | cli/src/deploy.rs:907-942 | Over any number of installs with any failures, the bundle of the last success is in place or at a backup path. |
| Install.LocalInstallKeepsOldBundle | cli/src/deploy.rs:976-1022 | A failing install from a local file keeps the old bundle if and only if it failed before or at the forced deletion, or the old directory was not seen. |
| Install.ForceLosesBundle | cli/src/deploy.rs:991-1012 | A bundle file with a wrong checksum and `--force` lose the installed bundle. |
| Install.InstallBundlesFromDir | cli/src/deploy.rs:976-1022 | The loop deals with the components in order, stops at the first failure and leaves the later ones alone. |
| Install.OnlyTheFailingComponentIsLost | cli/src/deploy.rs:976-1022 | Of all components of a command, one is left without a bundle if and only if it is the one the command stops at and its old directory was deleted under `--force`. |
| Install.DealtWithIsInPlace | cli/src/deploy.rs:976-1022 | A component dealt with successfully has the new bundle, or the old one if it was there and nothing was forced. |
| Connection.PendingRequests.FailAllPending | cli/src/connection.rs:80-101 | The drain empties the table and sends each waiter one failure of its own id, whatever the order. |
| Connection.Perform | cli/src/connection.rs:80-387 | The critical section a step runs on the shared table has exactly the step's effect on it. |
| Connection.Replay | cli/src/connection.rs:80-387 | Over any interleaving, the table updated in place section by section is the state machine's. |
| Connection.EveryRunKeepsInv | cli/src/connection.rs:157-387 | Every interleaving of senders, tasks, timeouts and drains keeps the invariant. |
| Connection.InsertedIdsArePartitioned | cli/src/connection.rs:80-387 | Inserted ids are the disjoint union of pending, answered, failed by a drain, timed out and unsent. |
| Connection.OneFrameEach | cli/src/connection.rs:183-188 | Each id is sent at most one frame, that frame carries its id, and it is what the request returns. |
| Connection.ResponseIsHandedOn | cli/src/connection.rs:183-188 | A response to a waiter in the table is handed to it as it came, and the waiter leaves the table. |
| Connection.ReturnedFrameIsTheFirstResponse | cli/src/connection.rs:183-357 | A request that returns an answer returns the content of the first response to it after its insertion, and one that returns a failure was failed by a drain. |
| Connection.OutcomesHaveCauses | cli/src/connection.rs:329-387 | Over every run a request times out only with a deadline, fails to be sent only after the writer stopped, and is given up only by its caller. |
| Connection.EndedStaysEnded | cli/src/connection.rs:329-387 | A request that has ended stays as it ended. |
| Connection.MessagesAreTakenInOrder | cli/src/connection.rs:147-170 | Until the writer stops, the channel holds at most 32 messages: those not yet taken, in the order they were handed over. |
| Connection.WaiterIsNeverDropped | cli/src/connection.rs:337-357 | A waiting request has its waiter in the table or its frame ready, so its channel is never closed under it. |
| Connection.ReturnedRequestsLeaveNoWaiter | cli/src/connection.rs:329-387 | A request that returned has nothing left in the table; only an abandoned call can. |
| Connection.FlagIsMonotone | cli/src/connection.rs:160-166 | Once set the disconnected flag stays set, and it is set before any waiter is failed. |
| Connection.DrainResolvesTheTable | cli/src/connection.rs:211-217 | A drain resolves exactly the waiters it finds, with code 503 and the writer's or the reader's message, and leaves the table empty. |
| Connection.AnswerableExactly | cli/src/connection.rs:157-387 | In any reachable state some continuation answers a waiting request if and only if it is not in the table after both drains. |
| Connection.WaitersAfterTheLastDrain | cli/src/connection.rs:360-387 | After both drains the table holds exactly the waiters inserted since and not cleaned up; each passed the flag check before the flag was stored. |
| Connection.StuckForever | cli/src/connection.rs:348-358 | A request without a deadline that is in the table after both drains keeps waiting in every continuation, unless its caller gives up. |
| Connection.StuckUntilAWriteFails | cli/src/connection.rs:178-217 | With only the reader drained, a waiter in the table is answered by no continuation without a failing write. |
| Connection.NothingArrivesWithoutAWriteFailure | cli/src/connection.rs:157-218 | With the reader drained, and the writer drained or unharmed, no frame is sent to a registered request until a write fails. |
| Connection.WindowIsReachable | cli/src/connection.rs:360-387 | An interleaving that ends in that window. |
| Connection.ReaderWindowIsReachable | cli/src/connection.rs:178-217 | An interleaving that leaves a waiter behind with a working writer. |
| WindowsQuoting.QuoteArgument | cli/src/device_service.rs:369-399 | The backslash-counting loop computes the specified quoted form. |
| WindowsQuoting.ScanQuotedBody | cli/src/device_service.rs:376-397 | Read by the C runtime from inside the quotes, the loop's output is the text it was given, up to the closing quote. |
| WindowsQuoting.CommandLineRoundTrip | cli/src/device_service.rs:369-406 | For every list of strings the C runtime reads the printed command line back as exactly that list. |
| WindowsQuoting.CommandLineInjective | cli/src/device_service.rs:401-406 | Different argument lists have different command lines. |
| WindowsQuoting.PlainExactly | cli/src/device_service.rs:370-399 | An argument is printed as it is if and only if it is not empty and has neither a blank nor a quote. |
| WindowsQuoting.InnerBackslashesStay | cli/src/device_service.rs:376-396 | A text without quotes and not ending in a backslash is put between quotes unchanged. |
| WindowsQuoting.CommandLineJoins | cli/src/device_service.rs:401-406 | Quoted arguments are joined by one space each. |
| Escaping.XmlEscapeIsSinglePass | cli/src/device_service.rs:291-298 | Five chained replacements equal one substitution per character. |
| Escaping.XmlRoundTrip | cli/src/device_service.rs:291-298 | Decoding the predefined entities restores every value. |
| Escaping.XmlEscapedHasNoMarkup | cli/src/device_service.rs:291-298 | No angle bracket and no quote survives. |
| Escaping.XmlReadsBackExactly | cli/src/device_service.rs:291-298 | An XML reader, with its line-end and character rules, restores the value if and only if it has no carriage return and no character outside XML. |
| Escaping.SystemdEscapeIsSinglePass | cli/src/device_service.rs:301-306 | Three chained replacements equal one substitution per character. |
| Escaping.SystemdRoundTrip | cli/src/device_service.rs:301-318 | Unquoting and resolving specifiers restores every value placed between double quotes on one line. |
| Escaping.SystemdLineRoundTrip | cli/src/device_service.rs:301-318 | The unit file's `PATH` line gives the value back if and only if the value has no line break. |
| Escaping.PowershellRoundTrip | cli/src/device_service.rs:409-411 | The single-quoted literal denotes the value if and only if the value has no typographic quote. |
| Escaping.TypographicQuoteBreaksLiteral | cli/src/device_service.rs:409-411 | A right single quotation mark breaks the literal. |
| Escaping.TaskArgumentsRoundTrip | cli/src/device_service.rs:401-423 | Arguments survive both layers of quoting of the scheduled task if and only if none of them has a typographic quote. |
| LogFollow.FollowLogFile | cli/src/device_service.rs:139-172 | The polling loop prints and stores exactly what the specification says for every sequence of polls. |
| LogFollow.FailsExactlyWhenAReadFails | cli/src/device_service.rs:142-171 | For every file, following fails if and only if a poll that has to read cannot; until then the offset is what the last poll saw. |
| LogFollow.PrintsPollByPoll | cli/src/device_service.rs:145-170 | Each poll prints what the file holds from the offset the previous poll left, or from 0 if the file got shorter. |
| LogFollow.NeverSkips | cli/src/device_service.rs:139-172 | While the file grows, chunks follow one another, or start over at 0 after the file could not be looked at; each shows what the file holds, and no byte from the first offset to the last length seen is left out. |
| LogFollow.AccountsForTheFile | cli/src/device_service.rs:139-172 | When the file can always be looked at, the chunks cut off where they repeat make up the file from the first offset on. |
| LogFollow.RepeatsExactlyWhenOvertaken | cli/src/device_service.rs:151-166 | The output is exactly the appended text if and only if no read overtakes its length check and sight of the file is not lost in between, and longer otherwise. |
| Auth.AuthFlow.IssueAndStoreSession | cli/src/auth_flow.rs:350-408 | Logging in caches the session and returns a token, or fails without changing the configuration. |
| Auth.AuthFlow.ClearCachedSession | cli/src/auth_flow.rs:410-425 | Clears the cached session, saving only if there was one. |
| Auth.AuthFlow.RunAuthSetup | cli/src/auth_flow.rs:717-750 | What a setup reply stores, field by field and only when something changes, is the specified configuration. |
| Auth.AuthFlow.ResolveInteractive | cli/src/auth_flow.rs:427-488 | Explicit token, cached session, prompts and login are tried as specified. |
| Auth.AuthFlow.AttemptWithLoginRetry | cli/src/auth_flow.rs:251-289 | One attempt with its single login retry is the specified one. |
| Auth.AuthFlow.RunWithAutoSetupAndLoginRetry | cli/src/auth_flow.rs:159-249 | The whole nested retry is the specified run. |
| Auth.ResolveObserved | cli/src/auth_flow.rs:427-488 | An explicit token is used without touching anything; without token and cache, credentials come from a login made now. |
| Auth.AttemptObserved | cli/src/auth_flow.rs:251-289 | An attempt adds at most two commands and one clearing, none of the latter with an explicit token, and justifies its rerun. |
| Auth.RunIsBounded | cli/src/auth_flow.rs:159-289 | At most four commands, two setups and two clearings; with an explicit token two commands and an untouched cache; every rerun follows a 401 without token or a setup request. |
| Auth.RunAnswers | cli/src/auth_flow.rs:159-289 | The answer of every run belongs to its last event: success of the command, the error of the command, login or setup that ended it, or the client's own error. |
| Auth.RunSucceedsExactly | cli/src/auth_flow.rs:159-289 | A run succeeds if and only if its last event is a command that succeeded. |
| Auth.GivesUpOnlyAfterRetrying | cli/src/auth_flow.rs:195-288 | A run gives up on a 401 without a given token only after dropping the session and logging in anew, and on a setup request only after a setup, if one is possible. |
| Auth.EveryCommandCarriesToken | cli/src/auth_flow.rs:159-289 | Every command runs with a user name and a token, those passed if they were, and never a password. |
| Auth.EveryLoginIsAsTold | cli/src/auth_flow.rs:159-289 | In every run every login uses the user name and password that were passed, if they were. |
| Auth.LoginCredentials | cli/src/auth_flow.rs:435-487 | Who logs in is passed, configured now, configured at the start or typed, in that order; a password is passed or typed. |
| Auth.CachedSessionIsUsed | cli/src/auth_flow.rs:455-464 | Without token and password an unexpired session is used and nothing else happens. |
| Auth.OtherwiseLogsIn | cli/src/auth_flow.rs:455-487 | With a password, or without a valid session, credentials come from a login. |
| Auth.RefusesExactlyWithoutCredentials | cli/src/auth_flow.rs:441-485 | Without a terminal no credentials are tried if and only if no user is named or nothing to log in with is at hand. |
| Auth.SessionIsUsedUntilExpiry | cli/src/config.rs:225-234 | A cached session is valid exactly until it expires. |
| Auth.FieldCountsExactly | cli/src/auth_flow.rs:318-322 | A field counts if and only if something is left of it without surrounding whitespace. |
| Auth.UsernamePrecedence | cli/src/auth_flow.rs:331-333 | The user on the command line goes before the configured one. |
| Auth.LoginChangesOnlyTheSession | cli/src/auth_flow.rs:386-407 | A login stores exactly the issued session and its user. |
| Auth.ClearingRemovesOnlyTheSession | cli/src/auth_flow.rs:410-425 | Clearing removes all three session fields and nothing else. |
| Auth.SetupStoresWhatItIsTold | cli/src/auth_flow.rs:727-750 | Setup stores the user and device token of the reply, keeps a device id that is not replaced, and leaves the session alone. |
| Auth.ErrorsAreToldApart | cli/src/auth_flow.rs:35-47 | Setup is asked for by code 425 or the setup hint, credentials are refused by code 401, and setup needs a terminal or user name and password. |
| Auth.BoundsAreReached | cli/src/auth_flow.rs:159-289 | One run reaches all three bounds. |
| Auth.DeviceHasBothOrNeither | cli/src/auth_flow.rs:490-517 | Device credentials resolve if and only if user name and token are both there or both missing; those passed go before those configured. |

## Left out

- HTTP, multipart bodies, TLS, WebSocket frames, and JSON, TOML and archive decoding: their outcomes are parameters.
- Hashes, request ids, temporary directory names and clocks: ids and directories are taken to be fresh, times are parameters.
- workers.dev activation, which only warns, and the steps inside listing scripts, creating buckets and synchronising assets: each is one call that succeeds or fails.
- Renaming the storage bucket per instance, compatibility settings, observability, paid limits, source maps and assets in upload metadata: copied values; bindings other than services and loaders are two opaque lists.
- That Cloudflare really stores what it accepts, and other clients changing the account or bucket during a run.
- Deploy.Account.ApplyDeploy: the printed warnings are not modelled, and a rejection of the worker loaders is taken to mean that nothing was applied.
- GatewayPatch.ReconcileReachesFixedPoint: a wanted binding counts as reached when type, service and entrypoint agree and no environment is set, as the source compares them; further fields of a live binding that already agrees are kept.
- Purge.CompleteListingEmptiesBucket: speaks of purges in which no deletion call is given up; conservation holds for the others too.
- Install.LocalInstallKeepsOldBundle: speaks of one component; the whole command is the subject of Install.OnlyTheFailingComponentIsLost.
- LogFollow.NeverSkips: speaks of runs in which the file can be opened and read once it has been looked at; otherwise the command ends with an error.
- Install.EveryStepIsSafe: a removal that stops half-way is one step, and file contents inside the staging directory are only modelled per component directory.
- Waking of channel receivers, fairness and progress of the connection's tasks: only what may happen is modelled, not that it does.
- Closing a connection by dropping it: requests borrow the connection, so none is outstanding then.
- Push frames, binary frames and the handshake: they do not touch the waiter table.
- Failure of request serialisation after the waiter is inserted: serialising a request is taken to succeed.
- Which credentials the setup step sends: setup is one step with an arbitrary reply.
- WindowsQuoting.CommandLineRoundTrip: speaks of the arguments after the program name, without NUL characters being special.
- The other lines of a systemd unit file, and `systemd_exec_start`, which escapes only quotes and has no general inverse.
- UTF-8 replacement of invalid bytes when following a log: bytes are printed as they are.
- A configuration file saved in part, and other processes writing it during a run.
- The setup wizard's own prompts, and the two retry functions without a login retry: setup is one step that may store what the gateway replies.
- Service managers, terminal prompts, progress output and Cloudflare's error texts.
