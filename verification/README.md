# Verified models of Doblura's decision procedures and protocols

Doblura is a Kubernetes operator for Odoo. Most of it moves objects through the API server; this
project models the parts that decide something, or that keep a promise over many steps, and proves
what they promise. Each module follows one part of the operator:

- `Calendar`, `Retention`, `RetentionCode`: which backups survive. The loops over an ordered list and
  a shared map of names are proved to compute the policy, and the policy is proved path independent.
- `UpdateRollback`: the update script's copy, update, swap-back protocol as a state machine over a
  server's databases, with any command failing and the container killed anywhere.
- `Placement`, `PlacementRuns`: the instance a database lands on, for one decision and for runs.
- `ImageStudy`, `StudyRuns`, `StudyProgress`: the Job and report loop that studies catalogue images, any
  number of reconcilers interleaved call by call with everything else that can happen to Jobs, pods and
  the tenant.
- `Edge`, `EdgeRuns`: the Middleware objects created, kept level and removed from one list of rules, by
  one pass and by passes of several environments interleaved call by call.
- `SqlText`, `Presets`, `Masking`, `MaskConfig`: what is masked and truncated, the regrouping the
  masking engine is given, and SQL literals with a reader that undoes them.
- `AccountsCache`: the console's account cache under concurrent loaders.
- `FanOut`, `Dashboard`: asking every cluster at once, and adding up the answers.
- `ConfText`, `TierConfig`, `TierProofs`, `ModulesLine`: the configuration files of the web, cron and
  queue tiers, at the level of their text.
- `Catalogue`, `MapLayout`: the image catalogue's transitions and the layout of the object map.
- `Decimal`, `Sorting`: decimal text with its reader and the console's `itoa`; Go's string order and
  the contract of its sorting calls. `Wrappers` has the optional value.

Calls that can fail are answered by an oracle the theorems quantify over: the update script's
commands (`Outcomes`), the API server's responses (`Response`, the steps that fail), each cluster's
answer, the schedule of goroutines, the interleaving of loaders and reconcilers. Time is a parameter. Instants are nanoseconds
from Go's zero time, so an instant of 0 is "no date". Sorting is used through its contract only, a
permutation in which no element precedes a smaller one, so nothing depends on how ties are broken; the
dashboard's rows by severity are sorted stably, and there elements that stand equal keep their order.

## What the proofs found

Where the code does not do what its comments say, the model follows the code, and the lemmas named
give inputs on which it fails and say exactly when it holds. Where the condition is sufficient only,
the entry says so.

- Retention's guard against a policy that keeps nothing tests for zeros only. Negative counts, which
  the schema refuses but the function accepts, drop every dated copy
  (`Retention.NegativeCountsDropEverything`); the newest copy survives exactly when some count is
  positive or all are zero (`Retention.NewestKeptIff`).
- `TierOf` asks `Retain` about a one-rule policy. With a zero monthly count that policy is all zeros
  and keeps everything, so every copy is shown as monthly
  (`RetentionCode.ZeroMonthlyShowsMonthly`, `RetentionCode.TierNamesAKeepingRule`).
- The update script's first command drops the leftover copy, including the one its failed rollback
  says not to delete. The script runs in an init container, which is restarted by itself. A run is
  safe exactly when it starts with the data under the database's own name
  (`UpdateRollback.SafeToStartIff`, `UpdateRollback.RestartAfterFailedRollbackCanLose`).
- The disk reservation doubles the size in 32 bits. From 2^30 GiB the doubling wraps, and the largest
  sizes are accepted (`Placement.HeadroomExact`, `Placement.HugeSizeIsAccepted`).
- A study whose pods cannot be listed when they are read is recorded as having produced no report, and
  is not read again (`StudyProgress.ReportIsRecordedIff`, `StudyProgress.FailedListIsFinal`). One failure
  to pull, which the kubelet retries, is recorded with a date too: the report of the Job that then
  succeeds is never read (`StudyProgress.PullFailureIsFinal`).
- Pods are found by the name of their Job, and the Job is read in a call of its own. A pod of a deleted
  Job can answer for its successor (`StudyRuns.OrphanedPodAnswersForItsSuccessor`), and with two
  managers, which a rolling update without leader election runs, a pod of the successor for the Job that
  was read (`StudyRuns.SuccessorsPodAnswersForThePredecessor`). Neither happens when the pods listed
  carry the uid of the Job that was read, which is sufficient (`StudyRuns.StudiesDescribeTheirImage`).
- A pass in flight that does not know an entry is answered can study it again
  (`StudyProgress.NoFurtherJobIff`, `StudyProgress.StudyStandsIff`).
- Job names of different tenants can collide (`StudyProgress.JobNamesCollide`,
  `StudyProgress.ValidJobNamesAcrossTenants`).
- An entry that goes back to waiting for a build keeps the failure text and versions of the image before,
  which the console then shows with no date (`StudyProgress.PendingKeepsTheOldOutcome`).
- The account cache is stamped when it is stored, not when the Secret answered, so the 30 seconds are
  not the bound on staleness: the slowest read-to-store comes on top, and that sum is reached
  (`AccountsCache.StalenessBound`, `AccountsCache.BoundIsReached`).
- Mask rules are keyed by table, a dot and column, which names a column just when no table's name goes
  on from another's with a dot (`Masking.DottedTablesCollide`, `Masking.KeyNamesColumn`).
- The channels of the queue tier are written out as they are, so a value of two lines can give the queue
  file a second value for `max_cron_threads`, after the tier's own "0", or a second modules line, in
  any spelling a parser reads. Which of two values the parser takes, or whether it refuses the file, is not
  part of this model (`TierProofs.ChannelsCanSchedule`, `TierProofs.ChannelsCanNameModules`,
  `TierProofs.EachFileNamesItOnceIff`).
- An edge pass deletes by name what it listed by label. When an object of one environment's names bears
  another's label, passes of the two that overlap can leave a rule the Ingress refers to missing, and
  only then. No pass puts such an object there; somebody else has to
  (`EdgeRuns.StandsUnlessClash`, `EdgeRuns.InterleavedIsSequentialIff`, `EdgeRuns.OwnNamesNeverClash`).
- `itoa` prints "-" for the smallest 64-bit integer (`Decimal.ItoaReadsBack`).
- An edge of the object map that starts in the last column is drawn five units outside the viewBox
  (`MapLayout.EdgesRunInGutters`).

## Model

| member | source | states |
|---|---|---|
| Retention.PathIndependence | api/v1alpha1/retention.go:44-132 | pruning a set of copies before adding copies and pruning again keeps exactly what one pruning of all of it keeps, for any policy and any period keys; of copies that share an instant the set-level rules keep all and the code one, so this is the code when no two dated copies do |
| Retention.PruneIdempotent | api/v1alpha1/retention.go:44-132 | pruning a second time removes nothing |
| Retention.RunKeepsWhatOnePruningKeeps | api/v1alpha1/retention.go:27-33 | over any run of taking copies and pruning, however batched, the set left is what one pruning of the whole history would keep |
| Retention.KeptIffNewestOfRecentPeriod | api/v1alpha1/retention.go:19-25 | a copy survives iff the policy is all zeros, or it has no date, or among the dated ones it is the newest of its day, ISO week or month and fewer than that rule's count of later such periods hold one |
| RetentionCode.CodeKeepsAtMost | api/v1alpha1/retention.go:22-25 | with distinct names, whatever the dates, the code keeps at most Daily+Weekly+Monthly dated copies, a negative count counting as 0 |
| Retention.LargerCountsKeepMore | api/v1alpha1/retention.go:97-101 | raising counts of a policy that is not all zero never drops a copy that was kept |
| Retention.NewestKeptIff | api/v1alpha1/retention.go:49-65 | the newest dated copy survives iff all counts are zero or some count is positive |
| Retention.NegativeCountsDropEverything | api/v1alpha1/retention.go:63-65 | every policy with no positive count that is not all zero drops every dated copy, whatever the copies |
| RetentionCode.Retain | api/v1alpha1/retention.go:44-111 | keep and drop partition the input as multisets, no undated copy is dropped, an all-zero policy keeps the input as it is, otherwise both lists are what the rules decide for some newest-first order, and on a volume with distinct names and dates they are the policy's set |
| RetentionCode.KeptNames.MarkNewestPerPeriod | api/v1alpha1/retention.go:115-132 | adds to the shared map exactly the names of the copies that are first of their period with fewer than the count of periods before them |
| RetentionCode.DecisionIsPolicy | api/v1alpha1/retention.go:88-110 | for distinct names and dates the lists computed from any newest-first order are the policy's kept set and its complement |
| RetentionCode.PruningAsYouGoIsPruningOnce | api/v1alpha1/retention.go:44-111 | path independence of the code's own answers, one batch |
| RetentionCode.RunKeepsWhatOneCallKeeps | api/v1alpha1/retention.go:44-111 | over any run of the code's answers, however batched and in whatever order it saw the copies, what is kept is what one call on everything ever taken keeps |
| RetentionCode.MarkedGrows | api/v1alpha1/retention.go:115-132 | on any volume a larger count marks the same names and perhaps more |
| RetentionCode.NewestNameIsMarked | api/v1alpha1/retention.go:88-110 | on any volume the first copy of the newest-first order keeps its name when some count is positive |
| RetentionCode.TierOf | api/v1alpha1/retention.go:161-171 | on any volume the tier is monthly, weekly or daily as answers Retain may give to the one-rule policies keep the copy's name or not; on an unambiguous one it is the first whose one-rule policy keeps a listed copy |
| RetentionCode.TierNamesAKeepingRule | api/v1alpha1/retention.go:156-171 | the tier shown for a kept copy is a rule that alone keeps it iff the monthly count is not zero and the weekly count is not zero or the monthly rule keeps it |
| RetentionCode.ZeroMonthlyShowsMonthly | api/v1alpha1/retention.go:161-171 | a volume of one copy that only the daily rule keeps, shown as monthly |
| Calendar.YearIsTheOnlyOne | api/v1alpha1/retention.go:134 | the year a day is given is the only one whose days include it |
| Calendar.DayKeyNamesDay | api/v1alpha1/retention.go:134 | two instants share a day key iff they lie on the same UTC day, iff no midnight lies between them |
| Calendar.WeekKeyNamesIsoWeek | api/v1alpha1/retention.go:136-152 | two instants share a week key iff they lie in the same Monday-to-Sunday ISO week, iff no Monday begins between them |
| Calendar.MonthKeyNamesMonth | api/v1alpha1/retention.go:154 | two instants share a month key iff they lie in the same month of the same year, iff no month begins between them, the months being counted from their Gregorian lengths |
| Calendar.SameIsoWeek | api/v1alpha1/retention.go:138-141 | ISO year and week number agree iff the days are in the same week |
| UpdateRollback.UpdateNeverLosesTheData | internal/controller/envpod.go:1073-1114 | in every state of every run that starts with the database holding the original, the original is under one of the two names or the update completed; no third database changes; the exit status is 0 iff the update succeeded, and otherwise the original is where the closing message says |
| UpdateRollback.SafeToStartIff | internal/controller/envpod.go:1080-1083 | every run from given databases keeps the original iff the database itself holds it at the start |
| UpdateRollback.RestartAfterFailedRollbackCanLose | internal/controller/envpod.go:1083-1111 | a run whose rollback fails, followed by a run of the same script, can lose the original |
| UpdateRollback.Server.UpdateWithRollback | internal/controller/envpod.go:1073-1114 | the script's states are a run of the state machine; it exits 0 iff the tools, the copy and the update succeed; without the tools it exits 1 and changes nothing; when it gets no copy only the copy's name may change; after a successful update the databases are as before but for the update's result and the copy, which is gone unless it cannot be dropped; after a failed one they are as before when the rollback works, and otherwise the copy holds the original |
| UpdateRollback.Server.RollBack | internal/controller/envpod.go:1097-1112 | the failure branch: when the drop and the copy work the database holds the original again and nothing else has changed but the copy, otherwise only the database has; the exit status is the update's |
| Placement.Place | api/v1alpha1/placement.go:58-80 | the decision for some arrangement of the candidates by name |
| Placement.DecisionIsRight | api/v1alpha1/placement.go:57-80 | the answer qualifies, has the most room and is the least name among those; an error occurs iff every candidate is rejected, and lists each once by name with its reason |
| Placement.WhoQualifies | api/v1alpha1/placement.go:83-107 | a candidate qualifies iff it is not cordoned, its tier is Any or the one for the role, its first Reachable condition is true, it has a slot, and twice the size leaves its reservation in 32 bits |
| Placement.RejectionsBlameTheFirstFailing | api/v1alpha1/placement.go:83-107 | a list of rejections gives every candidate the first of its failings: cordoned, a tier that is neither Any nor the one for the role, not reachable, full, a reservation on a disk never observed |
| Placement.DecisionIgnoresOrder | api/v1alpha1/placement.go:59-62 | with distinct names any two orders of the candidates give the same answer, rejections included |
| Placement.HeadroomExact | api/v1alpha1/odooinstance_types.go:319-345 | the 32-bit remainder is the integer one iff 2*size <= free + 2^31, and the check agrees with integers iff that or the wrapped remainder still falls short |
| Placement.HeadroomMeansReserve | api/v1alpha1/odooinstance_types.go:319-345 | below 2^30 GiB with free space at least 0, the check passes iff twice the size leaves the reservation free |
| Placement.HugeSizeIsAccepted | api/v1alpha1/odooinstance_types.go:330-342 | the largest 32-bit size passes a reservation of 10 GiB on a disk with 20 GiB free |
| PlacementRuns.TiersHoldTheirOwn | api/v1alpha1/odooinstance_types.go:268-276 | over any run, an instance that was given a production database is of tier Production or Any, and one that was given any other is of tier NonProduction or Any |
| PlacementRuns.ProductionNeverShares | api/v1alpha1/placement.go:21-23 | an instance that received both production and other databases is of tier Any |
| PlacementRuns.NeverOverfull | api/v1alpha1/placement.go:95-98 | the database counts follow the placements and no instance passes its maximum |
| PlacementRuns.ChoicesLeaveTheReserve | api/v1alpha1/placement.go:99-106 | every choice of a run that falls on an instance with a reservation has an observed disk and leaves twice the size, 0 when none is declared, free above it |
| PlacementRuns.RunStaysBalanced | api/v1alpha1/placement.go:24-26 | over any run, whatever else is placed elsewhere, the difference in room between two instances of a group that requests suit alike never exceeds the initial one, or one |
| PlacementRuns.RunFillsTheRoom | api/v1alpha1/placement.go:58-80 | of the requests for a group exactly as many are placed as it had slots, up to their number, each uses one, and other requests use none |
| ImageStudy.EnsureImageStudy | internal/controller/imagestudy.go:140-213 | one entry of one pass is the model's two steps, with the store having become anything between its first call and its second, whichever of the two fails |
| ImageStudy.Cluster.FindPullProblem | internal/controller/imagestudy.go:312-331 | the first pull failure among the Job's pods, its detail cut to the first line and 160, or nothing when the list fails |
| ImageStudy.Cluster.ReadMessage | internal/controller/imagestudy.go:334-348 | the first message among the Job's pods, or nothing when the list fails |
| ImageStudy.TenantStatus.UpsertStudy | internal/controller/imagestudy.go:400-408 | the study of that name is replaced where it stands, or appended |
| ImageStudy.TenantStatus.SetStudyPending | internal/controller/imagestudy.go:232-248 | the entry's study loses its image, date and findings, carries the reason, and keeps the rest of its body |
| StudyRuns.StudiesDescribeTheirImage | internal/controller/imagestudy.go:134-213 | in any interleaving of any number of reconcilers, each between its two calls, in which the pods listed carry the uid of the Job that was read, every dated study records what a Job running exactly its image was seen to do, and no entry has two studies |
| StudyProgress.OneStudyPerEntry | internal/controller/imagestudy.go:400-408 | in every run, clean reads or not, no list has two studies of one entry, and no pass is ahead of the present version |
| StudyRuns.OrphanedPodAnswersForItsSuccessor | internal/controller/imagestudy.go:180-183 | without that hypothesis a stored study can carry the report of the image before, with one reconciler |
| StudyRuns.SuccessorsPodAnswersForThePredecessor | internal/controller/imagestudy.go:170-204 | and, with two, the report of the image after, though the pods belong to the Job in the store at both calls |
| StudyProgress.NoFurtherJobIff | internal/controller/imagestudy.go:160-164 | an answered entry can have another Job created for it without being repointed iff some pass in flight does not know the answer |
| StudyProgress.AnsweredUntilRepointed | internal/controller/imagestudy.go:160-164 | its stored study stays exactly as it is until it is repointed, whatever passes that read an older version are in flight, since their writes are refused |
| StudyProgress.StudyStandsIff | internal/controller/imagestudy.go:160-164 | and that study can change without a repoint iff some pass in flight that read the present version does not hold it |
| StudyProgress.StudyCompletes | internal/controller/imagestudy.go:166-213 | in every schedule in which nothing fails and nobody else handles the entry, of two visits, each a pass and its status write, the Job finishing any time after them and a third visit, one brings the answer into the stored status unless somebody writes the tenant during that visit; at most one Job is created |
| StudyProgress.ReportIsRecordedIff | internal/controller/imagestudy.go:199-211 | a pass that found the entry's finished Job records the report its pods then hold iff its list does not fail |
| StudyProgress.FailedListIsFinal | internal/controller/imagestudy.go:204-206 | when it fails, "no report" is recorded, which answers the entry in that pass and once stored |
| StudyProgress.PullFailureIsRecordedIff | internal/controller/imagestudy.go:312-331 | a pass over a Job under way records a pull failure iff its list works and a pod of the Job waits for ImagePullBackOff, ErrImagePull or InvalidImageName; it is the first such pod's reason, its message cut at the first newline and 160 |
| StudyProgress.PullFailureIsFinal | internal/controller/imagestudy.go:184-193 | a run in which the entry's Job fails to pull once and then succeeds with a report, after which every continuation that does not repoint the entry keeps its study at "could not be pulled" |
| StudyProgress.PendingKeepsTheOldOutcome | internal/controller/imagestudy.go:237-243 | an entry that no longer resolves loses its study's image, date and findings, and keeps what the earlier image's Job came to |
| StudyProgress.JobNameIsTheEntrys | internal/controller/imagestudy.go:130-132 | within a tenant the Job name identifies the entry |
| StudyProgress.JobNamesAcrossTenants | internal/controller/imagestudy.go:130-132 | two tenants can share a Job name iff one's name goes on from the other's with a dash |
| StudyProgress.ValidJobNamesAcrossTenants | internal/controller/imagestudy.go:130-132 | with entry names the schema admits, iff moreover what follows the dash can start such a name |
| Edge.EdgeMiddlewareNames | internal/controller/edge.go:173-182 | one reference per rule, in the rules' order |
| Edge.Cluster.EnsureEdge | internal/controller/edge.go:193-251 | a pass that succeeds with its list leaves the reconciled store, one whose list fails only adds the wanted objects; however far it got nothing wanted or foreign is lost, and no delete precedes the last apply, and a pass no call of which is refused succeeds |
| Edge.RulesAreWhatIsAsked | internal/controller/edge.go:61-163 | each kind of rule is on the list, with its contents, iff the fields of the exposure ask for it |
| Edge.StoreDoesWhatIsAsked | internal/controller/edge.go:61-163 | from any store, after a complete pass the environment has an object that does something iff its exposure asks for it |
| Edge.PublicEnvironmentsAskForAPassword | internal/controller/edge.go:65-80 | after a complete pass a public environment with basic authentication has its basicauth object, with that secret and its own name in the realm |
| Edge.PassLeavesExactlyTheWanted | internal/controller/edge.go:206-248 | from any store, after a complete pass the labelled objects are exactly the wanted ones with their bodies |
| Edge.SecondPassChangesNothing | internal/controller/edge.go:206-248 | a second pass changes nothing |
| Edge.EveryReferenceExists | internal/controller/edge.go:57-62 | every object the Ingress refers to exists after a pass and does what its rule says, whichever secret name the builder passes |
| Edge.ObjectNameInjective | internal/controller/edge.go:184-186 | environment and rule to object name is injective, because no rule name has a dash |
| Edge.EnvironmentsCommute | internal/controller/edge.go:193-251 | passes for two environments commute, whole pass after whole pass |
| Edge.OthersUntouched | internal/controller/edge.go:230-248 | what another environment has put in place survives this one's pass |
| EdgeRuns.StandsUnlessClash | internal/controller/edge.go:206-248 | among any number of passes of other environments, in flight at any call and interleaved with it in any way, a pass that completes leaves exactly the wanted objects from then on, iff no other has listed an object it wants or will find it under its own label |
| EdgeRuns.OwnNamesNeverClash | internal/controller/edge.go:184-218 | where every object is named after the environment whose label it bears, which every call keeps, no pass that has not listed yet can delete what another environment's pass wants |
| EdgeRuns.InterleavedIsSequentialIff | internal/controller/edge.go:206-248 | two passes interleaved call by call, each ended by any refused call, leave whenever both complete what one after the other leaves, iff no object of either's names bears the other's label |
| SqlText.LiteralReadsBack | internal/controller/anonymize.go:293-294 | a reader of SQL literals gets back any value and stops where the literal ends |
| SqlText.TextOrNullReadsBack | internal/controller/envpod.go:889-894 | the reader gets NULL for the empty string and the value for any other |
| SqlText.InListReadsBack | internal/controller/anonymize.go:104-113 | reading the printed list gives exactly the names, in order, and consumes the list |
| SqlText.SubsetCondition | internal/controller/anonymize.go:106-113 | the loop and the join print the condition over that list |
| Masking.TablesToTruncate | api/v1alpha1/odoosnapshot_types.go:478-520 | no duplicates; a table is listed iff it is extra or in the enabled preset, not kept and not on the never-list; in first-asked order |
| Masking.RulesToApply | api/v1alpha1/odoosnapshot_types.go:526-553 | the fold of put over preset, logins and user rules; every column comes out once, with the last user rule for it when there is one, otherwise the login rule or the preset's when those are on, and no other column does |
| Masking.RuleList.PutRule | api/v1alpha1/odoosnapshot_types.go:529-537 | a rule whose key is there takes its place, any other is appended, and the index stays the inverse of the list |
| Masking.FoldIsLastWriterWins | api/v1alpha1/odoosnapshot_types.go:522-525 | the resolved keys are unique and are the keys given, each with the last rule given for it |
| Masking.FoldKeepsFirstOrder | api/v1alpha1/odoosnapshot_types.go:529-537 | the rules come out in the order in which their keys were first given |
| Masking.TablesShareKeysIff | api/v1alpha1/odoosnapshot_types.go:530 | columns of two tables can share a key iff one table's name goes on from the other's with a dot |
| Masking.KeyNamesColumn | api/v1alpha1/odoosnapshot_types.go:530 | over a set of tables a key names one column of one table iff no name goes on from another's with a dot |
| Masking.DottedTablesCollide | api/v1alpha1/odoosnapshot_types.go:530 | such a pair: column c of a.b and column b.c of a |
| MaskConfig.GreenmaskConfig | internal/controller/anonymize.go:91-132 | every table appears once with exactly its own rules in order; with companies named, res_company first with the subset condition; the rest sorted by name |
| MaskConfig.ConfigConservesRules | internal/controller/anonymize.go:28-132 | every resolved rule is emitted exactly once, with or without the subset root |
| MaskConfig.FixedValueReadsBack | internal/controller/anonymize.go:293-306 | the literal of a Fixed rule reads back from where it stands in its UPDATE |
| AccountsCache.LoadIsServed | internal/console/localauth.go:72-107 | whatever the others do between its sections, a load is served from a cache younger than 30 seconds and nobody asks, and otherwise what the Secret held when it answered, which it leaves in the cache with the time of the store; a failed read leaves the cache as it was |
| AccountsCache.StalenessBound | internal/console/localauth.go:72-107 | under any interleaving, what a load serves was the Secret's content less than the TTL plus the slowest read-to-store ago |
| AccountsCache.BoundIsReached | internal/console/localauth.go:64-70 | for every delay there is a run, with a slow loader overwriting a newer read, that serves content exactly that stale |
| AccountsCache.LocalAccounts.TryCached | internal/console/localauth.go:73-78 | the section under the read lock serves what the model's check serves |
| AccountsCache.LocalAccounts.Keep | internal/console/localauth.go:103-105 | the section under the write lock is the model's store step |
| FanOut.AskEverywhere | internal/console/fanout.go:42-79 | whatever the order in which the slots are written, the results are the sequential map over the clusters, each once; in the order local first, then the others by name, unless a remote cluster has the local one's name |
| FanOut.ClusterNames | internal/console/kube.go:187-194 | every cluster once, local first, the others by name |
| Dashboard.MergeDashboards | internal/console/dashboard.go:275-320 | totals, troubles and tally are those of the answers; the row lists are permutations of all stamped rows, by severity with rows of one severity in the order of their clusters, by customer and name, and by cluster and customer |
| Dashboard.StampKeepsTheRow | internal/console/dashboard.go:322-334 | a stamped row keeps its name, customer, state and severity; its cluster is the stamp and its link, when it has one, goes through the switch to that cluster |
| Dashboard.NoClusterIsLost | internal/console/fanout.go:87-96 | every cluster is counted as answered or named in the troubles, never both or neither |
| Dashboard.TotalsAreSums | internal/console/dashboard.go:277-291 | the totals are the sums over the clusters that answered, and workloads are visible iff they all are |
| Dashboard.RowsKeepTheirCluster | internal/console/dashboard.go:292-294 | in any list built by stamping, each answering cluster's rows appear once, in order, stamped with it, and a cluster that did not answer has none |
| Dashboard.EveryListKeepsItsCluster | internal/console/dashboard.go:292-306 | each of the four lists of the merged view, the quotas included, gives every cluster exactly its own rows |
| Dashboard.ListsOfTheSum | internal/console/dashboard.go:292-306 | the four lists of the merged view are such stamped concatenations |
| Dashboard.TallyCoversListedStates | internal/console/dashboard.go:103-116 | the tally sums to the rows whose state is in its list, which omits "gone" |
| TierConfig.EnvCronConf | internal/controller/envpod.go:144-160 | the cron text is the base's lines with two of them rewritten |
| TierConfig.EnvQueueJobConf | internal/controller/envpod.go:179-206 | the queue text is the base's lines rewritten, plus the modules line when none was seen and the channels when there are any |
| TierProofs.EachFileNamesItOnceIff | internal/controller/envpod.go:92-206 | whatever the fields and channels hold, each of the three files gives max_cron_threads exactly once, in any spelling, iff no field of the base brings a line of its own that names it or is rewritten for it, and the channels bring none that names it |
| TierProofs.ExactlyOneTierSchedules | internal/controller/envpod.go:92-206 | all three numbers can be read iff so, and then the queue tier's is 0, the cron tier's the declared threads or 1, and the web tier's 1 when there is no split, no cron tier or no replica of it, and otherwise 0 |
| TierProofs.WebTierEnds | internal/controller/envpod.go:92-142 | the web file ends with the declared workers, or 2, and with 0 or 1 cron threads as the split has a cron replica or not |
| TierProofs.ChannelsCanSchedule | internal/controller/envpod.go:203-204 | channels of two lines, the second naming max_cron_threads in any spelling, give the queue file two values for it, "0" and that line's |
| TierProofs.PathsReadBackIff | internal/controller/envpod.go:103-105 | the comma list of addons paths reads back to the paths, in order, iff none has a comma |
| TierProofs.CronLines | internal/controller/envpod.go:148-158 | the cron configuration is the base with the values of workers and max_cron_threads replaced and nothing else, iff every line of those two kinds a field brings is already what the tier writes |
| TierProofs.QueueTierLoadsTheRunner | internal/controller/envpod.go:199-204 | when no field brings a modules line, the queue file loads queue_job beside base and web, and says so once, iff the channels bring no modules line |
| TierProofs.ChannelsCanNameModules | internal/controller/envpod.go:203-204 | channels of two lines, the second a modules line, give the queue file two values for it |
| TierProofs.ChannelsReadBackIff | internal/controller/envpod.go:203-204 | the channels of a queue tier with a replica read back unread, when there are any, iff they are one line with no space around it and no field of the base brings a channels line in any spelling |
| ModulesLine.QueueJobIsAdded | internal/controller/envpod.go:208-218 | a modules line loads what it loaded before and then queue_job, unless it already mentioned it |
| ModulesLine.LoadedExactlyOnce | internal/controller/envpod.go:208-218 | queue_job is loaded exactly once when the line did not repeat it, and every other module as often as before |
| Catalogue.HandleAdd | internal/console/images.go:46-73 | an entry of that name is replaced keeping its flag, otherwise appended, default iff the catalogue was empty |
| Catalogue.AddStoresWhatIsGiven | internal/console/images.go:46-73 | after adding, the entry of that name carries the given image, version, notes and flavor with the flag it had, a new one comes last and is default iff the catalogue was empty, and the others are unchanged |
| Catalogue.HandleRemove | internal/console/images.go:99-106 | filtering the list in place gives the entries of other names, in order |
| Catalogue.HandlePromote | internal/console/images.go:137-148 | a present name becomes the one default, an absent one is refused |
| Catalogue.RunKeepsInv | internal/console/images.go:46-148 | over any run from an empty catalogue names stay unique and at most one entry is default |
| Catalogue.AddNeverMovesTheDefault | internal/console/images.go:53-73 | adding to a catalogue that is not empty leaves the default where it is |
| Catalogue.PromoteLeavesExactlyOne | internal/console/images.go:137-144 | promoting a present name leaves exactly that name default and changes nothing else |
| MapLayout.Render | internal/console/graph.go:77-96 | every id is placed at the next free row of its column, at its last node's cell when repeated, and the drawing's size comes from the largest column and row count |
| MapLayout.ColumnsOfTheMap | internal/console/graph.go:52-84 | tenants and unknown kinds stand in the first column, environments in the second, databases, snapshots, rehearsals and links in the third, each filled from the top |
| MapLayout.BoxesDisjoint | internal/console/graph.go:80-84 | two boxes are drawn apart iff their nodes have different ids, and then 58 across or 34 down |
| MapLayout.BoxInside | internal/console/graph.go:89-96 | every box is inside the viewBox |
| MapLayout.EdgesRunInGutters | internal/console/graph.go:107-117 | the vertical segment of every edge is clear of every box, and is inside the viewBox iff the edge does not start in the last column |
| Decimal.Itoa | internal/console/detail.go:191-211 | never overruns its 20 bytes; prints the number, or "-" for the 64-bit minimum |
| Decimal.ItoaReadsBack | internal/console/detail.go:191-211 | the text reads back to the number iff it is not the minimum |

## Left out

- Kubernetes API calls, impersonation, watches and server-side apply beyond "the object is there afterwards": a store is a map, a call a step that may fail.
- HTTP handlers, templates, translations and theme: of the catalogue and the map only the transitions and coordinates are modelled.
- Passwords, hashes, tokens, session cookies and the forge clients: foreign calls with nothing visible to state.
- The parsing of the accounts Secret and of the study's JSON: `Accounts` is any value, `Report` any message, so what is proved is where it came from.
- How an entry resolves to an image through its build: the resolved reference, or the reason there is none, is a parameter of every reconcile.
- The update script without rollback, its module list and its timeout: only the rollback variant makes a promise.
- The shell of the other scripts (clone, restore, neutralize, harden, study): text, not decisions.
- `transformerYAML` and the SQL expressions of the kinds other than Fixed: a table of constants. YAML quoting around the SQL is not modelled, the SQL literal layer is.
- Unicode: strings are sequences of characters, and Go's byte order agrees with their order.
- The WAF's directives and the trimming of networks: one rule body each, opaque here.
- The order in which addons paths shadow each other: the composed path is one field value.
- Wall clock: `Retain` ignores the time it is given, and so does the model.
- MaskConfig.GreenmaskConfig: yields the list of tables with their rules, not the text around it nor the list of tables whose data is left out, which is `Masking.TablesToTruncate` line by line.
- StudyRuns.StudiesDescribeTheirImage: the condition on the pods is sufficient; a pod of another Job may happen to say what the right one would have.
- TierProofs.QueueTierLoadsTheRunner: says nothing for a field of the base that brings a modules line of its own, whose value is then rewritten instead of a line being added.
- EdgeRuns.StandsUnlessClash: the rules of a pass are fixed when it begins, and a call that is refused has had no effect.
- The lag of the API client's cache: a call answers with the store as it is at that call.
- A configuration parser beyond one key to a line: the reader takes a key in any case, with blanks before its equals sign or colon, and gives every value. Section headers, continuation lines, comments, a lone carriage return as the end of a line, and what a parser does with two values are left out.
- Placement.Place: names two candidates may share are not told apart; order independence assumes distinct names.
