# A verified model of the crossplane infrastructure operator

The operator joins Kubernetes clusters into meshes of VPC peerings, attaches security groups to
machine pools, and can print a plan of what it would change. This project models the three parts
of it that hold hard state and proves what they are for. `dafny verify dfyconfig.toml` checks it.

**The dry-run plan** (`pkg/dryrun`). Workers reconcile many objects at once and record every write
in one shared plan; a conflict erases what one object recorded and runs it again; at the end the
plan becomes one text, one summary and one exit code.

- `Records` is the data of a plan and the effect of each record; `Plans` is the `Plan` object, whose
  methods keep it equal to the replay of its history.
- `Confluence` erases a source from a history, `Locality` shows that the plan of a history is the
  sum of what each source did alone, and `Lanes` that one source's writes to one object refine a
  server with a status subresource.
- `Json`, `SortKey` and `Normalize` are JSON trees (objects and arrays as in sections 4 and 5 of
  RFC 8259), their text, and the form in which `describe` compares them; `Description` is `describe`.
- `Report` gives text and summary as functions of the maps of the plan, and `Writer` has the loops of
  `Write`, which pick the keys of maps in any order. `Symbols` and `Printed` say what both hold by the
  writes alone.
- `Client` is the dry-run client, `Once` the reconcile of one target, `Pool` the worker pool as a step
  relation over dispatcher, workers and context, and `WholeRun` the two phases end to end.
- `Waiting` reads off a target which objects it creates, `Schedules` builds runs of the pool, `PhaseSplit`
  and `Split` say exactly when pending or failed depends on the schedule, and `SameText` what two runs
  print alike. `Results` gives the result of each target, `Idle` says by its calls when an attempt changes
  nothing, and `ExitCodes` what the exit code means.

**Security groups under the cluster lock** (`pkg/aws/ec2/vpc.go`, `securitygroup_controller.go`).

- `Groups` has the group lists, `Machines` machine pools and whole operations on them.
- `ClusterLock` cuts operations into single API calls, lets any number of workers interleave and
  any call fail, and proves that every cluster is as if its operations ran one after another;
  `NoLostGroup` says what that means for the lists, the auto scaling groups and the instances.
- `References` follows the references of a SecurityGroup over edits, failures and deletion, and
  `Orphans` over edits at any moment.

**The cluster mesh** (`clustermesh_controller.go`, `pkg/crossplane`).

- `Mesh` describes what a join, a reconcile and a leave may do, `MeshController` has the methods that
  do it, `MeshSafety` proves what survives any failure, `MeshComplete` the complete graph and
  `LostWrites` what is left of both when deferred writes are lost.
- `MeshExamples` has runs from the empty world that show what fails without a hypothesis.
- `RangeRemoval` is the loop that shifts a list while ranging over it, `Routes` are the routes, and
  `MeshRoutes` puts routes on the peerings of a complete mesh.

## How the program is modelled

- A nil Go map reads as an empty map, and a JSON number is its text.
- Sources are told apart by the text of `Source.String`, as the code does.
- `sort.Slice` and `sort.Strings` are any ordered permutation; proofs show that the result is unique.
- A method that holds the plan's mutex is one step. The look at `created` and the storing of the
  result, two such methods, are one step `Finish`: nothing reads a result before the end.
- A wrapped error keeps its class, because the code tells errors apart with `errors.As`.
- The YAML printer and the unified diff are any functions of their arguments; a diff has lines and
  no line holds a newline.
- Plans print distinctly when the keys of objects are valid Kubernetes names (`Report.ValidKey`).
- What a reconcile writes (`Once.Target`) is given for both of its attempts: it reads the cache and
  the API, never the plan. It may be anything, so a context that ends midway is covered too.
- In the cloud nobody else writes, each launch template belongs to one machine pool and each pool to
  one cluster, and the references of a SecurityGroup resolve to one cluster, because only the cluster
  of the first resolvable reference is locked (`securitygroup_controller.go:254-291`, `:198`).
- A failed API call has no effect. Calls fail at any point, given by a number of calls that succeed.
  Every operation on machine pools has its own answers to its lookups of groups.
- In `References` a pool is attached when its list holds the group, for auto scaling groups and
  virtual node groups. A Karpenter pool has no list: it is attached from an attach until a detach that
  reaches all its instances. Runs over edits follow the pools that are not being deleted. `Env.silent` holds the pools where that detach fails, which the code
  only records as an event (`securitygroup_controller.go:664-667`).
- The mesh needs four hypotheses, which are predicates in `Mesh`. H1 (`Faithful`): a fresh spec equals
  the stored one. The code never refreshes a stored spec, although `docs/README.md:38` says that it
  updates it; the model follows the code. H2 (`Unambiguous`): joined names `x-y` are unambiguous. H3
  (`EndpointsOnly`): a name is part of a peering's name only as an endpoint. H4 (`StaysInGroup`): a
  cluster changes its group only while it is in no mesh. Reconciles of clusters run one at a time, as
  the README of the operator asks (worker count 1). `MeshSafety` and `MeshComplete` are about runs whose
  deferred writes arrive, `LostWrites` about those where any of them may be lost.
- Route names tell members, tables and peerings apart (`Routes.NamesApart`), which AWS names do.

## Model

| member | source | states |
|---|---|---|
| `SortKey.TextInjective` | pkg/dryrun/plan.go:569-572 | Two JSON trees with the same key-sorted text are equal: the text is uniquely decodable |
| `Ordering.StrLessMeans` | pkg/dryrun/plan.go:574-581 | Names are sorted lexicographically: one is before another if and only if at the first place where they differ it ends or has the smaller character |
| `Normalize.UnstableSortIsDetermined` | pkg/dryrun/plan.go:558-560 | Any result that the unstable sort of normalized elements may give is the same list, so the input order cannot show |
| `Normalize.SortSame` | pkg/dryrun/plan.go:558-560 | Sorting two permutations of the same normalized elements gives the same list |
| `Normalize.CanonicalForm` | pkg/dryrun/plan.go:536-567 | Objects normalize to the same tree if and only if they are equal up to entries that are empty lists and, with sorting, up to the order of list elements at every depth |
| `Normalize.NormalizeTwice` | pkg/dryrun/plan.go:540-567 | Normalizing is idempotent, and the sorted form factors through the unsorted one |
| `Description.NoChange` | pkg/dryrun/plan.go:485-487 | A write shows no change exactly when it neither creates nor deletes and both objects are equal but for empty lists |
| `Description.OnlyOrder` | pkg/dryrun/plan.go:489-492 | A change is "order only" exactly when it moves list elements and does nothing else |
| `Description.SortedFormOfUnsorted` | pkg/dryrun/plan.go:485-492 | Objects that are equal but for empty lists are equal up to order as well |
| `Description.DeleteOfDeleting` | pkg/dryrun/plan.go:471-474 | A delete leaves the description as it is if and only if the write deletes already or the object is being deleted |
| `Description.Labels` | pkg/dryrun/plan.go:471-498 | By the flags of a write and the fields of its objects: it is a delete if and only if it deletes and `metadata.deletionTimestamp` of the live object is missing or null; a create if and only if it creates and is no such delete; a release if and only if, compared, it takes the last finalizer from an object being deleted and changes more than order; an update in the other changes that are more than order, and order only in the rest |
| `Description.LinesShown` | pkg/dryrun/plan.go:475-509 | A create shows each line of the sorted desired object behind "+ ", without an empty status; updates and releases show the difference from the sorted live to the sorted desired object; deletes and order-only changes show no lines |
| `Confluence.ForgetApply` | pkg/dryrun/plan.go:223-245 | Forgetting a source commutes with every operation of the others and swallows its own |
| `Confluence.Erasure` | pkg/dryrun/plan.go:223-245 | After any interleaved history, `forget` leaves exactly the plan of the history without the records of the source |
| `Locality.ViewApply` | pkg/dryrun/plan.go:131-270 | An operation changes what the plan holds of its own source only, and that part alone decides how |
| `Locality.ViewIsLocal` | pkg/dryrun/plan.go:131-270 | What a plan holds of a source is what its own operations build up alone |
| `Locality.ReplayTidy` | pkg/dryrun/plan.go:227-243 | No plan has an object without writes, or a cloud change without sources or with one twice |
| `Locality.PlanConfluence` | pkg/dryrun/plan.go:131-270 | Two interleavings of the same operations per source give the same writes, errors, cloud changes up to the order of sources, and the same incomplete results |
| `Lanes.FoldIsTwoLanes` | pkg/dryrun/plan.go:130-186 | `desired` is the last main write with the status of the last status write or create, each lane starting from the first live object |
| `Lanes.MainAndStatusCommute` | pkg/dryrun/plan.go:153-180 | A main update and a status update next to each other may change places anywhere in a sequence of writes |
| `Lanes.PlanHoldsFold` | pkg/dryrun/plan.go:130-186 | The write in the plan for a source and an object is the fold of exactly the records for them |
| `Plans.Compact` | pkg/dryrun/plan.go:234-240 | The compaction in the array keeps the other sources in their order |
| `Plans.Plan.constructor` | pkg/dryrun/plan.go:59-67 | A new plan is empty, with an empty history |
| `Plans.Plan.WriteTo` | pkg/dryrun/plan.go:130-143 | The stored write of a source to an object is the one that was there, or one that starts from the live object |
| `Plans.Plan.RecordCreate` | pkg/dryrun/plan.go:145-151 | The plan is the replay of its history with this create at the end |
| `Plans.Plan.RecordUpdate` | pkg/dryrun/plan.go:153-166 | The plan is the replay of its history with this main update at the end |
| `Plans.Plan.RecordStatusUpdate` | pkg/dryrun/plan.go:168-180 | The plan is the replay of its history with this status update at the end |
| `Plans.Plan.RecordDelete` | pkg/dryrun/plan.go:182-186 | The plan is the replay of its history with this delete at the end |
| `Plans.Plan.RecordCloudChange` | pkg/dryrun/plan.go:188-206 | The plan is the replay of its history with this cloud change at the end, each source once; its text is one from which its lines can be read back |
| `Plans.Plan.RecordWriteError` | pkg/dryrun/plan.go:208-214 | The plan is the replay of its history with this error at the end; the first error of a source stays |
| `Plans.Plan.WriteError` | pkg/dryrun/plan.go:216-220 | The recorded error of a source, if any |
| `Plans.Plan.ForgetSource` | pkg/dryrun/plan.go:222-245 | The plan is then the one of the history in which the source recorded nothing |
| `Plans.Plan.ForgetFromObjects` | pkg/dryrun/plan.go:227-232 | The loop, in any order of keys, removes the source's writes and the objects without writes |
| `Plans.Plan.ForgetFromCloud` | pkg/dryrun/plan.go:233-244 | The loop, in any order of keys, removes the source and the cloud changes without sources |
| `Plans.Plan.Creates` | pkg/dryrun/plan.go:247-263 | True if and only if some source creates an object of the group and name |
| `Plans.Plan.SetResult` | pkg/dryrun/plan.go:265-270 | The plan is the replay of its history with this result at the end |
| `Plans.Plan.Write` | pkg/dryrun/plan.go:311-453 | Text and summary depend on the history's plan alone, not on the order in which Go ranges over its maps. By the writes alone: how many objects are created, updated, only reordered and deleted; that each changed object is printed with its symbol, its name, its clusters and every line of its changes, and each cloud change and incomplete result; and that the text holds the counts |
| `Plans.ReplayKeyed` | pkg/dryrun/plan.go:137-142 | Every plan keeps writes and results under the names of their own sources |
| `Report.KeyStringInjective` | pkg/dryrun/plan.go:73-82 | Valid object keys print distinctly |
| `Report.ChangeIdInjective` | pkg/dryrun/plan.go:330-335 | Two changes with the same id are the same change, so grouping by id loses nothing |
| `Report.ObjectLabel` | pkg/dryrun/plan.go:351-364 | An object is "order only" if and only if all its changes are, and a delete if and only if some change is one |
| `Report.SummaryConserves` | pkg/dryrun/plan.go:345-436 | Creates, updates and deletes add up to the changed objects, reorders are among the updates, and the results add up |
| `Symbols.SymbolOf` | pkg/dryrun/plan.go:351-375 | A changed object is printed with "-" if and only if some write removes it, with "+" if and only if none does and the first source that alters it creates it, and with "~" otherwise |
| `Symbols.SummaryCounts` | pkg/dryrun/plan.go:365-436 | The counts are the numbers of objects that some write removes, that are created, that change otherwise and that are only reordered, of cloud changes, and of results by status |
| `Printed.TextShowsObject` | pkg/dryrun/plan.go:377-388 | The text holds the symbol, the kind, group, namespace and name of each changed object, and what happens to it |
| `Printed.TextShowsLine` | pkg/dryrun/plan.go:379-386 | The text holds each line of the change that a source makes to an object |
| `Printed.TextShowsSources` | pkg/dryrun/plan.go:380-382 | When an object has several changes, the text tells for each exactly the sources that make it |
| `Printed.TextShowsClusters` | pkg/dryrun/plan.go:408-420 | The text names the clusters of the sources that change an object |
| `Printed.TextInOrder` | pkg/dryrun/plan.go:401-443 | The text is made of the blocks of exactly the changed objects and the cloud changes, each once, by clusters and then by key, and of the lines of exactly the pending and failed reconciles, by source |
| `Printed.FooterCounts` | pkg/dryrun/plan.go:448-449 | The last line tells each count of the summary before its name |
| `Writer.GroupWrites` | pkg/dryrun/plan.go:322-343 | In any order of sources, the changes are grouped so that each group has exactly the sources that make it |
| `Writer.ListChanges` | pkg/dryrun/plan.go:345-350 | Sorting the changes by their first sources has one result, because no two share it |
| `Writer.LabelOf` | pkg/dryrun/plan.go:351-364 | The two loops compute the label of the list of changes |
| `Writer.WriteObjects` | pkg/dryrun/plan.go:322-388 | In any order of keys, there is one entry for each changed object, and the counts are the numbers of objects by symbol |
| `Writer.WriteCloud` | pkg/dryrun/plan.go:390-399 | In any order of keys, there is one entry for each cloud change |
| `Writer.CollectResults` | pkg/dryrun/plan.go:422-436 | In any order of keys, the counts are the numbers of results by status, and the incomplete ones are listed once |
| `Writer.BlocksText` | pkg/dryrun/plan.go:408-420 | The entries in order, with a header before the first one of each group of clusters |
| `Writer.ResultText` | pkg/dryrun/plan.go:437-443 | One line for each incomplete result, in order |
| `Writer.WritePlan` | pkg/dryrun/plan.go:314-453 | For every order in which the maps are visited and every ordered result of the unstable sorts, the same text and summary |
| `Client.RecordWriteError` | pkg/dryrun/client.go:100-116 | Every failed write is recorded, except an existing object on create and a missing one on delete |
| `Client.AddRecord` | pkg/dryrun/client.go:118-142 | A write is recorded with its verb if both objects can be converted, and nothing otherwise |
| `Client.Attempted` | pkg/dryrun/client.go:152-218 | The first failing step of a call decides its error; a delete asks the server before it reads the object |
| `Client.Write` | pkg/dryrun/client.go:152-281 | A call that goes well changes one write and nothing else: an update, a patch or a write of a subresource other than "status" sets all fields but the status, one of "status" sets the status alone, a create starts from nothing, and a delete keeps the object. A call that fails ends with the first thing that goes wrong and leaves only the first error of its source, and nothing when a create finds the object or a delete does not |
| `Client.NoError` | pkg/dryrun/client.go:104-116 | An attempt records no error if and only if each of its writes succeeds or fails as expected |
| `Once.ReconcileOnce` | pkg/dryrun/once.go:201-216 | An attempt that returns no error still fails with its first unexpected write error, and a panic is an error |
| `Once.Conclude` | pkg/dryrun/once.go:184-195 | The result has the class that the outcome has by the plan of that moment |
| `Once.RetriesExactly` | pkg/dryrun/once.go:175-182 | A target runs a second time if and only if its first attempt returns a conflict, or returns no error although a write failed, the first of them with a conflict |
| `Once.Reconcile` | pkg/dryrun/once.go:168-199 | A target runs once, or after a conflict is forgotten and runs a second time, and records one outcome |
| `Once.LastAttemptOnly` | pkg/dryrun/once.go:175-182 | In any interleaving with other targets, the records of a target are those of its last attempt alone |
| `Once.RecordedError` | pkg/dryrun/once.go:208-214 | The write error that the plan keeps of an attempt is its first unexpected one |
| `Once.CompletesExactly` | pkg/dryrun/once.go:175-216 | A target is ok if and only if its last attempt returns no error, does not panic or ask to run again within the hour, and no write of it fails unexpectedly |
| `Pool.InvStep` | pkg/dryrun/once.go:136-166 | Every step of dispatcher, workers or context keeps the account of what was done for each target |
| `Pool.PoolReturns` | pkg/dryrun/once.go:136-166 | When `run` returns: no worker is left, each target was entered at most once and skipped ones never, and each target has exactly one recorded outcome |
| `Pool.AtMostWorkers` | pkg/dryrun/once.go:139-149 | At any moment at most max(workers, 1) reconciles run, each of another target |
| `Pool.MeasureStep` | pkg/dryrun/once.go:136-166 | Every step brings the end nearer |
| `Pool.Progress` | pkg/dryrun/once.go:150-165 | Until `run` returns, the dispatcher or a worker can go on, whether or not the context ends |
| `Pool.Terminates` | pkg/dryrun/once.go:136-166 | No run is longer than the measure of its start, and a run that cannot go on has returned |
| `WholeRun.SourceNamesDiffer` | pkg/dryrun/plan.go:29-34 | Sources of different Kubernetes objects have different names |
| `WholeRun.OwnInRun` | pkg/dryrun/once.go:66-98 | In a run of both phases, each target's part of the history is what its own phase did for it, and nobody else records |
| `WholeRun.ClustersFirst` | pkg/dryrun/once.go:29-33 | Everything that reconciles of Clusters do to the plan comes before everything that those of SecurityGroups do |
| `WholeRun.RunConfluence` | pkg/dryrun/once.go:36-100 | Two runs over the same targets without a deadline, with any numbers of workers and any schedules, end in the same plan |
| `WholeRun.SameReport` | pkg/dryrun/plan.go:288-452 | Equal plans have the same blocks and the same exit code, and all counts are equal but those of pending and failed, whose sum is |
| `Waiting.CreatedBySource` | pkg/dryrun/plan.go:247-263 | A plan creates an object if and only if the operations of some source alone do |
| `Waiting.ScriptCreates` | pkg/dryrun/once.go:175-182 | A whole reconcile creates exactly what an accepted create of its last attempt makes |
| `Waiting.PartCreates` | pkg/dryrun/once.go:175-182 | What any part of a reconcile creates, an accepted create of one of its attempts makes |
| `PhaseSplit.PhaseExactly` | pkg/dryrun/once.go:184-195 | In one phase, exactly when some schedule calls a reconcile that does not find an object failed, and exactly when one calls it pending |
| `Split.ResultFixed` | pkg/dryrun/once.go:184-195 | Without a deadline the result of a target is the same in all runs with any numbers of workers, unless its reconcile does not find an object that another target of its own phase may create |
| `Split.GroupSplit` | pkg/dryrun/once.go:184-195 | For a SecurityGroup that does not find an object and every number of workers: some run calls it failed if and only if neither it nor a Cluster creates the object in the end and fewer SecurityGroups before it than workers do; some run calls it pending if and only if one of those does, or another SecurityGroup may create it in time |
| `Split.ClusterSplit` | pkg/dryrun/once.go:184-195 | The same for a Cluster, where only its own creates are there for sure |
| `Split.SplitMayDiffer` | pkg/dryrun/once.go:187-190 | Two SecurityGroups and two workers: one run calls the second failed, another pending |
| `Results.RunResults` | pkg/dryrun/once.go:136-216 | In every run of both phases: a skipped target is skipped with its reason; one that the end of the context leaves is failed; else the last attempt decides: ok if and only if it succeeds, pending when it asks to run again within the hour or waits for a security group, and failed with its error or panic, but pending when what it does not find is created by the plan |
| `SameText.SameTexts` | pkg/dryrun/plan.go:408-452 | The texts of equal plans are the same if nothing is incomplete; otherwise they differ only in the lines of the incomplete reconciles, which name the same sources in the same order, and in the counts of pending and failed |
| `SameText.SamePrinted` | pkg/dryrun/plan.go:285-453 | When no target depends on the schedule, any two runs without a deadline print the same text and the same summary |
| `WholeRun.ZeroIsNothing` | pkg/dryrun/plan.go:288-297 | The exit code is 0 if and only if no result is incomplete, no object changes and no cloud change exists |
| `WholeRun.ZeroExit` | pkg/dryrun/plan.go:285-297 | End to end, with any schedule and deadline: the exit code is 0 if and only if every target was skipped, or reconciled by a last attempt that succeeds, has no unexpected write error and changes nothing |
| `ExitCodes.CodeOfPlan` | pkg/dryrun/plan.go:288-297 | The exit code is 1 if and only if some result is pending or failed, and otherwise 2 if and only if a write of the plan changes something or it has a cloud change |
| `ExitCodes.OneExit` | pkg/dryrun/plan.go:285-297 | End to end: the exit code is 1 if and only if some target was not skipped and its last attempt did not run or did not succeed |
| `Idle.HarmlessExactly` | pkg/dryrun/client.go:152-281 | A last attempt changes nothing if and only if it succeeds, has no cloud change, and its accepted calls on each object create nothing, delete only what is being deleted, and end with the fields and the status that were there |
| `ExitCodes.TwoExit` | pkg/dryrun/plan.go:285-297 | End to end, by the calls of the attempts alone: the exit code is 2 if and only if every target completes and one changes AWS, Spot or an object, and 0 if and only if every target completes and none does |
| `ExitCodes.UpdateShows` | pkg/dryrun/client.go:164-180 | An attempt whose only act is an accepted update or patch whose objects differ outside the status is not harmless |
| `Groups.SortStrings` | pkg/aws/ec2/vpc.go:243-244 | Sorts the slice of the caller |
| `Groups.Attached` | pkg/aws/ec2/vpc.go:243-258 | The list of an attach, or a failure exactly when a group cannot be looked up; the read list is left sorted |
| `Groups.Detached` | pkg/aws/ec2/vpc.go:302-308 | The list without any occurrence of the group, in order |
| `Groups.RemoveFirstIn` | internal/controller/ec2.aws/securitygroup_controller.go:695-696 | The elements after the first occurrence move down in the array; the rest stays in order |
| `Groups.IsAttached` | pkg/aws/ec2/vpc.go:31-39 | True if and only if the group is in the list |
| `Groups.AttachNormalForm` | pkg/aws/ec2/vpc.go:243-258 | The attach makes the one sorted list that holds the group once and every other existing group as often as before |
| `Groups.NoWrite` | pkg/aws/ec2/vpc.go:260-264 | Nothing is written if and only if the list holds the group exactly once and all others still exist |
| `Groups.SecondAttach` | pkg/aws/ec2/vpc.go:257-264 | A second attach writes nothing |
| `Groups.DetachesAgree` | internal/controller/ec2.aws/securitygroup_controller.go:691-697 | Removing the first occurrence removes the group if and only if the list holds it at most once |
| `Groups.DetachAfterAttach` | pkg/aws/ec2/vpc.go:296-310 | Detach after attach, of either kind, leaves exactly the other existing groups |
| `Machines.WantedList` | pkg/aws/ec2/vpc.go:235-310 | The list for a new launch template version, none when the attach needs none, a failure when a lookup fails |
| `Machines.Aws.PatchInstances` | pkg/aws/ec2/vpc.go:63-137 | A prefix of the instances is patched, all of them without a failure. By states: in a virtual node group exactly the running ones change; elsewhere an attach leaves the group on those that start, run or are stopped and no other changes, and a detach takes it from all but the terminated ones; other groups stay |
| `Machines.Aws.ChangeAsg` | internal/controller/ec2.aws/securitygroup_controller.go:505-542 | An attach or detach comes nowhere, to an unused version, or to its end, and ends without error exactly in the last case; when no call fails, it is an error exactly without a version, an interface or a group in the last one, or when an attach cannot look a group up |
| `Machines.Aws.AttachToVng` | internal/controller/ec2.aws/securitygroup_controller.go:433-503 | The same for a virtual node group, whose list is written only when it differs once sorted |
| `Machines.Aws.DetachFromVng` | internal/controller/ec2.aws/securitygroup_controller.go:687-745 | A list without the group is left alone, instances included; otherwise the first occurrence goes. After a success no running instance has the group if and only if none that was left unpatched had it |
| `Machines.DetachedClean` | internal/controller/ec2.aws/securitygroup_controller.go:687-745 | After a detach that patched the first n instances, no running instance has the group if and only if none from the n-th on had it |
| `Machines.RetryKeepsInstances` | internal/controller/ec2.aws/securitygroup_controller.go:691-729 | After a detach that updated the list and then could not list the instances, the retry changes nothing, so the instances keep the group |
| `ClusterLock.CallStep` | internal/controller/ec2.aws/securitygroup_controller.go:505-542 | Each API call of an undisturbed operation leads it one step on towards the outcome of the whole operation |
| `ClusterLock.FailStep` | internal/controller/ec2.aws/securitygroup_controller.go:505-542 | An operation whose next call fails leaves one of the three outcomes |
| `ClusterLock.InvStep` | internal/controller/ec2.aws/securitygroup_controller.go:198-206 | Every call of any worker keeps each cluster equal to its serial log plus the operation under way |
| `ClusterLock.Serializable` | internal/controller/ec2.aws/securitygroup_controller.go:84-87 | In every interleaving of any number of workers with failures anywhere and any answer to each lookup, a cluster whose lock is free is what its operations make of it one after another, in the order of the lock |
| `NoLostGroup.OutcomeCount` | internal/controller/ec2.aws/securitygroup_controller.go:505-542 | An operation sets how often its own group is in the newest list, and keeps the number of every other group that its own lookups find |
| `NoLostGroup.SerialCount` | internal/controller/ec2.aws/securitygroup_controller.go:747-783 | After any log, the newest list holds a group once if the last operation that decides it attached it, and not at all if that detached it or found it gone |
| `NoLostGroup.SerialAtNewest` | internal/controller/ec2.aws/securitygroup_controller.go:522-529 | The auto scaling group uses the newest version unless the last operation stopped between creating and using one; the next that ends heals it |
| `NoLostGroup.NoLostSecurityGroup` | internal/controller/ec2.aws/securitygroup_controller.go:198-206 | Both at once for every interleaving, whenever the lock of the cluster is free; every operation has its own answers to its lookups |
| `NoLostGroup.SerialInstance` | pkg/aws/ec2/vpc.go:63-137 | An instance has a group exactly as the last operation that reached it says, which its state decides |
| `NoLostGroup.KarpenterDetachUnnoticed` | internal/controller/ec2.aws/securitygroup_controller.go:664-667 | A detach of a Karpenter pool whose instance call fails leaves the pool as it was and ends like one that reached every instance |
| `NoLostGroup.LostWithoutLock` | internal/controller/ec2.aws/securitygroup_controller.go:84-87 | Without the lock, whenever a second attach reads before the first writes, the first group is lost from the list in use |
| `References.SecurityGroup.AttachPools` | internal/controller/ec2.aws/securitygroup_controller.go:362-431 | The loop goes on after a pool that fails, reports an error if and only if one fails, and attaches all pools otherwise |
| `References.SecurityGroup.DetachPools` | internal/controller/ec2.aws/securitygroup_controller.go:632-685 | Reports an error if and only if a pool fails with one, and takes away exactly the pools before the first that ends the loop, except those that fail without effect and the Karpenter pools whose instances cannot be changed |
| `References.SecurityGroup.MarkAll` | internal/controller/ec2.aws/securitygroup_controller.go:964-977 | Adds the finalizer to all pools that can be patched |
| `References.SecurityGroup.UnmarkAll` | internal/controller/ec2.aws/securitygroup_controller.go:940-952 | Removes the finalizer from all pools that can be patched |
| `References.SecurityGroup.ReleaseDeleting` | internal/controller/ec2.aws/securitygroup_controller.go:859-876 | Returns the pools not being deleted; exactly those being deleted that carry the finalizer lose it where it can be patched, and lose the group exactly when the detach has effect |
| `References.SecurityGroup.AttachPoolRef` | internal/controller/ec2.aws/securitygroup_controller.go:796-823 | Succeeds if and only if the pool and its control plane can be read and the pool works; then the pool is attached and carries the finalizer |
| `References.SecurityGroup.AttachPlaneRef` | internal/controller/ec2.aws/securitygroup_controller.go:824-851 | Succeeds if and only if the control plane can be read, its pools can be listed, and they work, with a live cluster only those that stay. Then all its pools are attached, with a live cluster those that are not being deleted; of these others the marked ones that work lose the group unless their detach fails unnoticed, and none is added. Pools are marked only together with a control plane that has no finalizer yet |
| `References.SecurityGroup.AttachRef` | internal/controller/ec2.aws/securitygroup_controller.go:794-855 | One reference succeeds if and only if it has a supported kind and what that kind needs; it attaches only what it covers, on success all of it that is not being deleted; what becomes of pools being deleted and of the finalizers is exact |
| `References.SecurityGroup.EnsureAttach` | internal/controller/ec2.aws/securitygroup_controller.go:793-857 | Succeeds if and only if every reference of the spec can be attached; only pools of the references become attached, on success all that are not being deleted, and what is attached is exactly what the references make of it in their order |
| `References.LastingAttached` | internal/controller/ec2.aws/securitygroup_controller.go:793-857 | After the attaches a pool that is not being deleted is attached if and only if it was before or a reference means it |
| `References.DeletingReleased` | internal/controller/ec2.aws/securitygroup_controller.go:859-876 | A pool that is being deleted and belongs to live clusters only is never added, and is taken away if and only if it carries the finalizer and its detach has effect; the finalizer goes with it |
| `References.DeletingHeld` | internal/controller/ec2.aws/securitygroup_controller.go:796-842 | A pool that the last reference which means it names directly, or through a control plane without a live cluster, is attached even while it is being deleted |
| `References.SecurityGroup.DetachRef` | internal/controller/ec2.aws/securitygroup_controller.go:884-926 | One lost reference succeeds if and only if its objects can be read and listed and its pools work, and always with another kind; it detaches only pools that it covers, on success all but those whose detach fails unnoticed |
| `References.SecurityGroup.EnsureDetach` | internal/controller/ec2.aws/securitygroup_controller.go:878-928 | Succeeds if and only if every applied reference whose name is gone can be detached; only pools of these become detached, on success all but those whose detach fails unnoticed |
| `References.SecurityGroup.DetachForDelete` | internal/controller/ec2.aws/securitygroup_controller.go:562-620 | Fails if and only if the kind is not supported or a read or a listing fails; passes over objects that are gone, takes away exactly the pools that the detach reaches, whatever fails in it, and takes the finalizer exactly from a pool that it detaches, and from a control plane and its pools |
| `References.SecurityGroup.Delete` | internal/controller/ec2.aws/securitygroup_controller.go:544-630 | Goes through if and only if the cloud's group can be looked up and is gone, or each reference of the spec passes and the deletion is accepted; then it has taken away exactly the pools that the detaches reach, and no pool reference whose detach works and no control plane or pool of one keeps the finalizer where it can be patched |
| `References.SecurityGroup.Reconcile` | internal/controller/ec2.aws/securitygroup_controller.go:173-188 | Succeeds if and only if every reference of the spec can be attached, every lost one detached, and update and status arrive; the status is stored exactly when all but the update goes well. After a success a pool that is not being deleted is attached if and only if it was or the spec means it, unless a lost reference does and its detach is noticed; what becomes of those being deleted, and of the finalizers, is exact too |
| `References.SuccessExactly` | internal/controller/ec2.aws/securitygroup_controller.go:347-359 | Of the pools that are not being deleted: when one success after an edit ends with exactly the pools of the new references, if and only if: with a compatible edit, no attached pool of a lost reference fails to detach unnoticed; with nothing unnoticed, the edit is compatible |
| `References.SeparateIsCompatible` | internal/controller/ec2.aws/securitygroup_controller.go:879-885 | Edits are compatible when names identify references and references cover different pools |
| `References.AppliedTracksAttached` | internal/controller/ec2.aws/securitygroup_controller.go:347-359 | Over any run of compatible edits and reconciles that fail anywhere, of the pools that are not being deleted: once settled, the attached pools are those of the spec, which is applied, and those that escaped; exactly those of the spec if and only if none escaped |
| `References.EscapedExactly` | internal/controller/ec2.aws/securitygroup_controller.go:632-685 | A pool has escaped if and only if some success dropped its reference while its detach failed unnoticed, and no later settled spec covers it |
| `References.UnnoticedStaysAttached` | internal/controller/ec2.aws/securitygroup_controller.go:664-667 | Such a pool stays attached after the success and through every later reconcile of that spec |
| `References.UnnoticedExample` | internal/controller/ec2.aws/securitygroup_controller.go:664-667 | A run of the methods from nothing attached: of two references to Karpenter pools one is dropped while its pool's instances cannot be changed, that reconcile and a later one succeed, and both pools are still attached |
| `References.SecondSuccess` | internal/controller/ec2.aws/securitygroup_controller.go:878-928 | Two successes end with exactly the pools of the references if and only if every other attached pool belongs to a lost reference and is detached; so a pool that lost one of two covers is back |
| `References.SameNameStaysAttached` | internal/controller/ec2.aws/securitygroup_controller.go:879-885 | The comparison by name alone fails: a pool reference replaced by a control plane reference of the same name leaves the pool attached for all later reconciles |
| `Orphans.SuccessFromAny` | internal/controller/ec2.aws/securitygroup_controller.go:347-359 | From any state, after any edits and failures, a reconcile that ends stores exactly the pools of the spec if and only if every attached pool is one of them or is detached, and none of them is detached with a lost reference |
| `Orphans.OrphansExactly` | internal/controller/ec2.aws/securitygroup_controller.go:878-928 | Over any run of edits at any moment and reconciles that fail anywhere: an attached pool that neither spec nor status names is one that an edit dropped before it was applied, or that a reconcile dropped without detaching it, and that no later edit names |
| `Orphans.OrphansAreEscaped` | internal/controller/ec2.aws/securitygroup_controller.go:632-685 | When each edit is compatible and waits for the reconcile of the last one, these are the pools that escaped |
| `Orphans.OrphanExample` | internal/controller/ec2.aws/securitygroup_controller.go:173-188 | A run of the methods: a pool is added and attached, its status is not stored, it is taken out again, a reconcile without any failure succeeds, and the pool is still attached |
| `References.FinalizersFollow` | internal/controller/ec2.aws/securitygroup_controller.go:930-977 | After a success with separate references, what each reference of the spec names carries the finalizer, and nothing that a lost reference means does |
| `References.DeletionIsComplete` | internal/controller/ec2.aws/securitygroup_controller.go:562-628 | A deletion that goes through from a settled state leaves nothing attached if and only if no pool has escaped and all pools of the spec are taken away; when all pools work, if and only if none of the attached ones fails to detach unnoticed |
| `RangeRemoval.RemoveWhileRanging` | internal/controller/clustermesh.infrastructure/clustermesh_controller.go:369-373 | The loop runs out of range if and only if the last element is a second match, and otherwise leaves the old list without the matches it looks at |
| `RangeRemoval.RemovesExactly` | internal/controller/clustermesh.infrastructure/clustermesh_controller.go:369-373 | It removes exactly the matches, in order and in range, if and only if no two are adjacent and the last element is no second match |
| `RangeRemoval.DistinctNamesRemove` | internal/controller/clustermesh.infrastructure/clustermesh_controller.go:369-373 | With pairwise distinct names it always does |
| `MeshController.Reconciliation.OwnedRefs` | pkg/crossplane/crossplane.go:290-310 | Lists each owned peering once, in any order |
| `MeshController.Reconciliation.IsAlreadyPeered` | pkg/crossplane/crossplane.go:238-245 | True if and only if the status names a peering of the two clusters in either direction |
| `MeshController.Reconciliation.CreatePeering` | pkg/crossplane/crossplane.go:190-206 | Makes the peering unless one of its name exists, and names it in the status |
| `MeshController.Reconciliation.LinkMembers` | internal/controller/clustermesh.infrastructure/clustermesh_controller.go:416-436 | Links the cluster to a prefix of the members, to all of them on success |
| `MeshController.Reconciliation.DeletePeering` | pkg/crossplane/crossplane.go:220-236 | Deletes the peering, if it is there, and the first reference to it |
| `MeshController.Reconciliation.DeletePeerings` | internal/controller/clustermesh.infrastructure/clustermesh_controller.go:389-398 | Deletes the peerings whose names contain the cluster's, from a prefix of the references, from all on success |
| `MeshController.Reconciliation.RemoveFromSpec` | internal/controller/clustermesh.infrastructure/clustermesh_controller.go:400-405 | Removes the first member of that name and keeps the others in order |
| `MeshController.Reconciliation.FindMesh` | internal/controller/clustermesh.infrastructure/clustermesh_controller.go:576-590 | Finds a mesh with the cluster if and only if there is one |
| `MeshController.Reconciliation.WriteBack` | internal/controller/clustermesh.infrastructure/clustermesh_controller.go:185-201 | The deferred patch stores the members and the deferred update the sorted references, each unless it is lost, and neither when no member is left |
| `MeshController.Reconciliation.JoinMesh` | internal/controller/clustermesh.infrastructure/clustermesh_controller.go:260-296 | Adds the member and links a prefix of the members, also when the update or a later stage fails |
| `MeshController.Reconciliation.ReconcileNormal` | internal/controller/clustermesh.infrastructure/clustermesh_controller.go:235-270 | Does only what a join may do, with what the lost deferred writes leave out; it fails only when no further call succeeds, after no more calls than the members need |
| `MeshController.Reconciliation.ReconcileDelete` | internal/controller/clustermesh.infrastructure/clustermesh_controller.go:355-414 | Does only what a leave may do, with what the lost deferred writes leave out; it fails only when no further call succeeds, after no more calls than the references need |
| `MeshController.Reconciliation.Reconcile` | internal/controller/clustermesh.infrastructure/clustermesh_controller.go:184-233 | Joins a cluster with a group, lets a member without one leave, and changes nothing for others; it does not fail while more calls succeed than the members and references of any mesh need |
| `MeshSafety.NewName` | pkg/crossplane/crossplane.go:238-245 | Two members that the status does not show as peered have no peering, so a create never meets an existing one |
| `MeshSafety.LinkInv` | internal/controller/clustermesh.infrastructure/clustermesh_controller.go:423-433 | Linking two members keeps the invariant |
| `MeshSafety.NoneJoins` | internal/controller/clustermesh.infrastructure/clustermesh_controller.go:389-398 | After the deletes of a leave, no peering of the mesh joins the cluster |
| `MeshSafety.ReconciledInv` | internal/controller/clustermesh.infrastructure/clustermesh_controller.go:184-233 | Every reconcile whose deferred writes arrive keeps, wherever it fails: members unique and in one mesh, references exactly the owned peerings, every peering between two distinct members, no pair twice |
| `MeshComplete.FaultyRunIsSafe` | internal/controller/clustermesh.infrastructure/clustermesh_controller.go:184-233 | That holds in every state of every run with failures |
| `MeshComplete.ReconcileJoins` | internal/controller/clustermesh.infrastructure/clustermesh_controller.go:416-436 | An error-free reconcile joins its cluster to all other members, whatever failed before, and keeps all other peerings |
| `MeshComplete.LeaveDeletes` | internal/controller/clustermesh.infrastructure/clustermesh_controller.go:391-398 | A leave deletes exactly the named peerings whose names contain the cluster's: only its own if and only if no other name does |
| `MeshComplete.ErrorFreeRunIsComplete` | internal/controller/clustermesh.infrastructure/clustermesh_controller.go:235-270 | Under H1-H4, after every step of every error-free run every two members have exactly one peering |
| `MeshComplete.ErrorFreeRunCounts` | internal/controller/clustermesh.infrastructure/clustermesh_controller.go:416-436 | A mesh of n members then has n(n-1)/2 peerings, one for each pair, and its status names as many |
| `MeshComplete.DriftPeersWithItself` | internal/controller/clustermesh.infrastructure/clustermesh_controller.go:424-432 | Without H1: after an error-free reconcile a peering of the cluster with itself is there if and only if it was before or the stored spec differs from the fresh one |
| `MeshComplete.PairedExactly` | pkg/crossplane/crossplane.go:238-245 | Without H2: after an error-free reconcile a member is paired with the cluster if and only if it was before, or neither joined name is taken by another pair and the name of the new peering is free |
| `MeshExamples.AmbiguousRun` | pkg/crossplane/crossplane.go:238-245 | Without H2, from the empty world: four clusters join one mesh without any failure, the first two take the joined name of the last two, and these stay unpeered |
| `MeshExamples.AmbiguousNames` | pkg/crossplane/crossplane.go:40-40 | The names "b-c", "a", "c" and "a-b" are such names |
| `MeshComplete.DashFreeNames` | pkg/crossplane/crossplane.go:40-40 | Names without a dash satisfy H2 |
| `MeshComplete.DashFreeParts` | internal/controller/clustermesh.infrastructure/clustermesh_controller.go:392-392 | Such names satisfy H3 when none is part of another |
| `LostWrites.NothingLost` | internal/controller/clustermesh.infrastructure/clustermesh_controller.go:185-201 | When both deferred writes arrive, a reconcile is the one of the results above |
| `LostWrites.LossyRunIsSafe` | internal/controller/clustermesh.infrastructure/clustermesh_controller.go:185-201 | In every state of every run, wherever reconciles fail and whichever deferred writes are lost: members are unique and in one mesh, every peering has the name of two different clusters, and no mesh owns two for one pair |
| `LostWrites.RunKeepsSorted` | internal/controller/clustermesh.infrastructure/clustermesh_controller.go:184-201 | In every state of such a run the references in the status of every mesh are sorted |
| `LostWrites.LeaveMisses` | internal/controller/clustermesh.infrastructure/clustermesh_controller.go:391-398 | A leave without failure keeps a peering of its cluster if and only if the stored status does not name it, and deletes no other |
| `LostWrites.JoinHeals` | internal/controller/clustermesh.infrastructure/clustermesh_controller.go:416-436 | A join without failure whose status update arrives makes the references exact again, whatever was lost before, if and only if each name that it gives to a new peering is free |
| `LostWrites.LostStatusLosesPeering` | internal/controller/clustermesh.infrastructure/clustermesh_controller.go:185-201 | A concrete loss, for any two clusters: one joins the other, its status update is lost, it leaves without a failure, and the peering is still there |
| `Routes.Router.IsCreated` | pkg/crossplane/crossplane.go:247-269 | True if and only if there is a route at all and every table has this one |
| `Routes.Router.ManageRoutes` | internal/controller/clustermesh.infrastructure/clustermesh_controller.go:477-495 | Creates only routes of these tables over this peering, and all that are missing on success |
| `Routes.Router.ReconcileRoutes` | internal/controller/clustermesh.infrastructure/clustermesh_controller.go:438-475 | Walks the peerings in order, ends where one is not ready or its VPC information is missing, and otherwise only fails if a call does; even then each new route is in one of the member's own tables, named after it and the peering, and leads over a peering that joins the member's block with the block of the route |
| `Routes.NotReadyRequeues` | internal/controller/clustermesh.infrastructure/clustermesh_controller.go:446-452 | A reconcile finishes if and only if every peering is ready and tells what is read of it: the accepter; the requester, unless the accepter is the member; and the block on the other side, if one of them is |
| `Routes.SideMeans` | internal/controller/clustermesh.infrastructure/clustermesh_controller.go:453-463 | By the blocks of a peering: it leads to a block if and only if it joins that with the member's, it is passed over if and only if it tells what is read and neither block is the member's |
| `Routes.OthersPassed` | internal/controller/clustermesh.infrastructure/clustermesh_controller.go:453-463 | A ready peering of two other blocks neither ends a reconcile nor adds a route |
| `Routes.AwsNamesApart` | pkg/crossplane/crossplane.go:94-102 | Route names, which join table and peering id by a dash, tell members, tables and peerings apart when tables are named as AWS does |
| `Routes.WalkCovers` | internal/controller/clustermesh.infrastructure/clustermesh_controller.go:438-475 | With any routes in the store, a finished reconcile keeps them all, and has a route over each peering of the member in each of its tables if and only if it was there or its name is free |
| `Routes.RoutesExactly` | internal/controller/clustermesh.infrastructure/clustermesh_controller.go:438-495 | The same for one table and one peering: the route is there at the end if and only if it was there before or its name was free |
| `Routes.RoutesComplete` | internal/controller/clustermesh.infrastructure/clustermesh_controller.go:438-495 | Once every member of a ready mesh was reconciled, in any order and with any other routes in the store: every two members have a peering, and over it each table of either has a route to the other if and only if every route that has a wanted name is the wanted one, or the wanted one is there under another name |
| `MeshRoutes.MeshMatches` | internal/controller/clustermesh.infrastructure/clustermesh_controller.go:416-475 | A complete mesh with distinct blocks whose peerings are ready and tell the blocks of their clusters is what the routes need |
| `MeshRoutes.RunRoutes` | internal/controller/clustermesh.infrastructure/clustermesh_controller.go:184-233 | From the empty world: after any error-free run under H1-H4, once the peerings are ready and every member was reconciled, every two members have a peering with routes in both directions, each if and only if no other route has a wanted name |

## Left out

- The AWS, Spot, Kubernetes and controller-runtime clients, informer caches and admission webhooks: abstract stores whose calls may fail stand for them.
- The YAML printer and the unified diff: only the equality decisions of `describe` matter, so both are arbitrary functions.
- The lines of a cloud change: `Write` prints only their joined text, which is the key of the change.
- Credentials, region and VPC lookup, hashing of secrets, tags, metrics, events, logging, flags and `cmd/main.go`: plumbing.
- `Once` up to the lists of targets (listing, filters, `securityGroupClusters`): simple folds; a run starts from the targets.
- `markFalse`: its truncation rests on a standard library UTF-8 routine.
- `validateClusterMesh`, the SecurityGroup of a mesh member and its finalizers: the mesh model keeps only that these stages may fail.
- The `ErrSecurityGroupNotAvailable` branch of `ensureAttachReferences` (`securitygroup_controller.go:816-818`): no error of an attach is of that class.
- The crossplane SecurityGroup before the references are attached (`securitygroup_controller.go:301-345`): it must be available before the modelled part starts.
- Launch template versions given as `$Latest` or `$Default` in an auto scaling group: versions are numbers.
- The other fields of a launch template's first network interface: a new version holds that interface with the new list, and the other interfaces are dropped, as in the code.
- Pools that are created or begin to be deleted during a run of edits: `References` and `Orphans` have runs in a fixed world.
- That all pools of a referenced control plane carry the finalizer: false for pools created after the control plane got it.
- References.SecurityGroup.Reconcile: the finalizers that a failed reconcile leaves are not stated.
- Pool.PoolReturns: a worker's reconcile is the list of its operations on the plan; what it does between them is not part of this model.
- Concurrent reconciles of two clusters of one mesh: the operator runs them one at a time.
