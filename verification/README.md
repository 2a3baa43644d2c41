# AKS app routing operator: verified models of its control logic

The application routing operator installs and maintains ingress controllers,
external-dns and Key Vault certificates in a Kubernetes cluster. This project models
the parts of it where the outcome depends on interleaving, on history or on several
controllers agreeing, and proves what they guarantee. `dafny verify dfyconfig.toml`
checks everything.

**Collision counts of NginxIngressControllers.** The objects of a controller are named
`<prefix>-<count>`. A reconcile scans counts until none of its objects belongs to
somebody else, stores the count and writes the objects, under a mutex keyed by the
prefix. `CollisionCount` has the two loops and the least-free-count theorem;
`CollisionProtocol` is the same protocol as a state machine in which any number of
reconciles interleave at every Get, write and lock operation, with failures, stale
reads of the controller's own object, and other actors deleting and creating objects.
`ProtocolSafety` proves that in every run no controller overwrites another one's
prefix-derived object, and `ReconcileEndings` what the way a reconcile ended says about
the cluster. `IngressClassRace` shows that this is not so for the
IngressClass, whose name is not covered by the lock, and that exclusivity of all
objects holds if and only if controllers with one IngressClass name share a lock. The
failing run has two reconciles under way at once. The controller is set up with the
default of one worker (nginx_ingress_controller.go:83-88), in one process, which is also
as far as its mutex reaches; for that the theorem on sequential runs applies.
`Pigeonhole` proves that up to five controllers on a prefix never run out of counts, with
controllers reading outdated copies of themselves or with others deleting objects;
`WholeReconciles` and `CountsRunOut` construct the runs that show five to be the limit for
either nuisance, and one controller to be the limit for both together. `NicStatus` has the status conditions derived
from a reconcile, and `NicReport` what a run of the protocol makes of them.

**Concurrency watchdog.** Pods with far more connections than the mean get votes in a
ring of twenty slots, and a pod with enough recent votes is evicted. `Votes` proves
eviction safety over whole runs on plain values, `Watchdog` proves the ring and the
tick, written as a class over an array, against it, and `WatchdogArithmetic` proves
that with a threshold above the mean some ready pod is spared whenever there are
connections. `IdleRounds` has the exact condition, and what rounds without connections
lead to.

**SecretProviderClasses.** One generic reconcile loops over what an object's iterator
yields while it changes that very object. `SpcReconcile` proves, for every iterator its
own changes do not disturb, that the loop does what the original items say, that a
second reconcile is a no-op, and that after any number of attempts cut off by errors a
reconcile ends as if they had never been; `SpcGateway` and `SpcIngress` instantiate it
and say exactly which Gateways and Ingresses reconcile.
`GatewayOutcome` states what each listener ends up with, `SpcInterference` when one owner
leaves the SPCs of another alone, `ServiceAccountIndex` that the wake-up index misses
nothing, `PlaceholderPod` and `IngressPlaceholder` when the second controller that looks
at the same Gateway or Ingress agrees with the first.

**Others.** `DnsZones`: the one-pass zone validation decides a pairwise property and what
passes it always builds. `CachedClient`: retry, jitter, cache age and health over every
history of operations. `Retriever`: the algebra of resource-type lists for cleaning.

Where the code keeps state in fields and loops over it, the model is a class or a method
with a loop, proved against a function; the properties are lemmas about that function.

Some promises do not hold as one would first state them. Each has the failing
situation and the exact condition under which it does hold:

- exclusive IngressClass: fails in `RaceExists`, holds exactly as in `ExclusiveIffSerialIc`;
- a count for everybody: with either nuisance fails in `SixControllersRunOut` and holds
  exactly as in `AlwaysFitsIffFive`; with both at once fails in `TwoControllersRunOut` and
  holds exactly as in `AlwaysFitsBothIffOne`;
- its own SPC and certificate for every Key Vault listener: fails in `TruncationLosesSpc`
  and `TruncationSwapsCertificate`, holds exactly as in `KvListenerHasOwnSpcIff` and
  `ListenerIsServedIff` (SPC names are cut at 253 characters, so two listeners can meet in
  one name);
- SPCs of different Gateways apart: fails in `NeighbourTakesSpc` without any cut name, holds
  exactly as in `LeavesForeignSpcIff` and `FittingNamesMeetIff`;
- a placeholder pod for every SPC: fails in `TruncationLosesPod` and for a Gateway that is
  given another class in `UnmanagedLosesPods`, holds exactly as in `OutcomesAgreeIff`; that
  the pod of an Ingress has the identity its SPC needs holds exactly as in
  `IngressPodSuitsIff`;
- some ready pod spared in every round: fails in `IdleRoundVotesOnAllOldPods`, with the
  consequence in `IdleRoundsQualifyAll`, and holds exactly as in `SparesReadyPodIff`;
- waiting between refreshes of the certificate: fails in `HotLoop`; `WaitsWhileBarren`
  and `RefreshedWaits` give the waits after failures and after successes.

## Model

| member | source | states |
|---|---|---|
| `NginxManifests.ManifestOfShaped` | pkg/manifests/nginx.go:84-114 | Every labelled object is the IngressClass or named after prefix and count, the namespace is unlabelled, and the IngressClass comes before any other labelled object, for every configuration. |
| `NginxManifests.ObjectsAreComplete` | pkg/manifests/types.go:31-52 | A reconcile writes exactly one controller's objects: for each kind of the list the object of its name, cluster-scoped or in the operator's namespace, a second Service with the metrics suffix, and the namespace unless it is `kube-system`. |
| `NginxManifests.HasTopLevelLabelsIff` | pkg/manifests/common.go:16-36 | An object is the operator's exactly if it has both labels with the operator's values. |
| `Text.DecimalRoundTrip` | pkg/controller/nginxingress/nginx_ingress_controller.go:536 | The rendered count stands for that number and has no leading zeros. |
| `NginxManifests.PrefixNameInjective` | pkg/controller/nginxingress/nginx_ingress_controller.go:536 | A name `prefix-count` determines both its prefix and its count. |
| `NginxManifests.PrefixKeysDisjoint` | pkg/controller/nginxingress/nginx_ingress_controller.go:536-541 | Two controllers meet on a prefix-derived object only if both are the default one or they have the same prefix and the same count; the `-metrics` names never meet plain ones. |
| `CollisionCount.FindOwnerKindIsFirst` | pkg/util/util.go:39-46 | The answer is the name of the first owner whose kind matches without regard to case. |
| `CollisionCount.FindOwnerKindNone` | pkg/util/util.go:39-46 | With no owner of that kind the answer is empty. |
| `CollisionCount.CollidesLoop` | pkg/controller/nginxingress/nginx_ingress_controller.go:283-334 | The early-exit loop over the managed objects computes the verdict of the first object that is not clear. |
| `CollisionCount.GetCollisionCount` | pkg/controller/nginxingress/nginx_ingress_controller.go:243-281 | The loop that increments the controller's own count computes `CountFrom` and puts the count back on every path. |
| `CollisionCount.NoCollisionIffAllClear` | pkg/controller/nginxingress/nginx_ingress_controller.go:291-333 | A count does not collide exactly when every labelled object of it is absent or the controller's own. |
| `CollisionCount.CollidesMeans` | pkg/controller/nginxingress/nginx_ingress_controller.go:283-334 | Each verdict on a count, exactly, in terms of what was read: the first labelled object that is not absent or the controller's own decides, as unreadable, as somebody else's IngressClass or as somebody else's object. |
| `CollisionCount.ReadFailedIff` | pkg/controller/nginxingress/nginx_ingress_controller.go:261-264 | The scan ends in a read error exactly if it comes to an unreadable object before it comes to a free count; an error is never taken for a collision. |
| `CollisionCount.DefaultKeepsItsCount` | pkg/controller/nginxingress/nginx_ingress_controller.go:286-289 | The default controller keeps its count whatever is there or cannot be read. |
| `CollisionCount.CountIsLeastFree` | pkg/controller/nginxingress/nginx_ingress_controller.go:252-280 | The result is a count exactly if it is the least free one from the stored count on, below the maximum. |
| `CollisionCount.MaxIffAllTaken` | pkg/controller/nginxingress/nginx_ingress_controller.go:255-258 | The scan gives up exactly when all remaining counts are taken. |
| `CollisionCount.IcCollisionIff` | pkg/controller/nginxingress/nginx_ingress_controller.go:266-270 | The IngressClass error comes exactly when a count is left, the controller is not the default one and its IngressClass is somebody else's. |
| `CollisionProtocol.RunsCompose` | pkg/controller/nginxingress/nginx_ingress_controller.go:123-220 | A run followed by a run is a run, with the states to match. |
| `CollisionProtocol.ScanRefinesGetCollisionCount` | pkg/controller/nginxingress/nginx_ingress_controller.go:243-334 | Undisturbed, the single looks of the protocol leave a controller exactly where `GetCollisionCount` on that cluster says. |
| `ProtocolSafety.CriticalKeysDiffer` | pkg/controller/nginxingress/nginx_ingress_controller.go:123-125 | Two controllers inside their critical sections never rely on one and the same guarded object. |
| `ProtocolSafety.StepKeepsInv` | pkg/controller/nginxingress/nginx_ingress_controller.go:123-220 | Every step of every actor keeps: what each reconcile has found clear is not owned by another controller, and locks are held as the code says. |
| `ProtocolSafety.PrefixObjectsExclusive` | pkg/controller/nginxingress/nginx_ingress_controller.go:187-220 | In every run from rest, a non-default controller about to write a prefix-derived object never finds it owned by another controller. |
| `ProtocolSafety.SequentialRunsExclusive` | pkg/controller/nginxingress/nginx_ingress_controller.go:187-220 | One reconcile at a time, the same holds of every labelled object, the IngressClass included. |
| `ProtocolSafety.DefaultObjectsExclusive` | pkg/controller/nginxingress/nginx_ingress_controller.go:286-289 | The default controller, which checks nothing, never writes over another controller's prefix-derived object, because nobody else can come to own those names. |
| `ReconcileEndings.DoneMeansWritten` | pkg/controller/nginxingress/nginx_ingress_controller.go:166-220 | In every run from rest in which nobody outside the operator touches prefix-derived objects, whoever else reconciles and whatever fails: when a reconcile that read some count ends well, every prefix-derived object of that count exists and is its own. |
| `ReconcileEndings.EndingTells` | pkg/controller/nginxingress/nginx_ingress_controller.go:127-158 | How a reconcile ends tells what it did: it is requeued exactly if a larger count was stored, all other endings leave all counts alone, it gives up exactly at count five, and it fails exactly on a failed read or write; a scan and the storing of a count never touch the objects. |
| `ReconcileEndings.LostAnswer` | pkg/controller/nginxingress/nginx_ingress_controller.go:187-220 | An upsert that is answered with an error has done what it should, or nothing. |
| `IngressClassRace.RaceExists` | pkg/controller/nginxingress/nginx_ingress_controller.go:123-125 | For any two controllers with one IngressClass name and different locks there is a run, with two reconciles under way at once, in which one is about to write the IngressClass the other owns. |
| `IngressClassRace.ExclusiveIffSerialIc` | pkg/controller/nginxingress/nginx_ingress_controller.go:123-125 | All runs are exclusive on all labelled objects if and only if controllers that share an IngressClass name share a lock. |
| `Pigeonhole.WriterIsCurrent` | pkg/controller/nginxingress/nginx_ingress_controller.go:107-138 | A controller that writes objects works from its stored count, even if it read an outdated copy of itself. |
| `Pigeonhole.HeldStable` | pkg/controller/nginxingress/nginx_ingress_controller.go:123-138 | A stored count another controller relies on stays stored by somebody, whatever is deleted. |
| `Pigeonhole.StepKeepsPrefixInv` | pkg/controller/nginxingress/nginx_ingress_controller.go:107-220 | Every step without foreign objects, with outdated reads or with deletions, keeps: a prefix-derived object belongs to the one controller storing its count, and every count passed over is held by another controller. |
| `Pigeonhole.StoredCountsAreStacked` | pkg/controller/nginxingress/nginx_ingress_controller.go:252-280 | Below a stored count, every count is stored by another controller of the same prefix. |
| `Pigeonhole.Holders` | pkg/controller/nginxingress/nginx_ingress_controller.go:252-280 | A controller that passed over `c` counts has `c` distinct competitors. |
| `Pigeonhole.FiveControllersAlwaysFit` | pkg/controller/nginxingress/nginx_ingress_controller.go:255-258 | With at most five controllers on a prefix no reconcile of any run, with outdated reads or with deletions, reports too many collisions. |
| `CountsRunOut.AlwaysFitsIffFive` | pkg/controller/nginxingress/nginx_ingress_controller.go:243-281 | The controllers of a prefix always find a count, in all runs with the given nuisance, if and only if there are at most five. |
| `CountsRunOut.SixControllersRunOut` | pkg/controller/nginxingress/nginx_ingress_controller.go:252-258 | With a sixth there is a run without failures, outdated reads or deletions of prefix-derived objects in which it reports too many collisions; nothing at all is deleted if the IngressClasses differ. |
| `CountsRunOut.TwoControllersRunOut` | pkg/controller/nginxingress/nginx_ingress_controller.go:107-138 | With deletions and outdated reads in one run, any two controllers of a prefix can run out of counts, every outdated copy having been stored earlier in that run. |
| `CountsRunOut.AlwaysFitsBothIffOne` | pkg/controller/nginxingress/nginx_ingress_controller.go:243-281 | With both nuisances at once the controllers of a prefix always find a count if and only if there is at most one. |
| `CountsRunOut.StepKeepsAlone` | pkg/controller/nginxingress/nginx_ingress_controller.go:107-220 | The only controller of a prefix owns every prefix-derived object and stays at count zero, whatever is deleted or read. |
| `WholeReconciles.ReconcileWrites` | pkg/controller/nginxingress/nginx_ingress_controller.go:107-220 | From rest, a reconcile whose count is free is a run that ends with exactly its objects written. |
| `WholeReconciles.ReconcileMoves` | pkg/controller/nginxingress/nginx_ingress_controller.go:127-138 | From rest, a reconcile that has to move is a run that ends with the next free count stored and nothing else changed. |
| `WholeReconciles.OperatorHasObjects` | pkg/manifests/nginx.go:84-114 | The operator's manifests have prefix-derived objects at every count, as those runs need. |
| `Pigeonhole.TakenIffBlocked` | pkg/controller/nginxingress/nginx_ingress_controller.go:283-334 | While the IngressClass is clear, a count collides exactly when one of its objects is there and not the controller's. |
| `Pigeonhole.ScanGivesUpIff` | pkg/controller/nginxingress/nginx_ingress_controller.go:243-281 | An undisturbed scan in the protocol reports too many collisions exactly when every count from its own on is blocked. |
| `Pigeonhole.CountOnlyGrows` | pkg/controller/nginxingress/nginx_ingress_controller.go:127-138 | In any run whatever, a stored count only grows, stays below five once changed, and changes at most four times. |
| `Pigeonhole.EarlierCountsAreSmaller` | pkg/controller/nginxingress/nginx_ingress_controller.go:107-138 | A copy of a controller read at any earlier point of a run has at most the count that is stored later. |
| `Pigeonhole.OwnerKeepsItsCount` | pkg/controller/nginxingress/nginx_ingress_controller.go:127-138 | Once a controller owns a prefix-derived object, its count and that ownership stay for as long as that object is not deleted. |
| `NicStatus.SetConditionEffect` | api/conditioner.go:14-25 | Setting a condition keeps types unique, and readers see exactly that one type set; its transition time moves exactly if its status does. |
| `NicStatus.TypesStayUnique` | api/conditioner.go:14-25 | After any series of settings no type is listed twice. |
| `NicStatus.TransitionsAreTrue` | api/conditioner.go:14-25 | After any series of settings, each type says what was last set for it, with that generation, and its transition time is the time at which its present status began. |
| `NicStatus.UpdateStatusEffect` | pkg/controller/nginxingress/nginx_ingress_controller.go:337-454 | From any earlier status: IngressClassReady is True or Unknown with its reason as this reconcile saw the IngressClass, Available follows from its two parts with the reason to match, the generation is this one, and a collision takes precedence in Progressing. |
| `NicStatus.LastAboutDecides` | pkg/controller/nginxingress/nginx_ingress_controller.go:345-353 | The Deployment's last report on availability, or on progress, decides the condition: its status is repeated and the reason is the one of that status. |
| `NicStatus.AvailableIff` | pkg/controller/nginxingress/nginx_ingress_controller.go:337-433 | With a Deployment that reports on availability, Available is True exactly if its last report is True and the IngressClass exists; the reason says which. |
| `NicStatus.ProgressIsReported` | pkg/controller/nginxingress/nginx_ingress_controller.go:345-360 | Without a collision Progressing repeats the Deployment's last report. |
| `NicStatus.NoDeploymentReported` | pkg/controller/nginxingress/nginx_ingress_controller.go:343-344 | Without a created Deployment, whatever was there before: ControllerAvailable is Unknown, Available is False, and Progressing is Unknown unless there is a collision. |
| `NicStatus.AvailableAfterHistory` | pkg/controller/nginxingress/nginx_ingress_controller.go:415-433 | After any history of updates Available is True exactly when both parts are, and otherwise False. |
| `NicStatus.CollisionIsReported` | pkg/controller/nginxingress/nginx_ingress_controller.go:155-158 | After an unreconcilable collision, whatever came before, Available is False and Progressing is False with that collision's reason. |
| `NicReport.CollisionBuildsNothing` | pkg/controller/nginxingress/nginx_ingress_controller.go:127-170 | In every run, a reconcile that ends in a collision never gets to building its objects. |
| `NicReport.CollisionRunIsReported` | pkg/controller/nginxingress/nginx_ingress_controller.go:139-158 | So when a scan of any run ends in a collision, the status it reports is as above, with the Deployment and IngressClass taken from the run. |
| `NicReport.FailedScanIsReported` | pkg/controller/nginxingress/nginx_ingress_controller.go:139-163 | A scan of any run that ends in a read error is no collision: the controller is reported as unknown and not available, and its count stays. |
| `NicStatus.Controller.SetCondition` | api/conditioner.go:14-25 | The in-place update of the list has that effect. |
| `NicStatus.Controller.SetFromDeployment` | pkg/controller/nginxingress/nginx_ingress_controller.go:346-353 | The loop over the Deployment's conditions computes `ApplyDeployment`. |
| `NicStatus.Controller.Update` | pkg/controller/nginxingress/nginx_ingress_controller.go:337-361 | The whole update computes `UpdateStatus`, keeps types unique and leaves Available derived. |
| `Votes.OneVotePerRound` | pkg/controller/ingress/concurrency_watchdog.go:278-298 | A round gives a pod at most one vote, and one exactly if it is old enough and at or above the threshold. |
| `Votes.CountIsVotedRounds` | pkg/controller/ingress/concurrency_watchdog.go:278-311 | Over a whole run the fresh votes for a pod are as many as the rounds that voted on it. |
| `Votes.EvictionSafety` | pkg/controller/ingress/concurrency_watchdog.go:275-321 | Over every run, a pod that qualifies was voted on in at least the required number of different rounds within the vote lifetime, each time old enough and at or above the threshold. |
| `Votes.QualifiesIff` | pkg/controller/ingress/concurrency_watchdog.go:275-321 | While at most twenty votes were ever cast, a listed pod qualifies exactly if it was voted on in that many rounds within the vote lifetime. |
| `Votes.QualifiersBounded` | pkg/controller/ingress/concurrency_watchdog.go:154 | At most 20 divided by the required votes pods can qualify at once; a requirement above twenty is never met. |
| `Votes.HistorySorted` | pkg/controller/ingress/concurrency_watchdog.go:287-297 | With a clock that does not run backwards the ring keeps votes in the order of their times. |
| `WatchdogArithmetic.RankIffShare` | pkg/controller/ingress/concurrency_watchdog.go:281-284 | Being at or above the threshold means having that share of all connections, the round without connections included. |
| `WatchdogArithmetic.ReadyPodsIsCount` | pkg/controller/ingress/concurrency_watchdog.go:209-239 | The running count of ready pods is the number of ready pods. |
| `WatchdogArithmetic.VotesBounded` | pkg/config/config.go:86-91 | A round with connections casts at most 100 * ready / threshold votes, so fewer than there are ready pods. |
| `WatchdogArithmetic.SomeReadyPodIsSpared` | pkg/controller/ingress/concurrency_watchdog.go:275-298 | In such a round some ready pod is not voted on. |
| `WatchdogArithmetic.IdleRoundVotesOnAllOldPods` | pkg/controller/ingress/concurrency_watchdog.go:281-284 | Without any connection every pod that is old enough gets a vote, ready or not. |
| `IdleRounds.SparesReadyPodIff` | pkg/controller/ingress/concurrency_watchdog.go:278-298 | A round spares some ready pod exactly if there are connections or a ready pod is too young. |
| `IdleRounds.IdleRoundsQualifyAll` | pkg/controller/ingress/concurrency_watchdog.go:275-321 | Whatever came before, after as many rounds without connections as votes are required, with at most twenty votes between them, every pod old enough throughout qualifies for eviction. |
| `Watchdog.RecordExtends` | pkg/controller/ingress/concurrency_watchdog.go:287-297 | Moving on one slot and overwriting it appends to the last twenty votes. |
| `Watchdog.WalkOrder` | pkg/controller/ingress/concurrency_watchdog.go:301-311 | A full walk of the ring visits the newest vote, then the other nineteen from the oldest on. |
| `Watchdog.WalkCountsLast` | pkg/controller/ingress/concurrency_watchdog.go:301-311 | So it counts for every pod what the queue of the last twenty votes holds. |
| `Watchdog.TallyDecides` | pkg/controller/ingress/concurrency_watchdog.go:301-320 | A tally of a full walk reaches the requirement exactly for the pods that qualify. |
| `Watchdog.RoundOfIsMeasured` | pkg/controller/ingress/concurrency_watchdog.go:209-239 | The rounds a tick builds meet what the bounds on votes assume. |
| `Watchdog.RoundOfMeans` | pkg/controller/ingress/concurrency_watchdog.go:209-239 | A round has the scraped connections of each ready pod and zero for every other pod, and its mean is their sum over the ready pods. |
| `Watchdog.QualifiedIsJustified` | pkg/controller/ingress/concurrency_watchdog.go:243-246 | A qualifying pod of a round with three ready pods is justified by the rounds of the run. |
| `Watchdog.ConcurrencyWatchdog.constructor` | pkg/controller/ingress/concurrency_watchdog.go:154 | An empty ring of twenty slots, valid for the empty run. |
| `Watchdog.ConcurrencyWatchdog.Record` | pkg/controller/ingress/concurrency_watchdog.go:287-297 | One more vote in place. |
| `Watchdog.ConcurrencyWatchdog.CastVotes` | pkg/controller/ingress/concurrency_watchdog.go:278-298 | The first loop appends exactly the votes of the round and collects the listed names. |
| `Watchdog.ConcurrencyWatchdog.Tally` | pkg/controller/ingress/concurrency_watchdog.go:301-311 | The second loop tallies the fresh votes of the listed pods. |
| `Watchdog.ConcurrencyWatchdog.Choose` | pkg/controller/ingress/concurrency_watchdog.go:314-320 | The third loop, in any order, finds a pod with enough votes exactly if there is one. |
| `Watchdog.ConcurrencyWatchdog.ProcessVotes` | pkg/controller/ingress/concurrency_watchdog.go:275-321 | A pod is returned exactly when some listed pod has enough fresh votes among the last twenty ever cast, and then it is such a pod. |
| `Watchdog.ConcurrencyWatchdog.Gather` | pkg/controller/ingress/concurrency_watchdog.go:209-239 | The measuring loop computes the counts, the number of ready pods and the total. |
| `Watchdog.ConcurrencyWatchdog.TickTarget` | pkg/controller/ingress/concurrency_watchdog.go:196-267 | One target sends a pod to eviction exactly if its pods could be listed, at least three are ready and some pod has enough votes; then one such pod, justified by the rounds of the run. |
| `Watchdog.ConcurrencyWatchdog.Tick` | pkg/controller/ingress/concurrency_watchdog.go:196-267 | In the order of the targets, a tick sends exactly one pod to eviction for every target with at least three ready pods and a pod with enough votes, and none for any other; each is such a pod and justified by the whole run up to its target. |
| `SpcReconcile.Api.Reconcile` | pkg/controller/keyvault/spc/reconcile.go:81-184 | The loop with its in-place changes, error exits and final update computes `ReconcileOnce`. |
| `SpcReconcile.LoopFollowsItems` | pkg/controller/keyvault/spc/reconcile.go:113-158 | Though it changes the object under its iterator, the loop does what the items of the original say, up to the first that ends it. |
| `SpcReconcile.LastTouchDecides` | pkg/controller/keyvault/spc/reconcile.go:113-158 | An SPC that some item writes ends as the last item touching it says. |
| `SpcReconcile.OnlyCleanedUp` | pkg/controller/keyvault/spc/reconcile.go:186-217 | Cleanup removes the operator's SPC and leaves anybody else's. |
| `SpcReconcile.LastTouchPresent` | pkg/controller/keyvault/spc/reconcile.go:113-217 | Whether the operator has an SPC of a name at the end is up to the last item of that name, whatever was there before. |
| `SpcReconcile.SpcsResume` | pkg/controller/keyvault/spc/reconcile.go:113-158 | Starting over after any part of the items, or after all of them, makes no difference to the SPCs. |
| `SpcReconcile.ModificationsSettle` | pkg/controller/keyvault/spc/reconcile.go:151-157 | After the loop every change an item made to the owner is still in place. |
| `SpcReconcile.ReconcileLeaves` | pkg/controller/keyvault/spc/reconcile.go:81-184 | What a reconcile that ended well, or in a user's mistake, leaves behind, item by item. |
| `SpcReconcile.AnyReconcileLeaves` | pkg/controller/keyvault/spc/reconcile.go:81-184 | However a reconcile ends, with writes that took effect although they were answered with an error, it has done the first items and no more. |
| `SpcReconcile.WriteFaultFails` | pkg/controller/keyvault/spc/reconcile.go:113-158 | The first write that is answered with an error ends the reconcile as failed, with the owner untouched and the SPCs of the items before it, or of that one too if only its answer was lost. |
| `SpcReconcile.UpdateDecides` | pkg/controller/keyvault/spc/reconcile.go:160-181 | When all items went through and the owner changed there is exactly one update of it: it decides between done, another try after a conflict, and failure. |
| `SpcReconcile.Recovers` | pkg/controller/keyvault/spc/reconcile.go:81-184 | Wherever a reconcile was cut off, the next one without faults leaves the same SPCs and owner and ends the same way as if the first had never been. |
| `SpcReconcile.RecoversFromAll` | pkg/controller/keyvault/spc/reconcile.go:81-184 | The same after any number of attempts, each cut off in its own way. |
| `SpcReconcile.FixedPoint` | pkg/controller/keyvault/spc/reconcile.go:81-184 | A second reconcile leaves the same SPCs and owner, asks for no update and ends the same way, for every undisturbed iterator. |
| `SpcGateway.GatewayUndisturbed` | pkg/controller/keyvault/spc/gateway.go:50-129 | Writing certificate references changes nothing that the Gateway iterator yields. |
| `SpcGateway.GatewaySettles` | pkg/controller/keyvault/spc/gateway.go:107-123 | The references of different listeners do not undo each other. |
| `SpcGateway.GatewayFixedPoint` | pkg/controller/keyvault/spc/gateway.go:50-129 | A second reconcile of a Gateway with any number of listeners is a no-op. |
| `SpcGateway.GatewayRecovers` | pkg/controller/keyvault/spc/reconcile.go:81-184 | Gateways recover from any number of failed reconciles. |
| `SpcGateway.GatewayEndsDoneIff` | pkg/controller/keyvault/spc/gateway.go:50-129 | Without faults a Gateway reconciles exactly if it is of another class or every listener with a certificate URI names a ServiceAccount that exists and has a client id, and its URI parses. |
| `SpcGateway.GatewayEndsAtFirstMistake` | pkg/controller/keyvault/spc/gateway.go:165-205 | Otherwise the first listener not so configured decides: a failure if its ServiceAccount cannot be read, else the user's mistake; the SPCs before it are done and the Gateway is left as it was. |
| `GatewayOutcome.KvListenerHasSpcIff` | pkg/controller/keyvault/spc/gateway.go:50-129 | The SPC of a Key Vault listener exists after the reconcile exactly if the last listener with that SPC name is a Key Vault listener, and has its options. |
| `GatewayOutcome.KvListenerHasOwnSpcIff` | pkg/controller/keyvault/spc/gateway.go:50-129 | The SPC of a Key Vault listener is built from its own options exactly if the last listener with that SPC name is a Key Vault listener with the same certificate and client. |
| `GatewayOutcome.FittingNamesAreDistinct` | pkg/controller/keyvault/spc/gateway.go:142-149 | Names that are not cut give distinct SPC names to distinct listeners. |
| `GatewayOutcome.KvListenerHasItsSpc` | pkg/controller/keyvault/spc/gateway.go:50-129 | With distinct SPC names every Key Vault listener has exactly its SPC. |
| `GatewayOutcome.OtherListenerIsCleaned` | pkg/controller/keyvault/spc/gateway.go:78-84 | For any other listener the operator's SPC is gone and somebody else's is as it was. |
| `GatewayOutcome.UnrelatedSpcsUntouched` | pkg/controller/keyvault/spc/reconcile.go:113-158 | An SPC no listener names is left alone. |
| `GatewayOutcome.GatewayAfterReconcile` | pkg/controller/keyvault/spc/gateway.go:107-123 | The stored Gateway differs only in the certificate references of its Key Vault listeners. |
| `GatewayOutcome.ListenerIsServedIff` | pkg/controller/keyvault/spc/reconcile.go:219-294 | From options to Secret: the SPC fetches the certificate, vault and version of the listener's URI, as the client of its ServiceAccount, into the Secret the listener then refers to, under exactly that condition. |
| `GatewayOutcome.ListenerIsServed` | pkg/controller/keyvault/spc/reconcile.go:219-294 | So with distinct SPC names every Key Vault listener is served. |
| `GatewayOutcome.WellConfiguredIsServed` | pkg/controller/keyvault/spc/gateway.go:50-129 | In a Gateway of one of the operator's classes with distinct SPC names and all listeners so configured, every listener with a URI is served. |
| `GatewayOutcome.LongNamesCollide` | pkg/controller/keyvault/spc/gateway.go:142-149 | Behind a Gateway name of 241 characters or more all listeners share one SPC name; at exactly 241 it ends in a dash, which the API server refuses. |
| `GatewayOutcome.TruncationLosesSpc` | pkg/controller/keyvault/spc/gateway.go:142-149 | There a Key Vault listener followed by a plain one ends without its SPC in a reconcile that reports success. |
| `GatewayOutcome.TruncationSwapsCertificate` | pkg/controller/keyvault/spc/gateway.go:142-149 | Behind a Gateway name of 242 characters, the first of two Key Vault listeners with different certificates refers to the Secret with the other's certificate. |
| `SpcInterference.LeavesForeignSpcIff` | pkg/controller/keyvault/spc/reconcile.go:113-217 | A Gateway leaves the operator's SPC of another owner as it is exactly if none of its listeners has that SPC name. |
| `SpcInterference.FittingNamesMeetIff` | pkg/controller/keyvault/spc/gateway.go:142-149 | Uncut SPC names of two Gateways meet exactly if Gateway name, dash and listener name read the same together. |
| `SpcInterference.NeighbourTakesSpc` | pkg/controller/keyvault/spc/gateway.go:142-149 | A Gateway `g` with a listener `m-l` loses its SPC to a Gateway `g-m` with a listener `l` of the same namespace. |
| `SpcInterference.IngressNamesMeetIff` | pkg/controller/keyvault/spc/ingress.go:148-159 | SPC names of two Ingresses meet exactly if the names are equal or agree in their first 244 characters, both having that many. |
| `SpcInterference.IngressLeavesForeignSpcIff` | pkg/controller/keyvault/spc/reconcile.go:113-217 | An Ingress leaves the operator's SPC of another owner as it is exactly if that is not named after it. |
| `ServiceAccountIndex.IndexKeys` | pkg/util/gateway_index.go:28-47 | The index holds exactly the ServiceAccounts some listener mentions. |
| `ServiceAccountIndex.GatewaysFor` | pkg/util/gateway_index.go:50-71 | The requests are exactly those for the Gateways of the namespace that the index lists. |
| `ServiceAccountIndex.IndexComplete` | pkg/util/gateway_index.go:28-71 | Whatever happens to a ServiceAccount, a Gateway not woken for it yields the same as before. |
| `ServiceAccountIndex.DependsIffReads` | pkg/controller/keyvault/spc/gateway.go:165-205 | What is yielded depends on a ServiceAccount exactly if a Key Vault listener of the managed Gateway names it, and then the Gateway is woken. |
| `PlaceholderPod.ShouldReconcile` | pkg/controller/keyvault/placeholderpod/spc_owner.go:142-156 | The early-exit loop decides by the first listener with the SPC's name. |
| `PlaceholderPod.GetServiceAccountName` | pkg/controller/keyvault/placeholderpod/spc_owner.go:157-180 | The loop is left with the ServiceAccount of the last such listener with TLS options, and its errors are those of the lookup. |
| `PlaceholderPod.OutcomesAgreeIff` | pkg/controller/keyvault/placeholderpod/spc_owner.go:142-156 | After a reconcile of the SPCs, the operator's SPC of a name is there and its pod is kept together, if and only if the first and the last listener of that name are of one sort. |
| `PlaceholderPod.OutcomesAgree` | pkg/controller/keyvault/placeholderpod/spc_owner.go:142-156 | With distinct SPC names a pod is kept exactly for the SPCs that are there. |
| `PlaceholderPod.TruncationLosesPod` | pkg/controller/keyvault/placeholderpod/spc_owner.go:142-156 | Behind a Gateway name of 242 characters, a plain listener before a Key Vault listener takes away the pod of the SPC just written. |
| `PlaceholderPod.UnmanagedLosesPods` | pkg/controller/keyvault/placeholderpod/spc_owner.go:142-146 | A Gateway of another class keeps all its SPCs and loses all its pods. |
| `PlaceholderPod.DecisionsAgree` | pkg/controller/keyvault/placeholderpod/spc_owner.go:142-156 | With distinct SPC names a pod is kept exactly when the iterator does not yield cleanup, whether or not the reconcile goes through. |
| `PlaceholderPod.PodUsesTheSpcsIdentity` | pkg/controller/keyvault/placeholderpod/spc_owner.go:157-180 | The pod's ServiceAccount carries the client id the SPC was built with, for the last listener of an SPC name, whatever other listeners share it. |
| `IngressPlaceholder.IngressPodKeptIffSpc` | pkg/controller/keyvault/placeholderpod/spc_owner.go:106-113 | After a reconcile of an Ingress, the pod is kept exactly if the operator's SPC is there. |
| `IngressPlaceholder.PodServiceAccountFailsIff` | pkg/controller/keyvault/placeholderpod/spc_owner.go:114-134 | The lookup fails exactly if workload identity is enabled and the named ServiceAccount has no client id, as an API error exactly if it cannot be read; else it gives that ServiceAccount, or none. |
| `IngressPlaceholder.IngressPodSuitsIff` | pkg/controller/keyvault/placeholderpod/spc_owner.go:114-134 | The pod runs under the ServiceAccount its SPC needs exactly if workload identity is enabled or the Ingress names none; otherwise the SPC needs it and the pod does not have it. |
| `SpcIngress.CollectHosts` | pkg/controller/keyvault/spc/ingress.go:161-182 | The loop computes `RuleHosts`. |
| `SpcIngress.RuleHostsAre` | pkg/controller/keyvault/spc/ingress.go:161-182 | These are exactly the hosts of the rules that have one, in the order of the rules. |
| `SpcIngress.IngressFixedPoint` | pkg/controller/keyvault/spc/ingress.go:48-122 | A second reconcile of an Ingress is a no-op. |
| `SpcIngress.IngressRecovers` | pkg/controller/keyvault/spc/reconcile.go:81-184 | Ingresses recover from any number of failed reconciles. |
| `SpcIngress.IngressOutcome` | pkg/controller/keyvault/spc/ingress.go:48-144 | The SPC is there exactly if the Ingress is managed and names a certificate; otherwise the operator's is gone; other SPCs stay. |
| `SpcIngress.IngressIsServed` | pkg/controller/keyvault/spc/ingress.go:48-122 | From annotations to TLS section: certificate, identity and Secret match, and the section is replaced only with managed TLS. |
| `SpcIngress.IngressSpcIff` | pkg/controller/keyvault/spc/ingress.go:125-144 | After a reconcile that ended well the operator's SPC is there exactly if the class is managed and the annotation is present; any other Ingress is left as it was. |
| `SpcIngress.IngressEndsDoneIff` | pkg/controller/keyvault/spc/ingress.go:48-122 | Without faults an Ingress reconciles exactly if its class can be looked up and, when its certificate is wanted, the URI parses and a named ServiceAccount has a client id; otherwise nothing is written, and lookups that failed are told from the user's mistakes. |
| `SpcIngress.WellConfiguredIsServed` | pkg/controller/keyvault/spc/ingress.go:48-122 | A wanted and well configured Ingress has its SPC with its certificate and identity, and its TLS section exactly if the user asked for it. |
| `DnsZones.AgreesIffValid` | pkg/config/config.go:184-198 | Checking a zone against the remembered one is checking it against all earlier ones. |
| `DnsZones.KindOfIff` | pkg/config/config.go:139-182 | The kind of a zone is that of its resource type, without regard to case. |
| `DnsZones.Config.AddZone` | pkg/config/config.go:144-179 | One id is accepted exactly if the list with it is valid, and is then remembered. |
| `DnsZones.Config.ParseAndValidateZoneIDs` | pkg/config/config.go:139-182 | The list is accepted exactly if every id is a zone and zones of a kind share subscription and group up to case; both configurations then hold exactly the zones of their kind. |
| `DnsZones.ZonesOrderIndependent` | pkg/config/config.go:139-182 | Order and repetition of the ids change neither the verdict nor the sets. |
| `DnsZones.PermutationOrderIndependent` | pkg/config/config.go:139-182 | In particular no permutation does. |
| `DnsZones.NewDnsConfigLoop` | pkg/manifests/external_dns.go:186-239 | The checking loop with its early exits computes `NewDnsConfig`. |
| `DnsZones.BuildsIff` | pkg/manifests/external_dns.go:186-239 | Exactly which ids make a configuration of a kind: none if the provider says so, else the first decides and every other one fits it in type, subscription and group; the configuration has those ids, that subscription and that group. |
| `DnsZones.FirstMisfit` | pkg/manifests/external_dns.go:186-239 | Otherwise the error is that of the first id that does not fit: it does not parse, or is of another type, or disagrees. |
| `DnsZones.ValidatedZonesBuild` | pkg/controller/dns/external_dns.go:92-160 | Zones that passed validation always build, in every order of the keys, with the right provider, and deploy exactly when there are any. |
| `CachedClient.JitterBounds` | pkg/util/util.go:48-55 | A jittered value lies within half the ratio of its base, on either side. |
| `CachedClient.JitterFollowsDraw` | pkg/util/util.go:48-55 | Within those bounds it follows the random draw evenly, up to the dropped fraction. |
| `CachedClient.FetchOutcome` | pkg/clients/default-domain/cached_client.go:108-180 | A failing fetch serves nothing and keeps the cache; a successful one serves and stores the last answer; 404 is its own error. |
| `CachedClient.FetchCost` | pkg/clients/default-domain/cached_client.go:108-180 | One fetch makes at most five calls and sleeps at most 18.75 seconds; one that gives up made five and slept at least 11.25 seconds. |
| `CachedClient.HealthTracksCalls` | pkg/clients/default-domain/cached_client.go:108-180 | Over any history, the counter is the number of failures since the last success or 404, and the client is healthy exactly while that is below five. |
| `CachedClient.ServedIsYoung` | pkg/clients/default-domain/cached_client.go:74-94 | A certificate served from the cache is younger than the time to live plus its jitter, over any history. |
| `CachedClient.StoredIsServed` | pkg/clients/default-domain/cached_client.go:74-94 | A stored certificate is served from the cache for the time to live less half its jitter at least. |
| `CachedClient.ValidCacheNeedsNoCall` | pkg/clients/default-domain/cached_client.go:74-94 | While the cached certificate is valid a caller gets it without a call to the server; once it is due, a caller is given what the server answers. |
| `CachedClient.CachedWasAnswered` | pkg/clients/default-domain/cached_client.go:74-180 | What the cache holds was once answered by the server. |
| `CachedClient.FailedRefreshSpinsIffDue` | pkg/clients/default-domain/cached_client.go:183-238 | After a failed refresh the loop continues without waiting exactly when the cached certificate is due; a 404 does not sleep either. |
| `CachedClient.RefreshedWaits` | pkg/clients/default-domain/cached_client.go:183-238 | After a successful refresh the loop waits exactly while the stored certificate is valid, which it is when stored. |
| `CachedClient.FailedTurnSpins` | pkg/clients/default-domain/cached_client.go:204-238 | A scheduled refresh never comes before the cached certificate expires; so when it fails, the next follows without any wait unless a caller stored a certificate in between. |
| `CachedClient.WaitsWhileBarren` | pkg/clients/default-domain/cached_client.go:204-238 | Over any number of turns and callers, while the server has no certificate: with one in the cache the loop waits once and never again, without one it waits a whole time to live every time. |
| `CachedClient.HotLoop` | pkg/clients/default-domain/cached_client.go:204-238 | From a certificate that is due, any number of refreshes answered 404 can follow at one and the same time, each a call to the server. |
| `CachedClient.Cached.constructor` | pkg/clients/default-domain/cached_client.go:52-71 | A new client is healthy and empty, with the default time to live if none is given. |
| `CachedClient.Cached.Record` | pkg/clients/default-domain/cached_client.go:108-180 | One answer in place: a failure counts, a 404 and a success reset the health, only a success stores. |
| `CachedClient.Cached.FetchWithRetryLocked` | pkg/clients/default-domain/cached_client.go:108-180 | The retry loop computes `Fetch`, its number of calls and its total sleep. |
| `CachedClient.Cached.GetTLSCertificate` | pkg/clients/default-domain/cached_client.go:74-94 | A request is served from the cache or by one fetch, as `Do` says. |
| `Retriever.IsFiltered` | pkg/controller/common/clean_type.go:132-138 | The inner loop finds a matching filter exactly if there is one. |
| `Retriever.RemoveLoop` | pkg/controller/common/clean_type.go:118-147 | The outer loop keeps, in order, what no filter matches. |
| `Retriever.KeepIsSubsequence` | pkg/controller/common/clean_type.go:118-147 | The result is the subsequence at exactly the unmatched positions. |
| `Retriever.AddAllIsConcat` | pkg/controller/common/clean_type.go:101-115 | A chain of Adds succeeds exactly if all its parts do, with their lists one after the other. |
| `Retriever.FromGkMeans` | pkg/controller/common/clean_type.go:77-90 | From group kinds: every resource the mapper gives for any of them, each with the labels, and nothing else; an error exactly if the mapper fails on one. |
| `Retriever.RemoveDistributes` | pkg/controller/common/clean_type.go:101-147 | Removing distributes over adding. |
| `Retriever.RemoveTwice` | pkg/controller/common/clean_type.go:101-147 | Removing twice is removing the sum. |
| `Retriever.RemoveIdempotent` | pkg/controller/common/clean_type.go:118-147 | Removing again changes nothing. |
| `Retriever.NothingFilteredSurvives` | pkg/controller/common/clean_type.go:101-158 | However many retrievers were added, a removal that ignores labels leaves exactly the types whose resource is not in the filter. |
| `Retriever.ExactPairsAreRemoved` | pkg/controller/common/clean_type.go:149-158 | A removal that compares labels takes out exactly the pairs of the filter. |
| `Retriever.UnknownStrategyRemovesNothing` | pkg/controller/common/clean_type.go:149-158 | A strategy the code does not know removes nothing. |
| `Retriever.NoNamespaceIsCleaned` | pkg/controller/dns/external_dns.go:41-49 | Removing a group kind leaves none of the resources the mapper gives for it; the cleaner this guards is disabled at present by the return at line 29. |

## Left out

- CollisionCount.GetCollisionCount: a stored count outside 0 to 5 is excluded, because the loop ends by testing for equality with 5 and does not end for a larger one.
- Pigeonhole.FiveControllersAlwaysFit: not for runs with foreign objects, where a count can be taken by somebody who is no controller (`Pigeonhole.ScanGivesUpIff` is exact for those, scan by scan); and not for deletions together with outdated reads, where it is false.
- SpcReconcile.Api.Reconcile: a cleanup is taken to see the SPC as it is. The code reads it through a cache, so a cleanup may miss an SPC written shortly before; `TruncationLosesSpc` and `KvListenerHasSpcIff` are about cleanups that do not.
- IngressClassRace.RaceExists: is about the code of a reconcile, which allows several at once; it is not about the number of workers, which is one by default.
- Watchdog.ConcurrencyWatchdog.ProcessVotes: one clock reading per voted pod and one for the whole tally, where the code reads the clock for every vote it tallies.
- WatchdogArithmetic.RankIffShare: over real numbers; the rounding of floating point is not modelled. The mean of zero, where the quotient is not a number, is.
- CachedClient.JitterBounds: over real numbers as well.
- DnsZones.Config.ParseAndValidateZoneIDs: takes the list of ids; splitting the option at commas is not modelled. The parser of ARM ids is a parameter; what is assumed of it is that a parsed id has a subscription and a group, and that the case of an id changes only the case of its parts.
- NicStatus.Controller.Update: conditions only; replica counts and the list of managed references are copied fields.
- Status updates at the end of a reconcile are part of the step that releases the lock: they carry the count the reconcile started from and are refused by the API server if the object changed.
- Deleting a NginxIngressController and creating another of the same name.
- Owner references are reduced to the name the code looks up, and server-side apply to an update of the owner; fields that other managers own are not modelled.
- Contents of the managed objects: RBAC, pod templates, services, autoscalers.
- Case folding is ASCII only.
- The Key Vault URI parser is a parameter, as is the choice of ingress classes the operator manages.
- NginxIngressControllers as owners of SPCs, which have one item and no change to the owner.
- External DNS: identity types, filters and the generated resources.
- Scraping of Prometheus metrics: a scrape is a number or a failure. Listing pods and evicting are inputs and outputs of a tick.
- The certificate client: the initial random delay and cancellation of the refresh loop, and the health probe's reading of the flag without the lock.
- The cleaner that deletes by these lists, the webhook, metrics, events, logging, CRD loading and the end-to-end suites.
