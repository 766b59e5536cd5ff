# Verified model of orcinus

Orcinus compiles compose files to Kubernetes objects, applies them to a live cluster, sweeps what a
project no longer lists, and replaces and upgrades the docker containers that are the cluster's nodes.
This project models that logic in Dafny and proves what it promises, and where a promise holds only
under a condition, proves that condition exactly and shows that it is needed.

The Kubernetes API and docker are abstract stores. Every call may succeed, or fail with no effect.
Code that works in place is modelled by classes and loops, each proved against a specification
function; the laws are lemmas about those functions. Concurrency is modelled by state machines whose
steps are single API calls.

| file | what it holds |
|---|---|
| `Secrets.dfy`, `SecretLaws.dfy` | moving marked variables from containers and shared ConfigMaps into Secrets, judged by the environment a container sees |
| `NodeArgs.dfy`, `NodeLaws.dfy` | `docker create` arguments rebuilt from `docker inspect`, and an interpreter of them |
| `Recreate.dfy` | replacing a node container as a transaction, under any pattern of docker failures |
| `Update.dfy` | changing a running cluster's ingress ports |
| `Versions.dfy`, `Upgrade.dfy`, `UpgradeLaws.dfy` | the upgrade path, the walk of one node along it, and a server-first upgrade of a cluster |
| `Prune.dfy` | apply and prune as loops over a cluster store |
| `Deploys.dfy`, `DeployAlone.dfy` | any number of deploys and the StatefulSet controller interleaved call by call; one deploy alone agrees with `Prune.dfy` |
| `MergeSecret.dfy` | read-modify-write of a Secret by any number of writers |
| `Placement.dfy` | Swarm placement compiled to node affinity, and its carry-over to Rollouts and virtual machines |
| `Paths.dfy`, `EnvFiles.dfy` | naming and copying env files into the directory a document is loaded from |
| `Export.dfy` | cleaning object trees for export, and redacting Secrets |
| `BindMounts.dfy` | bind mounts out of a compose file, onto pods, and back |
| `InjectBlock.dfy` | the orcinus section of a shared text file |
| `Rollback.dfy` | choosing the previous revision, and rolling back repeatedly |
| `Common.dfy`, `Text.dfy` | options, string searching, decimal numbers |

## What turned out to hold only conditionally

- Moving a variable to a Secret keeps a container's environment if and only if every name is kept
  (`SecretLaws.MeaningKeptIff`): a key must be pulled with the value the container saw, and what other
  services take out of a shared ConfigMap must not be what it saw. A service that marks nothing can lose
  a variable this way, unless an inline entry or another source gives it the same value
  (`SecretLaws.BystanderKeptIff`, `SecretLaws.SharedEntryIsLost`).
- Two orders of the services map give the same result of the secret pass if and only if every service's own
  turn, on what the services before it left, comes out the same (`SecretLaws.OrderIff`). It does when no two
  services claim one entry (`SecretLaws.Confluence`). When two do, and one of them has the key from nowhere
  else, its Secret has the key only if its turn comes first (`SecretLaws.OrderShows`).
- `x-orcinus-env-from-secret` promises that the later Secret wins over an env file
  (`pkg/compose/compose.go:918-920`). The secret pass runs first (`pkg/compose/compose.go:192-209`), so the
  Secret wins if and only if that pass did not pull the key with another value (`SecretLaws.LaterSecretWinsIff`,
  with an input in `SecretLaws.PulledKeyWins`).
- With claims pruned too, a loose claim survives two sweeps if and only if a StatefulSet with a template for
  it is listed or belongs to another project (`Prune.TwiceIff`). A sweep whose StatefulSet listing failed
  additionally loses exactly the unlisted claims of StatefulSets that are there (`Prune.FailedListingIff`).
- `MergeSecret` re-reads the version after computing the merge. The merge is atomic when the version did
  not move between the two reads, and puts foreign keys back to their earlier values otherwise
  (`MergeSecret.CommitIff`).
- A role other than `manager` or `worker` is compiled as "not the manager", and a label the cluster sets
  itself is read from the cluster (`Placement.CompiledMeansIff`).
- Env files and compose documents share one directory. A conversion loses neither if and only if every
  document name that is also a staged name has the same contents under both (`EnvFiles.AllIntactIff`).
  Otherwise whichever is written last wins: a document overwrites an env file of its own
  (`EnvFiles.EnvFileLost`), and an env file of a later document overwrites an earlier document
  (`EnvFiles.DocumentLost`).
- `injectBlock` is last-body-wins exactly on files without markers or with the first begin before the first
  end (`InjectBlock.LastBodyWinsIff`). It loses text after an unclosed begin marker on the second run
  (`InjectBlock.UnclosedLosesText`), and adds a section on each of any number of runs when an end marker comes
  first (`InjectBlock.StrayEndGrows`).
- `Upgrade` reports the target version also for a node that was already past it
  (`UpgradeLaws.ReportedVersionIff`, with an input in `UpgradeLaws.NewerIsMisreported`).
- A recreation that leaves an ingress port as published keeps its bindings if and only if there are none, or a single one on
  0.0.0.0 (`NodeLaws.IngressKeptIff`); a host address and every further binding is lost
  (`NodeLaws.SecondBindingLost`). Docker settings that `createArgs` does not carry are dropped.

## Model

| member | source | states |
|---|---|---|
| Secrets.RewriteInline | pkg/compose/compose.go:757-774 | the in-place env rewrite loop: wanted inline entries become secret references, their values are collected, everything else stays where it is |
| Secrets.PullFromConfigMaps | pkg/compose/compose.go:780-811 | the loop over envFrom sources and wanted keys that empties ConfigMaps and appends references |
| Secrets.Manifest.MoveService | pkg/compose/compose.go:743-825 | one service's turn over the shared object list, and the Secret it adds when it collected anything |
| Secrets.Manifest.ApplySecrets | pkg/compose/compose.go:737-828 | the whole pass for one iteration order of the services map |
| SecretLaws.NothingWantedIsLeft | pkg/compose/compose.go:755-824 | for any services and order: original entries keep length, order and names, no wanted name stays inline or in a ConfigMap the container pulls, every introduced reference names a key of the created Secret, and a pulled name is appended once and only if the container did not have it |
| SecretLaws.RunEntries | pkg/compose/compose.go:788-797 | a run deletes exactly the ConfigMap entries some service of the run claims |
| SecretLaws.RunShape | pkg/compose/compose.go:750-774 | workloads, containers and sources are kept, and services that mark nothing keep their workloads |
| SecretLaws.TurnComesOut | pkg/compose/compose.go:742-825 | what a run makes of a service is what its own turn makes of it, on the entries earlier turns left |
| SecretLaws.TurnAlone | pkg/compose/compose.go:742-825 | a service that nobody rivals gets the workloads and the Secret it would get running alone |
| SecretLaws.Confluence | pkg/compose/compose.go:742-825 | with no entry claimed by two services, objects and created Secrets do not depend on map order |
| SecretLaws.OrderIff | pkg/compose/compose.go:742-825 | two orders of the same services give the same objects and Secrets if and only if every service's own turn comes out the same |
| SecretLaws.GetsKeyIff | pkg/compose/compose.go:755-811 | a service's Secret gets a key if and only if the service has it as a wanted inline entry, or wants it and some ConfigMap it reads still has it at its turn; for any workloads and containers |
| SecretLaws.OrderShows | pkg/compose/compose.go:742-797 | when two services claim an entry and it is one's only source of the key, an order that starts with that one and an order that has the other before it differ |
| SecretLaws.TwoReaders | pkg/compose/compose.go:742-797 | the smallest input on which the order shows: two services, one ConfigMap, one key |
| SecretLaws.SingleTurn | pkg/compose/compose.go:755-824 | a single container comes out of a run as its own turn made it, from what earlier services left |
| SecretLaws.MeaningKeptIff | pkg/compose/compose.go:737-828 | a one-container workload keeps its effective environment if and only if every name is kept, whatever other services take from ConfigMaps it shares: the condition speaks of the entries before the run, at its turn and after the run |
| SecretLaws.BystanderKeptIff | pkg/compose/compose.go:793-797 | for a service that marks nothing that condition is: every name that is not inline has the same value from the sources without the claimed entries |
| SecretLaws.UndisturbedKeptIff | pkg/compose/compose.go:737-828 | when no other service empties its ConfigMaps that condition is: each pulled key is pulled with the value the container saw |
| SecretLaws.UnambiguousSuffices | pkg/compose/compose.go:776-800 | distinct references and no wanted name both inline and in a pulled ConfigMap, nor in a loaded Secret, are enough for that condition |
| SecretLaws.SharedEntryIsLost | pkg/compose/compose.go:793-797 | a service that shares its only ConfigMap without marking the key, and has no inline entry for it, loses the variable |
| SecretLaws.InlineLosesToFile | pkg/compose/compose.go:760-799 | a wanted name both inline and in a pulled ConfigMap changes its value |
| SecretLaws.LaterSecretWins | pkg/compose/compose.go:889-929 | of the appended Secrets the last one that has the name wins over all earlier sources, unless the name is inline |
| SecretLaws.LaterSecretWinsIff | pkg/compose/compose.go:192-209 | after both passes a name that is not inline has the loaded Secret's value if and only if the secret pass did not pull it with another value |
| SecretLaws.PulledKeyWins | pkg/compose/compose.go:918-921 | an input on which the loaded Secret does not win |
| NodeArgs.BuildCreateArgs | pkg/cluster/update.go:68-117 | the argument-building loops produce the specified argument list, for a privileged container, for any order of the two maps |
| NodeArgs.BuildPortOpts | pkg/cluster/update.go:88-99 | the nested loops over published ports, leaving out the ingress ports |
| NodeLaws.ReadsBack | pkg/cluster/update.go:66-117 | interpreting the arguments as docker does creates a privileged node with the same hostname, "orcinus." labels, "K3S_" variables, mounts, other ports, devices, restart policy and command |
| NodeLaws.PublishedIs | pkg/cluster/update.go:55-64 | a container port counts as published on the number its first numeric binding starts with, 0 if there is none |
| NodeLaws.PortsAsAsked | pkg/cluster/update.go:55-64 | inspecting that node returns exactly the ingress ports asked for, 0 meaning none |
| NodeLaws.CanonicalTwice | pkg/cluster/update.go:66-117 | recreating a recreated node changes nothing but what is asked |
| NodeLaws.CanonicalInspected | pkg/cluster/update.go:21-53 | a recreated node is again one that can be recreated |
| NodeLaws.IdentitySurvives | pkg/cluster/update.go:124-174 | over any run of port updates and image changes the node is the first recreation with the last ports and image |
| NodeLaws.IdentityOfRuns | pkg/cluster/update.go:66-174 | the same of what docker makes: each node interpreted from the arguments rebuilt of the one before it, in any order of its maps, and privileged each time |
| NodeLaws.IngressKeptIff | pkg/cluster/update.go:55-105 | an upgrade, or an update that asks for the port as published, keeps an ingress port's bindings if and only if there are none, or a single one on 0.0.0.0 |
| NodeLaws.SecondBindingLost | pkg/cluster/update.go:55-64 | of two host ports for ingress only the first is kept |
| Recreate.Host.Recreate | pkg/cluster/update.go:179-223 | the command-by-command replacement with its restore closure does what the specification says, whatever fails |
| Recreate.NeverLost | pkg/cluster/update.go:189-214 | under any failures the original exists under its own or the "-old" name until the new node reported ready; an error return never lost it; no other container is touched |
| Recreate.ErrorRestoresIff | pkg/cluster/update.go:190-195 | an error return leaves docker exactly as found, the original running, if and only if the restoring commands it needed worked |
| Recreate.Success | pkg/cluster/update.go:203-222 | a success leaves a new running container with the old password and the old one gone, or stopped aside if its removal failed |
| Recreate.DroppedWhenReady | pkg/cluster/update.go:203-215 | whatever fails, the old container is dropped only by the last command of a success, right after the wait for the new one ended well; in a successful run the new container runs only with the old password |
| Recreate.SucceedsIff | pkg/cluster/update.go:179-222 | a recreation succeeds if and only if docker understands the arguments, the password is there, no "-old" container is left over and none of the first seven commands fails |
| Recreate.LeftoverBlocks | pkg/cluster/update.go:199-202 | a leftover "-old" container makes every run fail, no later than the renaming, and stays |
| Recreate.RunSeen | pkg/cluster/update.go:179-223 | in every intermediate state the node's two names hold only the original or the new configuration |
| Recreate.RunApart | pkg/cluster/update.go:179-223 | in every intermediate state all other containers are as they were |
| Update.RunUpdate | pkg/cluster/update.go:124-174 | the decisions of a port update and the recreation it asks for |
| Update.UpdateEnds | pkg/cluster/update.go:119-174 | a success means the node is up and privileged with exactly the ports asked for, what was not asked for as published, and otherwise itself with its password, untouched if the ports were already so; an error leaves docker as found if and only if the restoring commands worked |
| Update.StoppedIsRefused | pkg/cluster/update.go:135-137 | a cluster that is not there or not running is refused after a look at it |
| Update.UpdatesIff | pkg/cluster/update.go:124-174 | with docker doing what it is told, an update succeeds if and only if the cluster runs and either publishes those ports already or has its password and no "-old" left over |
| Versions.ComputeSteps | pkg/cluster/upgrade.go:32-47 | the filter loop and its two refusals |
| Versions.RemainingIsSuffix | pkg/cluster/upgrade.go:40-46 | on a path with consecutive minors the filter keeps a suffix, exactly the releases newer than the current one |
| Versions.StepsClimb | pkg/cluster/upgrade.go:30-47 | the steps rise strictly by at most one minor each from the current version, end at the target, and are empty if and only if the current version is at or past it |
| Versions.SupportedIff | pkg/cluster/upgrade.go:37-39 | a version is not refused as too old if and only if some stretch at the end of the path leads from it to the target in gradual steps |
| Versions.ReadsRelease | pkg/cluster/upgrade.go:25-28 | a release text reads as its minor and patch |
| Versions.ReadsIff | pkg/cluster/upgrade.go:25-28 | a text reads as a version if and only if it is "v1.", a signed number, a ".", another signed number, and anything but a digit after it |
| Versions.ShippedPathReads | pkg/cluster/upgrade.go:14-20 | the shipped path reads as written and climbs one minor at a time |
| Versions.TagRoundTripIff | pkg/cluster/upgrade.go:49-51 | tag spelling and its inverse round-trip on exactly the release spellings |
| Upgrade.ImageReads | pkg/cluster/upgrade.go:100-101 | an image built for a release reads back as that release |
| Upgrade.RunWalk | pkg/cluster/upgrade.go:126-146 | the loop over the steps of one node |
| Upgrade.RunUpgradeNode | pkg/cluster/upgrade.go:95-148 | one node's upgrade with its refusals: a stepping upgrade walks all steps, any other jumps to the last one |
| Upgrade.RunUpgrade | pkg/cluster/upgrade.go:58-90 | the server first, unless it is not running, then the other nodes in turn until one fails |
| UpgradeLaws.WalkEnds | pkg/cluster/upgrade.go:126-147 | with restores working, a walk leaves the node on the last release that reported ready, a success on the last step |
| UpgradeLaws.NodeEnds | pkg/cluster/upgrade.go:92-148 | a failed node upgrade leaves the last release that reported ready or nothing changed; a success ends at the target or was already at or past it |
| UpgradeLaws.ServerClimbs | pkg/cluster/upgrade.go:10-13 | an upgrade that steps never skips a minor: from each state of the run to the next the version standing under the node's names changes by at most one minor, whatever fails; a success has waited for every newer release of the path, in its own container, and found it ready |
| UpgradeLaws.EveryMinorReady | pkg/cluster/upgrade.go:53-57 | a stepping upgrade that succeeds has had every minor above its start up to the target report ready in its turn |
| UpgradeLaws.FollowerJumps | pkg/cluster/upgrade.go:119-121 | an upgrade that does not step shows no image but the node's own and the target's, and a success from an older start has waited for the target |
| UpgradeLaws.NodeFetches | pkg/cluster/upgrade.go:126-145 | whatever fails, a recreation begins only right after an image was fetched, and what it creates runs an image fetched in this upgrade |
| UpgradeLaws.RefusedIsUntouched | pkg/cluster/upgrade.go:95-118 | a node of an unsupported version, one of several control planes that would have to step, and a node with nothing newer to go to are looked at and no more |
| UpgradeLaws.UpgradesIff | pkg/cluster/upgrade.go:95-148 | with docker doing what it is told, an upgrade succeeds if and only if the node is there, its version is supported, and either nothing is newer or it is not one of several control planes that would have to step |
| UpgradeLaws.ReportedVersionIff | pkg/cluster/upgrade.go:57-58 | the reported version is the node's own if and only if the node was not past the target |
| UpgradeLaws.NewerIsMisreported | pkg/cluster/upgrade.go:89 | a node on 1.37 is left alone and reported to be on 1.36.5 |
| UpgradeLaws.NodeWithin | pkg/cluster/upgrade.go:95-148 | in every state of a node's upgrade only that node's names change and they hold only the planned images |
| UpgradeLaws.NodeReached | pkg/cluster/upgrade.go:92-148 | after a successful upgrade a node is at the target or past it, and no other node changed |
| UpgradeLaws.AllReach | pkg/cluster/upgrade.go:72-89 | when the upgrade of a cluster succeeds, the server and every other node are at the target or past it |
| UpgradeLaws.StoppedServerIsRefused | pkg/cluster/upgrade.go:69-71 | an upgrade of a cluster whose server is missing or stopped looks at it and changes nothing |
| UpgradeLaws.NeverOvertaken | pkg/cluster/upgrade.go:53-90 | no follower is newer than the server in any state of any run, whatever fails, if none was at the start; images that read as no version count as newer than nothing |
| UpgradeLaws.ShippedUpgradable | pkg/cluster/upgrade.go:14-20 | every node docker shows can be upgraded along the shipped path, read as orcinus reads it |
| UpgradeLaws.ShippedNodeEnds | pkg/cluster/upgrade.go:92-148 | the outcome of a node upgrade for the shipped path and orcinus' own reading of images, ending at 1.36.5 |
| UpgradeLaws.ShippedServerClimbs | pkg/cluster/upgrade.go:10-20 | along the shipped path, read as orcinus reads it, a server skips no minor, and after a success every minor up to 1.36 has reported ready |
| UpgradeLaws.ShippedNeverOvertaken | pkg/cluster/upgrade.go:53-90 | no follower overtakes the server along the shipped path |
| Prune.IsStatefulSetClaim | pkg/deploy/apply.go:330-341 | a name is covered if and only if it is one of the prefixes followed by one or more digits |
| Prune.Cluster.ClaimPrefixes | pkg/deploy/apply.go:305-326 | one prefix per named claim template of every StatefulSet in the namespace, none when the listing fails |
| Prune.CoveredIff | pkg/deploy/apply.go:305-341 | what those prefixes cover is exactly the names "template-set-digits" of the claim templates of the namespace's StatefulSets |
| Prune.ClaimsAreCovered | pkg/deploy/apply.go:294-304 | the name the StatefulSet controller gives a claim is covered, for every listed set, template and ordinal |
| Prune.ClaimsSurvive | pkg/deploy/apply.go:267-286 | so a sweep that saw the StatefulSets leaves every claim of theirs as it was |
| Prune.Cluster.SweepKind | pkg/deploy/apply.go:271-289 | one kind of the sweep deletes orphans only, and all of them when nothing fails |
| Prune.Cluster.PruneProject | pkg/deploy/apply.go:256-292 | whatever fails, only orphans go; no claim of a StatefulSet goes once the StatefulSets were listed, whatever else fails; when nothing fails exactly the doomed objects go |
| Prune.Cluster.Apply | pkg/deploy/apply.go:184-236 | a deploy that fails to apply an object has applied those before it and deletes nothing; after a success every applied object is where it goes, whatever the sweep did; once the StatefulSets were listed no failing call costs one of their claims; with no failing call it succeeds if and only if every object is accepted and leaves the applied store, pruned |
| Prune.AppliedLabels | pkg/deploy/apply.go:203-219 | an object goes to the namespace it names, else to the deploy's, and to none if its kind has none; there each label is what the last object to give it says, and labels nobody gives stay, whoever set them |
| Prune.AcceptableIff | pkg/deploy/apply.go:217-219 | every object is accepted in its turn if and only if no StatefulSet would have to change its claim templates |
| Prune.KeyInjective | pkg/deploy/apply.go:443-445 | the keys of different objects differ, so nothing is kept on another object's behalf |
| Prune.SweepExact | pkg/deploy/apply.go:271-289 | whatever prefixes the sweep was given, an owned prunable object of the namespace survives if and only if it was applied, or is a claim and claims are not pruned or a prefix covers it; all else is untouched |
| Prune.PruneExact | pkg/deploy/apply.go:217-292 | with a healthy listing, it survives if and only if it was applied, or is a claim and claims are not pruned, or is a claim of a StatefulSet present when the sweep began |
| Prune.TwiceIff | pkg/deploy/apply.go:267-269 | a loose claim outlives two sweeps if and only if, to begin with, a StatefulSet with a template for it is listed or is not the project's |
| Prune.SecondPruneLosesClaims | pkg/deploy/apply.go:267-269 | for any names: an unlisted StatefulSet goes in the first sweep and its claim in the second |
| Prune.FailedListingIff | pkg/deploy/apply.go:307-310 | with a failed StatefulSet listing the survivors are the applied objects and, with claim pruning off, the claims; what is lost on top of a healthy sweep is exactly the unlisted claims of StatefulSets that are there |
| Prune.FailedListingLosesClaims | pkg/deploy/apply.go:307-310 | for any names: the claim goes although its StatefulSet is kept |
| Deploys.OnlyPrunersDelete | pkg/deploy/apply.go:271-289 | in any interleaving, only a deletion by a deploy that prunes claims makes a claim disappear, in its own namespace |
| Deploys.NoClaimIsDeleted | pkg/deploy/apply.go:271-274 | no run of deploys with claim pruning off deletes a claim, whatever fails |
| Deploys.NotExpendable | pkg/deploy/apply.go:281-286 | the guarded set and its claims are never expendable to a deploy of their project |
| Deploys.StepKeeps | pkg/deploy/apply.go:184-292 | every step of any deploy or of the controller keeps the safety invariant and everything under guard |
| Deploys.ClaimsAreSafe | pkg/deploy/apply.go:184-341 | in every interleaving in which pruning deploys of the project list the set with its template, nobody labels the set or its claims as another project's, and StatefulSet listings succeed, neither the set nor any claim "template-set-ordinal" disappears |
| Deploys.IdleStart | pkg/deploy/apply.go:184-189 | a cluster with no deploy running is a starting point of these laws as soon as what it holds is fairly labelled |
| DeployAlone.AloneIsExact | pkg/deploy/apply.go:184-292 | the step machine agrees with the reconciler: a deploy alone with all calls succeeding ends with exactly the applied store, pruned |
| MergeSecret.Api.ApplySecret | pkg/deploy/secret.go:89-107 | data and type replaced wholesale, or nothing changed |
| MergeSecret.Api.MergeSecret | pkg/deploy/secret.go:64-86 | undisturbed, the keys are overlaid on what is there and the type is kept |
| MergeSecret.Overlay | pkg/deploy/secret.go:72-78 | the two copying loops compute the overlay |
| MergeSecret.StepKeeps | pkg/deploy/secret.go:64-107 | snapshots stay accurate as long as their version is current, in every interleaving |
| MergeSecret.IdleStart | pkg/deploy/secret.go:64-107 | with nobody writing, any Secret or none is a starting point of these laws |
| MergeSecret.CleanCommit | pkg/deploy/secret.go:100-104 | a commit whose version did not move between the two reads is atomic |
| MergeSecret.CommitIff | pkg/deploy/secret.go:72-104 | any committed merge equals the pre-commit data overlaid if and only if the first read agrees with it on every key not given; other keys are put back as first read |
| MergeSecret.UndisturbedIsClean | pkg/deploy/secret.go:65-101 | with no write between the first read and the re-read the commit is clean |
| MergeSecret.MergeIsAtomic | pkg/deploy/secret.go:64-107 | from end to end in any interleaving: a merge whose reads have no write between them and whose write is taken leaves exactly the pre-commit data overlaid, of the pre-commit type |
| MergeSecret.Serialisable | pkg/deploy/secret.go:64-107 | a run of clean commits leaves the Secret as the calls made one after another in commit order |
| MergeSecret.LastMergeWins | pkg/deploy/secret.go:60-63 | over any sequence of merges each key ends with the last value given for it, and no key or type is lost |
| MergeSecret.LostUpdate | pkg/deploy/secret.go:65-100 | a foreign write between the two reads is lost |
| Placement.ParseConstraints | pkg/compose/extensions.go:662-674 | the parsing loop, refusing the list at the first unreadable constraint and passing over non-texts |
| Placement.ParsePreferences | pkg/compose/extensions.go:676-691 | the loop over spread preferences |
| Placement.SpreadsAsAsked | pkg/compose/extensions.go:676-691 | preferences are refused if and only if one names no label of a node; else there is one key for each attribute asked for, in order, whose label holds the attribute |
| Placement.RefusedIff | pkg/compose/extensions.go:744-758 | a key is refused if and only if it names no node attribute |
| Placement.EqualReadIff | pkg/compose/extensions.go:710-717 | "a==b" is read as written if and only if "!=" is nowhere in it and "==" is not reached earlier |
| Placement.DifferReadIff | pkg/compose/extensions.go:710-712 | "a!=b" is read as written if and only if the left side holds no "!=" |
| Placement.ReadsAsWritten | pkg/compose/extensions.go:707-742 | every spelling of a constraint, with blanks and quotes, compiles to that constraint |
| Placement.CompiledMeansIff | pkg/compose/extensions.go:721-741 | a requirement admits exactly the nodes that satisfy the Swarm constraint if and only if the role exists and the label is not one the cluster sets itself |
| Placement.RequireMeans | pkg/compose/compose.go:974-998 | joining requirements to no terms or to one that says something is conjunction |
| Placement.SecondTermEscapes | pkg/compose/compose.go:993-997 | why RequireMeans asks for a single term: with a second one, a node it matches is admitted whatever the constraints say |
| Placement.EmptyTermOpens | pkg/compose/compose.go:988-996 | an empty term admits nobody until constraints are joined to it |
| Placement.Compilation.ApplyPlacement | pkg/compose/compose.go:961-1008 | the loop rewrites exactly the configured workloads, in place |
| Placement.Compilation.ApplyNodeSelector | pkg/compose/compose.go:1040-1060 | selector entries are overlaid on exactly the configured workloads |
| Placement.CompilingKeeps | pkg/compose/compose.go:961-1060 | beside selector and required terms a configured workload gets one spread per key, in order and among its own pods; nothing else of it changes, nor anything of other objects |
| Placement.Compilation.ConvertMachines | pkg/compose/vm.go:16-50 | it succeeds if and only if every configured Deployment is a single instance with an image and every configured name has one; then each has been replaced in its place by one machine of its name, found by what found its pods, scheduled as it was and booting its image, followed by its disk if sized, and every other object is there unchanged and in order; an error changes nothing |
| Placement.MachineSchedules | pkg/compose/vm.go:117-126 | a machine carries its Deployment's selector and affinity |
| Placement.Compilation.ConvertRollouts | pkg/compose/compose.go:248-337 | it succeeds if and only if every configured Deployment asks for a canary, or for blue-green with a Service of its name; then each has been replaced in its place by one Rollout with its replicas and whole template, and every other object is there unchanged and in order; an error changes nothing |
| Placement.Compilation.Compile | pkg/compose/compose.go:215-232 | the four passes in order succeed if and only if every configured Deployment can be converted; then each object of the compiled list has been replaced in its place by what it is shipped as, Services and the rest unchanged, and the scheduler is told, workload by workload, what placement and selectors compiled |
| Placement.RolloutSchedules | pkg/compose/compose.go:283-337 | a Rollout carries its Deployment's pod template |
| Placement.CompilingMeans | pkg/compose/compose.go:961-1060 | compiled from any spelling of expressible constraints and from selector entries, either or both of which may be missing, a workload admits a node if and only if the node satisfies every constraint, every selector entry, and what the workload asked before |
| Placement.PlacementMeans | pkg/compose/compose.go:215-280 | the same for whatever the workload is shipped as: itself, a Rollout or a virtual machine |
| Paths.CleanInside | pkg/compose/extensions.go:541-546 | a cleaned relative path stays inside the directory if and only if it does not visibly climb out |
| Paths.CleanTwice | pkg/compose/extensions.go:846-848 | a cleaned absolute path is clean |
| Paths.CleanLeadsAlike | pkg/compose/extensions.go:542-546 | cleaning keeps where a path leads, from any directory, and whether it is absolute, and leaves the shortest spelling |
| Paths.PlainIsClean | pkg/compose/extensions.go:534-546 | a relative path of plain segments is clean as written |
| Paths.BaseIs | pkg/compose/extensions.go:547-555 | the base name is the last segment, whatever slashes follow it |
| EnvFiles.Pigeonhole | pkg/compose/extensions.go:550-556 | no more numbered names can be taken than there are names taken |
| EnvFiles.Staging.EnvFileDest | pkg/compose/extensions.go:539-557 | the retry loop ends within that bound, at the first open candidate, and records it |
| EnvFiles.ChosenAt | pkg/compose/extensions.go:550-556 | the chosen name is open and every candidate before it is taken by another source |
| EnvFiles.NeverClobbers | pkg/compose/extensions.go:551-553 | recording a choice never changes the source of a recorded name |
| EnvFiles.SameRequestSameName | pkg/compose/extensions.go:534-557 | repeating a request at any later time gives the same name |
| EnvFiles.KeptIff | pkg/compose/extensions.go:534-557 | a relative path that stays inside is kept, cleaned, and anything else gives way to the base name, exactly when no other source has that name; otherwise the base name is numbered |
| EnvFiles.KeptAsWritten | pkg/compose/extensions.go:534-546 | a path of plain segments is kept as written if and only if no other source has that very name |
| EnvFiles.StaysInside | pkg/compose/extensions.go:534-557 | a chosen name stays inside the directory whenever the source's base name does |
| EnvFiles.Staging.StageEnvFiles | pkg/compose/extensions.go:456-500 | one service's entries: kept, dropped when optional and missing, refused when required and missing, else pointed at their staged names |
| EnvFiles.StagingRecords | pkg/compose/extensions.go:469-499 | every reference is recorded with an existing source, and nothing recorded earlier changes |
| EnvFiles.RefusedIff | pkg/compose/extensions.go:471-488 | a service is refused if and only if a file is missing that some entry does not declare optional |
| EnvFiles.EntriesRepointed | pkg/compose/extensions.go:471-500 | each entry whose file is there comes out in its place, in its own form, pointing at a name recorded for its own source; entries that name no file stay, and nothing else comes out |
| EnvFiles.Staging.CopyEnvFiles | pkg/compose/compose.go:643-658 | the copying loop |
| EnvFiles.Staging.StageDotEnv | pkg/compose/compose.go:663-680 | the project's ".env" is copied unless another file has the name |
| EnvFiles.DotEnvIff | pkg/compose/compose.go:663-680 | after a conversion ".env" is a document's own if and only if no other file was given the name by its turn |
| EnvFiles.Staging.Convert | pkg/compose/compose.go:92-158 | the loop over compose documents |
| EnvFiles.OwnBytes | pkg/compose/compose.go:641-680 | after any conversion every staged name that no document has holds its own source's bytes, and recorded names keep their sources over the whole conversion |
| EnvFiles.NamesAreStaged | pkg/compose/compose.go:91-116 | a conversion that gets through has staged exactly the names that staging alone gives |
| EnvFiles.DocumentOrEnvFile | pkg/compose/compose.go:94-158 | a document's name holds the document's text or, if it is staged too, the bytes of the env file staged under it |
| EnvFiles.AllIntactIff | pkg/compose/compose.go:94-158 | every staged name holds its source's bytes and every document is intact if and only if each document name that staging also gives to an env file has equal contents under both |
| EnvFiles.DisjointNamesSuffice | pkg/compose/compose.go:94-158 | in particular when no document has the name of a staged file |
| EnvFiles.EnvFileLost | pkg/compose/compose.go:109-156 | an env file named as its own document is loaded is overwritten by it |
| EnvFiles.DocumentLost | pkg/compose/compose.go:109-156 | an env file of a later document, named as an earlier one is loaded, overwrites that document before it is loaded |
| EnvFiles.LoaderNamesDiffer | pkg/compose/compose.go:153-157 | different documents are loaded under different names, so no document overwrites another document |
| Export.RemoveView | pkg/deploy/config.go:101-103 | removing a path takes away what is at or under it and nothing else |
| Export.Unstructured.CleanForExport | pkg/deploy/config.go:85-135 | the in-place cleaning loops compute the specified tree |
| Export.CleanedView | pkg/deploy/config.go:84-135 | path by path, what an export shows: nothing under stripped paths or unreadable annotations, cleaned claim templates, and everything else unchanged |
| Export.SameView | pkg/deploy/config.go:84-135 | two trees that show the same at every path are equal |
| Export.CleanedTwice | pkg/deploy/config.go:84-135 | cleaning is idempotent on arbitrary trees |
| Export.SameExport | pkg/deploy/config.go:84-135 | trees that differ only in stripped fields, with readable annotations, export alike |
| Export.UnreadableLosesAll | pkg/deploy/config.go:108-120 | why SameExport asks for readable annotations: one that is not a text, which the API server does not hold, loses them all |
| Export.RedactedData | pkg/deploy/config.go:137-152 | under "data", at any depth and whatever is there, redaction keeps every key and shows nothing but the mark |
| Export.ProjectConfig.RenderK8s | pkg/deploy/config.go:64-82 | one rendered document per item, made on a copy: the in-place cleaning changes no collected object; of a Secret whose values were not asked for, a document shows every key of the data with nothing but "<redacted>", of anything else exactly the data that is there, and the rest as exported |
| Export.RenderedShows | pkg/deploy/config.go:64-82 | the same of one document, path by path, in terms of the object it was made from |
| Export.RenderedNotes | pkg/deploy/config.go:146-151 | a redacted Secret says so in an annotation and keeps the annotations an export keeps |
| Export.CleanSightShows | pkg/deploy/config.go:122-134 | each embedded claim stays in its place and shows everything but its status and creation time |
| BindMounts.ExtractBindMounts | pkg/compose/extensions.go:778-811 | the splitting loop |
| BindMounts.ExtractPartitions | pkg/compose/extensions.go:778-811 | every entry goes to exactly one of the two lists, in order and in full, and mounts are numbered from 0 |
| BindMounts.BindIff | pkg/compose/extensions.go:784-835 | an entry is extracted if and only if it asks for a bind, in either form, and then with the source, target and read-only flag it asks for |
| BindMounts.Pod.ApplyBindMounts | pkg/compose/compose.go:944-955 | the nested loops append one volume per mount and one mount per container |
| BindMounts.BoundAsAsked | pkg/compose/compose.go:944-955 | every bind an entry asks for is a host directory of the pod under a name of its own, which is mounted at the target with the flag asked for |
| BindMounts.VolumesFor | pkg/deploy/config.go:329-390 | the read-back loops over mounts, claim templates and volumes |
| BindMounts.TemplatesNamed | pkg/deploy/config.go:344-353 | each mounted claim template is listed, and its claim is not listed again |
| BindMounts.ListsOnce | pkg/deploy/config.go:359-387 | the volumes add one entry for each mounted host directory and one for each claim not listed before, and no others |
| BindMounts.BindsReadBack | pkg/deploy/config.go:325-390 | extracting, attaching, exporting and extracting again gives the same multiset of source and target pairs, in whatever order the export is sorted |
| BindMounts.AbsoluteIsClean | pkg/compose/extensions.go:837-850 | a source written as an absolute path or under a home directory is clean after extraction |
| BindMounts.ReadOnlyIsLost | pkg/deploy/config.go:381-386 | the read-only flag is not carried |
| InjectBlock.SharedFile.InjectBlock | pkg/cli/skills.go:167-187 | the splice on the file |
| InjectBlock.LastBodyWinsIff | pkg/cli/skills.go:165-187 | injecting two marker-free bodies equals injecting the second if and only if the file has no markers or its first begin precedes its first end |
| InjectBlock.AnyNumberOfRuns | pkg/cli/skills.go:165-187 | over any number of runs text outside the section is kept and the section holds the last body |
| InjectBlock.UnclosedLosesText | pkg/cli/skills.go:177-186 | after an unclosed begin marker the second run swallows the text that follows it |
| InjectBlock.StrayEndGrows | pkg/cli/skills.go:177-186 | with an end marker first, each of any number of runs adds one more section and replaces none |
| Rollback.Scan | pkg/deploy/rollback.go:44-52 | the scan finds the newest revision below the current one, if any |
| Rollback.SortedSorts | pkg/deploy/rollback.go:106 | sorting by descending revision is an ordered permutation |
| Rollback.SameChoice | pkg/deploy/rollback.go:44-55 | with distinct revisions and the current one highest, the scan and the sort choose alike, and both fail on a single revision |
| Rollback.BackStep | pkg/deploy/rollback.go:61-71 | after a rollback the template is the previous revision's without its hash label and otherwise unchanged, and the revision one was at is the previous one |
| Rollback.Alternates | pkg/deploy/rollback.go:97-124 | any number of rollbacks alternates between the two newest templates, an even number restoring the first |

## Left out

- The compose loader, the kompose transformer, YAML and JSON codecs: passes start from an arbitrary object list.
- Polling, timeouts and printing: a wait is one docker command that succeeds or fails.
- Temporary directories and free disk space: creating the directory of a recreation always works.
- A container that crashes by itself during a recreation, and docker settings that neither `createArgs` nor `docker inspect` shows here.
- The VXLAN checksum fix and saving of the cluster state after an update, which do not touch containers.
- GPU images: the local build counts as fetching the image, whose repository and tag are those of the node's image.
- `fmt.Sscan` and `fmt.Sscanf` beyond signed decimals: base prefixes, underscores, leading blanks and overflow.
- `envFrom` prefixes, optional references, `$(VAR)` expansion, and values beside a `valueFrom` that is empty.
- The wanted names of a service are a list in pull order; sorting them is not modelled, and the laws hold for every order and for repeated names.
- Server-side apply is a merge of labels and a replacement of the rest; field ownership, API-version aliases of one resource and discovery retries are not modelled.
- Waiting for workloads after an apply, and the listing used by `orcinus rm`.
- A directory where an env file is expected: it counts as missing here, and makes the copy fail in the program.
- The labels and annotations of a Secret, which an update replaces with orcinus' own.
- Deletion is immediate: finalizers and owner-reference cascades are not modelled, so the StatefulSet controller never deletes.
- A Secret's type can be changed by an update here; the real server refuses that.
- `Deploys.ClaimsAreSafe` guards one StatefulSet and one template at a time, for any choice of them.
- Topology spread is carried but has no effect on which nodes are admitted, as `ScheduleAnyway` says.
- The rest of a Rollout or virtual machine: canary steps and traffic weights, run strategy, cloud-init, credentials, CPU and memory, and object metadata other than the name.
- Home directories and `filepath.Abs` are parameters; symbolic links and Windows paths are not modelled.
- The order in which a document's services are staged is given as a list.
- PlacementMeans: covers workloads with no required term or a single one that says something; with placement stripped before the transformer no other terms reach it.
- MeaningKeptIff: speaks of workloads with one container, alone under their name, that mention none of the Secrets the pass makes; containers of one service share its Secret, where the last value of a name wins.
- BindsReadBack: the pod has no other host directories, and named volumes are not spelled like paths, as the transformer generates them.
- Aliasing inside one object tree: trees are values, so copying an object copies all of its tree.
- Volume sizes in an export, ports, ingress and resource limits.
- Rollback decoding: stored revisions always hold a template, and the controller re-stamps the chosen revision as newest.
- Flag assembly of init and join, registries, plugins, the API and MCP servers, and the standalone runtime.
