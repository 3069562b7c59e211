# Verified models of the control plane's hard parts

Dafny models, with proofs, of six pieces of the repository whose correctness is an argument rather than a
glance: the Kubernetes lease lock, the swagger model closure, the deployment template generator, the two retry
loops, and the algorithms on addresses, slices, passwords and byte sizes. `dafny verify dfyconfig.toml` checks
everything.

| file | models |
|---|---|
| `LeaseProtocol.dfy`, `LeaseTheorems.dfy` | the lease lock as a state machine: any number of calls of NewLocker, Lock, RenewLock and Unlock against one versioned lease, split at every request, clock read, delivery and answer; requests and answers may be lost or arrive late |
| `LeaseLocker.dfy` | the four operations as imperative code against a server that others use meanwhile; each is proved to be one call of that state machine |
| `SchemaGraph.dfy`, `SchemaVisits.dfy`, `SchemaTermination.dfy`, `SchemaClosure.dfy`, `SchemaReach.dfy` | the two-stack worklist over swagger definitions; which names it visits under which schema and what it finds there, said without its stacks; when it terminates; the loops as they run (the worklist, the outer loop over the growing list, the sorted output); and when the result is exactly what is reachable by references, directly or at any depth |
| `Names.dfy`, `ResourceNames.dfy` | dash-joined names, substring tests, and the name of every kind of template resource |
| `Deployment.dfy`, `DeploymentTheorems.dfy`, `DeploymentMeaning.dfy`, `DeploymentGenerator.dfy` | the emitted template as a function of the configuration; its names, references and subnets; what each resource is there for, said without the functions that build it; and the generator that appends resources and shares one growing dependency list |
| `RoundTripper.dfy`, `Retrier.dfy` | the HTTP retry loop with the responses and bodies it owns, and the retry on error codes with exponential backoff in wrapping 64-bit arithmetic |
| `Cidr.dfy`, `SliceDiff.dfy`, `Password.dfy`, `ByteSizes.dfy` | CIDR containment by two end points, reconciliation by diff, the password policy and the shuffle, byte-size printing and parsing |
| `Common.dfy`, `Text.dfy` | options, results, machine integers; white space |

## Where the code differs from what is said about it

- `utils/kubernetes_lock.go:97` says an empty ClientID is replaced by a UUID. The options are applied after the
  UUID is generated (`utils/kubernetes_lock.go:141-148`), so `ClientID("")` stays empty (`LeaseLocker.ChosenID`).
  Whoever acquires the lease can renew and unlock it exactly when its client ID is not empty
  (`LeaseTheorems.AcquirerRenewsAndUnlocksIff`, `LeaseTheorems.NamelessNeverRenews`).
- Mutual exclusion needs more than the version check. A holder without a TTL counts on its own default duration,
  and a contender judges by its own. The lock is exclusive on all runs exactly when nobody judges by less
  (`LeaseTheorems.ExclusionIffNobodyJudgesShort`); the default comes from an environment variable.
- The fencing number is an int32: it increases exactly as long as there were fewer than 2^31 acquisitions
  (`LeaseTheorems.FencingTokens`).
- The worklist invents names ending in Items. On a model that is an array of itself it does not terminate
  (`SchemaTermination.SelfArrayNeverEnds`). On documents whose own names do not look like invented ones it
  terminates for every model exactly when no chain of array items goes on forever
  (`SchemaTermination.TerminatesIff`).
- The worklist visits property keys as if they were models: a property called like an unrelated model pulls in what
  that model refers to (`SchemaReach.UnrelatedModelIsFollowed`, `scripts/fetch_models.go:224-227`). On tame
  documents (no invented name is a model, no key deeper than a model's own properties is a model, no references
  nested deeper than the code looks) the results are exactly what is reachable if and only if such keys bring in
  nothing that is not reachable anyway (`SchemaReach.ResultsAreReachableIff`, `SchemaReach.OutputsAreReachableIff`).
  For the same reason references nested in inline properties are followed only under the first schema that a key is
  visited with; where every key stands for one schema all of them are (`SchemaReach.DeepResult`).
- The template generator chooses a subnet by looking for `nic0`, `nic1`, ... in the whole resource name. The
  deployment name is part of it, and the choice is right exactly when the deployment name contains none of the
  needles tested before the last interface in use (`DeploymentTheorems.DispatchIsRightIff`). The subnet is right
  exactly when every interface in use has the subnet of the first needle found
  (`DeploymentTheorems.AddressesLandOnTheirNic`).
- The shared-disk branch never returns: it counts nine system disks and names eight
  (`DeploymentGenerator.AttachDisks`). A supplied first node group without a second one reads a template name that
  was never set. A two-node deployment with a supplied mediator address and `mediator` in its name reads a subnet
  that was never set. `DeploymentGenerator.Returns` is the exact condition.
- The jitter is 100 to 199 ms where the comment says 100 to 200 (`utils/util.go:527`). The exponential delay wraps
  around in int64 on long runs of retries. The first delay that does not fit always comes out negative, which is no
  wait; a run of 429s waits as intended exactly as long as the last delay fits (`Retrier.BackoffIsSoundIff`).
- A CIDR block whose two ends are in different families, such as `::/80`, is refused by every range
  (`Cidr.StraddlingBlocksAreRejected`, `Cidr.StraddlingBlocksExist`): Go reads an IPv4-mapped IPv6 address as IPv4.
- `IsSliceEqual` tests one inclusion and the lengths, which is equality exactly when the first slice has no
  duplicates (`SliceDiff.EqualityTestIsRightIff`). Only one side of each comparison is trimmed (`SliceDiff.DiffReconcilesIff`).
- The byte-size parser refuses a number without a unit (`ByteSizes.NumberNeedsUnit`), drops a minus sign that
  follows white space (`ByteSizes.MinusCountsOnlyInFront`), and after a first minus sign passes over white space and
  one more sign, so that `--5kB`, `-+5kB` and `- 5kB` are all read as -5000 (`ByteSizes.AcceptedSignedTexts`).

## Model

| member | source | states |
|---|---|---|
| LeaseProtocol.EarlierWindowsAreOver | utils/kubernetes_lock.go:188-211 | when the write of a Lock lands, every earlier hold window has ended at its stamp: the stamp is read after the expiry check, and expiry cannot move while the version stands |
| LeaseProtocol.OtherStepsAreStable | utils/kubernetes_lock.go:226-236 | no step of time or of another call touches a call in progress or invalidates what it relies on: its snapshot is the stored lease or its version is gone |
| LeaseProtocol.LockWriteKeepsInv | utils/kubernetes_lock.go:204-226 | the landing write of a Lock keeps the whole invariant: stored lease, tenures, order of windows, every call in progress |
| LeaseProtocol.RenewWriteKeepsInv | utils/kubernetes_lock.go:267-278 | so does that of a renew |
| LeaseProtocol.UnlockWriteKeepsInv | utils/kubernetes_lock.go:285-301 | and that of an unlock |
| LeaseProtocol.StepKeepsInv | utils/kubernetes_lock.go:181-318 | every step of the machine, by anyone, keeps the invariant |
| LeaseProtocol.RunKeepsInv | utils/kubernetes_lock.go:181-318 | hence every run does, from every state that has it |
| LeaseTheorems.MutualExclusion | utils/kubernetes_lock.go:172-237 | in every interleaving of any number of calls, with lost and late requests, no instant lies in two hold windows, and windows follow one another in time |
| LeaseTheorems.ShortJudgeBreaksExclusion | utils/kubernetes_lock.go:192-195 | if one client judges by a shorter default than a holder counts on, two undisturbed Lock calls hold at once |
| LeaseTheorems.ExclusionIffNobodyJudgesShort | utils/kubernetes_lock.go:40-47 | all runs are exclusive if and only if no client's default is shorter than the one holders count on |
| LeaseTheorems.UndisturbedLock | utils/kubernetes_lock.go:188-237 | an attempt that no other call disturbs, however long its steps take, succeeds if and only if at its expiry check the lease is unheld or its time is up (whether or not it was unlocked, and also for the holder itself: the lock is not re-entrant), with the exact lease written under its later stamp; otherwise it reports ErrAlreadyHeld and changes nothing |
| LeaseTheorems.LockStores | utils/kubernetes_lock.go:188-223 | in plain figures: an undisturbed Lock succeeds if and only if the lease has no holder or no renew time, or its check comes the stored seconds, or else the caller's default, after the renew time; it then stores the caller, its stamp twice, one transition more, and for a TTL of at least 10^9 ns its whole seconds, for a shorter positive one 1, else the duration stored before |
| LeaseTheorems.NextLockWaitsItsSeconds | utils/kubernetes_lock.go:188-223 | over two calls: after an acquisition at its stamp a second undisturbed Lock succeeds if and only if its check comes d seconds after that stamp or later, where d is the TTL in whole seconds but at least 1, or without a TTL what was stored before, or else the second caller's default |
| LeaseTheorems.EveryWriteIsAtomic | utils/kubernetes_lock.go:267-318 | any change to a stored lease is one indivisible Lock, renew or unlock on the lease as stored at that instant; only the stored holder renews or unlocks |
| LeaseTheorems.StaleForever | utils/kubernetes_lock.go:226-236 | a write from a version that is gone changes nothing in any continuation, and its caller is never told success |
| LeaseTheorems.FirstWriteWins | utils/kubernetes_lock.go:226-236 | of two writes from one version the first to arrive lands and makes the other stale for good |
| LeaseTheorems.LoserIsToldAlreadyHeld | utils/kubernetes_lock.go:231-233 | a Lock that lost the race and hears back is told ErrAlreadyHeld |
| LeaseTheorems.StoreMovesForward | utils/kubernetes_lock.go:247-263 | once created the lease is never created again by racing creators, versions never return, and an unchanged version means an unchanged lease and history |
| LeaseTheorems.TenuresEvolve | utils/kubernetes_lock.go:267-301 | along every run an ended tenure never changes, and within a tenure the renew time never goes back |
| LeaseTheorems.SuccessIsOnRecord | utils/kubernetes_lock.go:235-236 | whoever was told success has the tenure to show for it: the one it acquired at its stamp, the one it renewed at its stamp or later, the one it released |
| LeaseTheorems.TransitionsCountAcquisitions | utils/kubernetes_lock.go:204-215 | LeaseTransitions is the number of acquisitions since creation as an int32; renew and unlock do not touch it |
| LeaseTheorems.FencingTokens | utils/kubernetes_lock.go:204-215 | the numbers of successive owners increase if and only if there were fewer than 2^31 acquisitions, and no two owners within 2^32 acquisitions share one |
| LeaseTheorems.UndisturbedRenew | utils/kubernetes_lock.go:267-278 | a renew that no other call disturbs, however long its steps take, succeeds if and only if the lease is stored under the caller's own non-empty ID, expired or not, and then sets the renew time and nothing else; otherwise it fails and changes nothing |
| LeaseTheorems.RenewStores | utils/kubernetes_lock.go:267-278 | field by field: the renew moves the renew time to its stamp and leaves holder, acquire time, transitions and duration |
| LeaseTheorems.UndisturbedUnlock | utils/kubernetes_lock.go:285-301 | an unlock that no other call disturbs succeeds if and only if the lease is stored under the caller's own non-empty ID, and then clears holder, times and duration; otherwise it fails and changes nothing |
| LeaseTheorems.UnlockStores | utils/kubernetes_lock.go:285-301 | field by field: the unlock clears holder, both times and duration and leaves the transitions |
| LeaseTheorems.UndisturbedNew | utils/kubernetes_lock.go:151-167 | an undisturbed NewLocker always succeeds; a missing lease is created with 0 transitions and nothing else, an existing one is left alone |
| LeaseTheorems.LosingTheCreation | utils/kubernetes_lock.go:160-263 | of two callers that both found no lease, the one that creates second fails if it is a NewLocker and reads again if it is a Lock |
| LeaseTheorems.AcquirerRenewsAndUnlocksIff | utils/kubernetes_lock.go:181-318 | whoever acquires a free lease can renew it and unlock it if and only if its client ID is not empty |
| LeaseTheorems.NamelessNeverRenews | utils/kubernetes_lock.go:311-316 | under the empty client ID no renew or unlock ever gets past the holder check, in any continuation |
| LeaseLocker.Locker.GetOrCreateLease | utils/kubernetes_lock.go:240-263 | read, create if missing, read again: the lease and version returned were stored by the server at a moment during the call, and the call is at the point where it judges them |
| LeaseLocker.Locker.Lock | utils/kubernetes_lock.go:181-237 | whatever others do between its requests, Lock is one Lock call of the state machine with the locker's own ID, TTL and default duration, and returns that call's outcome; `acquired` is set on success only |
| LeaseLocker.SuccessfulLockOwnsATenure | utils/kubernetes_lock.go:181-237 | a locker whose Lock returned success has a tenure under its own ID in the server's history, and the windows of that history do not overlap |
| LeaseLocker.Locker.VerifyLock | utils/kubernetes_lock.go:304-318 | returns a lease and version that the server stored at a moment during the call, held under the caller's non-empty ID, or fails; expiry is not looked at |
| LeaseLocker.Locker.RenewLock | utils/kubernetes_lock.go:267-278 | RenewLock is one renew call of the state machine and returns its outcome |
| LeaseLocker.Locker.Unlock | utils/kubernetes_lock.go:285-301 | Unlock is one unlock call of the state machine; `acquired` is cleared on success only |
| LeaseLocker.NewLocker | utils/kubernetes_lock.go:133-168 | last option wins, the UUID only if no ClientID option is given; losing the creation race is an error |
| LeaseLocker.LastClientIDCounts | utils/kubernetes_lock.go:141-148 | the client ID is that of the last ClientID option, the empty one included |
| LeaseLocker.LastTTLCounts | utils/kubernetes_lock.go:144-148 | the TTL is that of the last TTL option |
| SchemaGraph.FieldNamesAreDirectRefs | scripts/fetch_models.go:233-286 | an extraction reports exactly the direct references: property, property items, own items |
| SchemaVisits.RoundKeepsRecord | scripts/fetch_models.go:206-231 | each round adds one visit to a record or drops a name visited before; between rounds every visit was led to by an earlier one, everything visits lead to is visited or on the stack, and found is exactly what the visits find |
| SchemaVisits.EmptyStackIsExplored | scripts/fetch_models.go:206-231 | with an empty stack the record is a whole exploration: no name twice, each visit with the schema that an earlier visit offers under that name (a property's own, a model's definition, the items' own), every name offered is visited, and found is exactly what the visits find |
| SchemaVisits.FoundIsMentioned | scripts/fetch_models.go:233-286 | found is exactly what visited schemas and the definitions of visited models mention: a property's reference, the reference in the items of a property's inline or referenced schema, the reference in the schema's own items |
| SchemaVisits.ExploredIsReferred | scripts/fetch_models.go:206-286 | in terms of names: whatever set of names the start leads into, only what the start or definitions of that set refer to is found |
| SchemaTermination.RoundDecreases | scripts/fetch_models.go:206-231 | each round visits a new name of the document or lowers the weight of the stack, invented names ending in Items included |
| SchemaVisits.StepsAreVisited | scripts/fetch_models.go:206-231 | an exploration visits every name the start steps to, over references, property keys and invented names |
| SchemaVisits.FollowingIsComplete | scripts/fetch_models.go:206-231 | and finds every model at the end of a reference path from the start |
| SchemaClosure.OneRound | scripts/fetch_models.go:212-228 | one pass of the loop on the two stacks, which stay in step, is one round of the worklist |
| SchemaClosure.FetchDependentModels | scripts/fetch_models.go:206-231 | terminates on every document whose items chains end, cyclic references included; the result is what a whole exploration from the start finds, each inline property visited under its own schema; it holds all models reachable by references, follows property keys as well, and is closed under references |
| SchemaTermination.SelfArrayNeverEnds | scripts/fetch_models.go:274-276 | on an array of itself, whatever its name, the stack is not empty after any number of rounds |
| SchemaTermination.EndlessChainNeverEmpties | scripts/fetch_models.go:206-286 | nor on any document, started on a model with an endless items chain, if no name of the document is that model's name followed by Items once or more |
| SchemaTermination.TerminatesIff | scripts/fetch_models.go:206-286 | on documents without such names the loop terminates for every model if and only if no items chain is endless |
| SchemaClosure.AppendNestedModels | scripts/fetch_models.go:152-160 | for every order of the definitions the list, tested while it grows, ends up closed under references, holds the whole exploration of every model in the input, and gains only what a chain of visits from a model in the input finds |
| SchemaClosure.RemoveDuplicates | scripts/fetch_models.go:162-174 | strictly ascending, with exactly the elements of the input |
| SchemaClosure.CollectModels | scripts/fetch_models.go:152-174 | what is saved is sorted, duplicate-free, contains the input and the whole exploration of each of its models, is closed under references, and holds nothing that no chain of visits from the input finds |
| SchemaClosure.LessIsLexicographic | scripts/fetch_models.go:172 | the order of the output is that of Go's strings: a proper prefix comes first, else the smaller character at the first difference decides |
| SchemaReach.TameResult | scripts/fetch_models.go:206-231 | on tame documents the worklist finds exactly what the names walked to from the start, over references and property keys, refer to |
| SchemaReach.ResultsAreReachableIff | scripts/fetch_models.go:206-231 | on tame documents the result for every start is exactly the models reachable from it by references, if and only if whatever a model called like a property of m refers to is reachable from m |
| SchemaReach.TameOutput | scripts/fetch_models.go:152-174 | on tame documents what is saved is exactly the input with what the names walked to from it refer to |
| SchemaReach.OutputsAreReachableIff | scripts/fetch_models.go:152-174 | on tame documents what is saved for each model is exactly the model with what is reachable from it, if and only if keys called like models lead to that as well |
| SchemaReach.HarmlessKeysSave | scripts/fetch_models.go:152-174 | and then it is so for every input list |
| SchemaReach.PlainResultIsReachable | scripts/fetch_models.go:206-231 | in particular where no key is a model's name the result is exactly the models reachable from the start |
| SchemaReach.PlainOutputIsReachable | scripts/fetch_models.go:152-174 | and what is saved is exactly the input with everything reachable from it |
| SchemaReach.DeepResult | scripts/fetch_models.go:206-286 | on documents where every name stands for one schema (a model for its definition, a key or invented name for the same schema wherever it occurs) the result is exactly what is referred to, at any depth of inline schemas, by the start or by a model so reached |
| SchemaReach.DeepOutput | scripts/fetch_models.go:152-174 | and what is saved is exactly the input with what is so reached from it |
| SchemaReach.NestedReferenceIsFollowed | scripts/fetch_models.go:233-256 | for instance a model whose one reference is a property of an inline property: exactly that reference is found |
| SchemaReach.UnrelatedModelIsFollowed | scripts/fetch_models.go:224-227 | in general not: a property called like an unrelated model brings in a name that is not reachable |
| Names.JoinIsInjective | vsa_config/netapp-cvo-deployment.py:337-385 | a list of dash-free parts can be read back from its dash-joined name |
| Names.NeedleStaysInOnePart | vsa_config/netapp-cvo-deployment.py:819-844 | a dash-free needle occurs in a dash-joined name exactly when it occurs on one side of the dash |
| ResourceNames.PartsReadBack | vsa_config/netapp-cvo-deployment.py:484-502 | each resource can be told from the parts of its name |
| ResourceNames.NamesAreDistinct | vsa_config/netapp-cvo-deployment.py:385-1414 | for every deployment name, dashes included, different resources have different names, among them the add actions that repeat the deployment name |
| DeploymentTheorems.ResourceNamesAreDistinct | vsa_config/netapp-cvo-deployment.py:326-1416 | no two resources of an emitted template share a name |
| DeploymentTheorems.ReferencesAreClosedAndAcyclic | vsa_config/netapp-cvo-deployment.py:326-1416 | every `$(ref...)`, interface address and dependsOn entry names a resource of the template, of lower rank, the shared list counted with everything appended after the first node was emitted |
| DeploymentMeaning.TemplateIsWhatIsWanted | vsa_config/netapp-cvo-deployment.py:484-1416 | the template has exactly the resources the configuration calls for, listed by kind: addresses per node, interface and role, disks per node and use, balancing for pairs, mediator and tenancy where not supplied, a policy where two machines share a zone |
| DeploymentMeaning.PolicySpreadsSharers | vsa_config/netapp-cvo-deployment.py:769-786 | the placement policy spreads exactly the machines that share their zone with another one |
| DeploymentMeaning.ReferencesAreExactly | vsa_config/netapp-cvo-deployment.py:876-1414 | in every template that is returned, one resource names another inside `$(ref...)` if and only if the other is there for it: the backend of a balancer and protocol for that rule alone, a health check for its balancer's backends, both groups for every backend, each disk for its node (the root copy for the partner), mediator disks for the mediator, the node template for node groups, the policy for the sharers of a zone, an instance for its own add action, and the addresses each node is told |
| DeploymentMeaning.NodesWaitFor | vsa_config/netapp-cvo-deployment.py:455-1251 | every node, and nothing else, has a dependsOn list, and on it are exactly the rules, the mediator and the node groups of the template |
| DeploymentMeaning.InterfacesAreExactly | vsa_config/netapp-cvo-deployment.py:575-1400 | each interface has its own subnet and takes exactly its own addresses, each rule the address of its balancer |
| DeploymentTheorems.NeedlesInAddressName | vsa_config/netapp-cvo-deployment.py:819-844 | a needle occurs in an address name exactly when it occurs in the deployment name or is the address's own interface |
| DeploymentTheorems.DispatchFindsOwnSlot | vsa_config/netapp-cvo-deployment.py:513-522 | one address goes to its own interface if and only if no needle tested earlier is in the deployment name |
| DeploymentTheorems.DispatchIsRightIff | vsa_config/netapp-cvo-deployment.py:819-844 | all addresses do if and only if the deployment name contains no needle tested before the last interface in use |
| DeploymentTheorems.AddressesLandOnTheirNic | vsa_config/netapp-cvo-deployment.py:686-844 | every address resource lies in the subnet of the interface or rule that takes it if and only if, for each interface in use, the first needle found in the deployment name or the interface stands for the same subnet as the interface |
| DeploymentTheorems.PlainNamesLand | vsa_config/netapp-cvo-deployment.py:686-844 | in particular under every deployment name without misleading needles |
| DeploymentMeaning.AddressesAreInTheirSubnets | vsa_config/netapp-cvo-deployment.py:817-854 | and there each address is in the one subnet it belongs to, those of balancers and mediator included |
| DeploymentMeaning.RegionIsBeforeLastDash | vsa_config/netapp-cvo-deployment.py:682 | the region of a zone is what stands before its last dash |
| DeploymentMeaning.ReturnsExactlyWhen | vsa_config/netapp-cvo-deployment.py:676-767 | a template is returned exactly if no shared disks are asked for, every machine's zone is in the region, a second node group to create comes with the first's template, and a pair with mediator in its name creates its mediator |
| DeploymentMeaning.NodeNamesAreSpelled | vsa_config/netapp-cvo-deployment.py:385-1063 | the names of nodes, node groups and disks, spelled out |
| DeploymentMeaning.AddressNamesAreSpelled | vsa_config/netapp-cvo-deployment.py:484-699 | the names of addresses |
| DeploymentMeaning.BackendNamesAreSpelled | vsa_config/netapp-cvo-deployment.py:876-907 | the names of backends, after the balancer's |
| DeploymentMeaning.RuleNamesAreSpelled | vsa_config/netapp-cvo-deployment.py:911-942 | the names of forwarding rules |
| DeploymentMeaning.BalancerNamesAreSpelled | vsa_config/netapp-cvo-deployment.py:704-872 | the names of balancer addresses and health checks |
| DeploymentMeaning.CommonNamesAreSpelled | vsa_config/netapp-cvo-deployment.py:740-1067 | the names of template, policy and mediator resources |
| DeploymentMeaning.GroupNamesAreSpelled | vsa_config/netapp-cvo-deployment.py:857-1414 | the names of instance groups, and of the add actions that repeat the deployment name |
| DeploymentGenerator.AddressSubnetIsDefined | vsa_config/netapp-cvo-deployment.py:819-844 | the subnet of an address is set when it is used, unless the deployment name contains mediator and no mediator is created |
| DeploymentGenerator.EmitAddresses | vsa_config/netapp-cvo-deployment.py:819-846 | the loop over the addresses emits one resource each, in order, with the subnet the specification gives for the if-chain, or fails where that subnet was never set |
| DeploymentGenerator.AttachDisks | vsa_config/netapp-cvo-deployment.py:562-566 | attaching disks slot by slot names all disks of the node, and fails exactly in the shared-disk branch |
| DeploymentGenerator.EmitNode | vsa_config/netapp-cvo-deployment.py:1133-1239 | emits the node with all its references and with the shared dependency list itself, not a copy |
| DeploymentGenerator.EmitSecond | vsa_config/netapp-cvo-deployment.py:1241-1414 | emits the second node and the add actions; its node group is appended to the list the first node already holds; fails exactly when that group's template was never named |
| DeploymentGenerator.GenerateConfig | vsa_config/netapp-cvo-deployment.py:326-1416 | returns if and only if the zones lie in the region, the deployment is not shared-disk, a supplied first node group comes with a second, and no subnet is read unset; then it returns the specified template. Single resources are built by the specification's own functions, so this is about order, the shared dependency list and every early stop; what the resources are and refer to is in DeploymentMeaning |
| RoundTripper.Prepare | clients/google-proxy-client/client.go:120-133 | each attempt sends the caller's body bytes and headers with exactly one more Authorization value, and the context's correlation ID only where the request has none |
| RoundTripper.Attempts | clients/google-proxy-client/client.go:88-173 | every response obtained is closed exactly once, except the one returned, which is open; one sleep fewer than attempts; the result is the first terminal outcome, else the last, or nothing on cancellation |
| RoundTripper.RoundTrip | clients/google-proxy-client/client.go:64-173 | the same for the whole call, with the request body read once, closed once, and replayed on every attempt |
| RoundTripper.ConclusionIsUnique | clients/google-proxy-client/client.go:88-173 | outcomes and cancellations determine the number of attempts and everything returned |
| RoundTripper.FirstFinalOutcomeIsReturned | clients/google-proxy-client/client.go:135-170 | a 204, a JSON reply with a status other than 403, 429, 500, 503 and 504, or an error that is not transient is returned at once, and nothing is sent after it |
| RoundTripper.OtherOutcomesAreTriedAgain | clients/google-proxy-client/client.go:135-168 | a reply with one of those five statuses, any other reply without JSON but a 204, and a transient error are never the last while attempts remain and nothing is cancelled |
| RoundTripper.CancellationEnds | clients/google-proxy-client/client.go:89-103 | a cancellation found before an attempt ends the call with the context's error and no response |
| RoundTripper.ExactlyOneIsReturned | clients/google-proxy-client/client.go:39-173 | exactly one of response and error is returned if and only if at least one attempt is allowed |
| Retrier.WrapOnce | utils/util.go:530-539 | the shift, product and sum, each wrapping in int64, are the exact delay wrapped once |
| Retrier.FirstOverflowIsNegative | utils/util.go:530-539 | the first delay that does not fit int64 always gives a negative wait |
| Retrier.BackoffIsSoundIff | utils/util.go:530-539 | in a run of 429s all waits are positive and at most 80 s, and all are the exact capped exponential delays, if and only if the exact delay of the last attempt fits int64 (the retry delay itself with its jitter fitting) |
| Retrier.QuotaWaitsAreSoundIff | utils/util.go:530-591 | the same for the waits the retry loop makes |
| Retrier.BackoffIsBounded | utils/util.go:530-539 | a delay that fits is waited exactly, capped at 80 s, and is positive |
| Retrier.BackoffCanOverflow | utils/util.go:535-537 | with a delay of 5 s the 31st backoff is negative: no wait at all |
| Retrier.WaitsAreCapped | utils/util.go:530-539 | any sequence of waits sleeps at most 80 s or the retry delay, whichever is longer, per wait |
| Retrier.RetrierOnCodes | utils/util.go:542-591 | at most maxRetries calls, one wait fewer than calls, each wait the backoff of the failure before it, stops at the first call that is not retried, returns the last call's result; the total sleep is bounded |
| Retrier.FirstFinalCallIsReturned | utils/util.go:552-591 | a success, a 429 over the quota limit, and a failure neither listed nor of the network end the retries with that very result |
| Retrier.OtherCallsAreRetried | utils/util.go:562-583 | listed codes and network errors are retried while attempts remain, a 429 over the quota limit excepted |
| Retrier.OtherWaitsArePlain | utils/util.go:531-539 | after a failure with any code but 429 the wait is the plain retry delay |
| Retrier.PlainRunSleeps | utils/util.go:542-550 | hence a run without a 429 sleeps exactly the retry delay for each wait |
| Retrier.QuotaWaitsDouble | utils/util.go:527-539 | after a 429 the wait is the delay doubled once per call so far with the jitter, or 80 s if that is shorter, as long as it fits int64 |
| Cidr.CoversIsPrefixCovers | utils/util.go:1649-1673 | containing every address is having a prefix no longer and in agreement (section 3.1 of RFC 4632) |
| Cidr.NormalReadsMapped | utils/util.go:1668-1670 | an address is read as IPv4 exactly when it is 80 zeros and 16 ones in front of one (section 2.5.5.2 of RFC 4291) |
| Cidr.EndsDecideContainment | utils/util.go:1668-1670 | the two-end-point test accepts if and only if the range contains every address of the subnet and the subnet's ends are of one family |
| Cidr.StraddlingBlocksAreRejected | utils/util.go:1668-1670 | a block whose ends are of two families is refused by every range, even by itself |
| Cidr.StraddlingBlocksExist | utils/util.go:1660-1663 | ::/80 is one |
| Cidr.SubnetCIDRInAnyRange | utils/util.go:1653-1673 | true if and only if the subnet parses, its ends are of one family, and some range that parses contains every address of it |
| SliceDiff.ContainsString | utils/util.go:203-210 | true if and only if some element, trimmed, is the wanted string |
| Text.TrimSpaceTakesSpace | utils/util.go:205 | trimming takes white space off both ends and nothing else, as far as there is any |
| SliceDiff.IsSliceEqual | utils/util.go:259-269 | true if and only if the lengths agree and every element of the first is a trimmed element of the second |
| SliceDiff.GetArrayDiff | utils/util.go:1049-1064 | both parts are exactly the unmatched items in order and with repetitions |
| SliceDiff.DiffReconcilesIff | utils/util.go:1049-1064 | applying the diff gives the new elements if and only if neither list has an element that the other has only with white space around it |
| SliceDiff.TrimmedDiffReconciles | utils/util.go:1049-1064 | on trimmed slices it always does, and the parts are the two set differences |
| SliceDiff.EqualIffNoDiff | utils/util.go:259-269 | on trimmed duplicate-free slices IsSliceEqual holds if and only if both parts are empty, by counting |
| SliceDiff.EqualityTestIsRightIff | utils/util.go:259-269 | for a trimmed first slice, passing the test means equal elements against every trimmed second slice if and only if the first has no duplicates |
| SliceDiff.DuplicatesFoolTheTest | utils/util.go:259-269 | for instance a,a against a,b |
| Password.ShuffleIsPermutation | utils/util.go:669-674 | whatever the random choices, the shuffle permutes |
| Password.ShuffleIsInjective | utils/util.go:669-674 | on distinct characters different choices give different results |
| Password.ShuffleIsSurjective | utils/util.go:669-674 | every permutation is the result of some choices, so uniform choices give uniform permutations |
| Password.Shuffle | utils/util.go:669-674 | the in-place loop computes the shuffle of its choices |
| Password.PolicySurvives | utils/util.go:654-655 | a policy on which characters occur survives a permutation |
| Password.GenerateStrongPassword | utils/util.go:630-658 | succeeds if and only if the length is at least 8 and the random source does not fail; the result has that length, only permitted characters, and a lower-case letter, an upper-case letter and a digit |
| Password.StrongIsAscii | utils/util.go:630-658 | in character codes: small letters, capitals and digits, all three and nothing else |
| ByteSizes.DecimalReadsBack | utils/bytefmt.go:24-81 | a printed number is digits only and reads back as itself |
| ByteSizes.DigitsAreDecimal | utils/bytefmt.go:24-81 | and conversely digits, leading zeros aside, are printed as they stand |
| ByteSizes.LargestUnitIsChosen | utils/bytefmt.go:24-81 | in figures: the unit is the largest decimal one that divides the number, else the largest binary one, else B |
| ByteSizes.ParseUintSizeToBytes | utils/bytefmt.go:116-153 | the scanning loop computes the parse, errors and their order included |
| ByteSizes.ParseIntSizeToBytes | utils/bytefmt.go:155-167 | the signed parse, with the two's-complement conversions and the errors of the unsigned one |
| ByteSizes.AcceptedSignedTexts | utils/bytefmt.go:155-167 | accepted are exactly the texts that, after one minus sign in front or none, the unsigned parser accepts; that first sign alone decides the sign of the value, in 64-bit arithmetic |
| ByteSizes.AcceptedTexts | utils/bytefmt.go:116-153 | accepted are exactly the texts that, trimmed, are an optional sign, a 64-bit number and a known unit in any letter case with optional space between, with the product in 64-bit arithmetic as result |
| ByteSizes.RefusedTexts | utils/bytefmt.go:116-153 | which error a refused text gets: nothing numeric in front, a number that cannot be read, or no known unit after it |
| ByteSizes.NoOtherUnits | utils/bytefmt.go:97-114 | B is one byte, and there is no unit but B and the prefixed ones |
| ByteSizes.PrefixedUnits | utils/bytefmt.go:88-114 | the prefixes K, M, G, T and P mean the first five powers of 1000 before B, and of 1024 before IB and I |
| ByteSizes.NumberNeedsUnit | utils/bytefmt.go:122-131 | a number without a unit is refused |
| ByteSizes.CaseDoesNotMatter | utils/bytefmt.go:137-147 | texts that differ in letter case only are read alike, refusals included |
| ByteSizes.UintRoundTrip | utils/bytefmt.go:53-81 | every uint64, printed, parses to itself |
| ByteSizes.IntRoundTrip | utils/bytefmt.go:24-51 | every int64, printed, parses to itself; the least value only because two wrap-arounds cancel |
| ByteSizes.MinusCountsOnlyInFront | utils/bytefmt.go:155-167 | an accepted text with a minus sign is read as negative if and only if the sign is the very first character, or negation does not change the size |

## Left out

- The clock: one monotone clock in microseconds shared by all clients; no skew, no truncation of MicroTime.
- Deleting the lease (`utils/kubernetes_lease.go`): excluded by assumption, since it would restart the fencing number.
- The TTL as a float: the number of whole seconds is modelled on integers, without the float conversion and without TTLs of 2^31 seconds and more.
- Validation by the Kubernetes API server, for example of durations; namespaces, the order of Namespace and Clientset options, loggers and contexts.
- The caller's retry of Lock with its waits (RetryWaitDuration, MaxLockAcquiringWait).
- Swagger parsing and files: definitions are a finite map, a reference is the last segment of its path, references into nowhere resolve to nothing (the parser refuses them).
- References nested inside inline objects: on every document the relation is exact (SchemaVisits.EmptyStackIsExplored), but where one key occurs with several schemas it does not say which of them is visited, which depends on the order of properties and definitions; without such keys nothing depends on it (SchemaReach.DeepResult).
- A definition that is itself a `$ref`, and references in `allOf`, `additionalProperties` and the like: the code does not look at them, and schemas here have properties and items only.
- TerminatesIff: on documents whose own names look like invented ones no condition is given, since whether an endless chain is walked then depends on which of the clashing names is visited first.
- EmitNode: the references in a node's custom data are listed once each, in the order of the first node's text; the text itself, labels, metadata entries, local SSDs, disk types and sizes, scheduling and projects are not part of this model.
- GenerateConfig: reading configuration objects is not modelled; empty strings stand for options that were not supplied, and every way of stopping early is one error.
- Attempts: error types and MIME parsing are flags of an outcome, sleeping is counted and not timed, errors of closing are logged only.
- RetrierOnCodes: every error is a CustomError, as the code's type assertion demands; quota and network errors are flags.
- SubnetCIDRInAnyRange: parsing a CIDR text and Go's test of one address are the net package's; they are modelled as documented there, on bit sequences.
- The quality of random numbers; the shuffle's random source does not fail (the code ignores that error).
- ParseUintSizeToBytes: texts are characters; letter case is folded in the ASCII range, so the few other letters that Go maps to ASCII capitals are not read as units.
- FmtUint64FlexGroupBytes: floating-point formatting.
- Generated code, workers, server start-up, configuration loading and Cloud API callers: plumbing.
