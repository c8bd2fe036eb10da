# Address lifecycle of LoadBalancer Services in the IPAM operator

The operator keeps three stores in step without a transaction: the committed Services with their
`ipam.vitistack.io/...` annotations, the remote IPAM lease register, and the MetalLB `IPAddressPool` of each zone.
Four admission hooks (`Default`, `ValidateCreate`, `ValidateUpdate`, `ValidateDelete`) change the stores call by call,
and each call can fail; the hooks compensate by hand. This project models the hooks, the pool functions and the calls
to the register, and proves what agreement between the stores survives every run, what each compensation restores, and
the exact condition wherever it does not restore everything.

`dafny verify dfyconfig.toml` checks everything.

## Layout

| file | content |
|---|---|
| Text.dfy | `Split`, substring tests, IP text, the four address normalisers |
| Lists.dfy | order-preserving differences: `PrefixSlicesDiff`, `removeAddressesHelper` |
| Services.dfy | annotation maps, defaulting, prepending, the `Service` object the hooks mutate |
| Ipam.dfy | the lease register as an oracle, `RequestIP`/`DeleteIP`, the four calls the hooks make |
| Pools.dfy | the cluster: Services, pools, secrets; adding, reference-counted removing, looking up |
| Mutation.dfy | `Default` and `reconcileAnnotationAddresses` |
| Validation.dfy | `ValidateCreate`, `ValidateUpdate`, `ValidateDelete`, `updateSecret` |
| Admission.dfy | admissions as steps over the stores, runs of steps |
| Operator.dfy | the run on the mutable stores with the invariants it keeps |
| MutationFacts.dfy | shape, fixpoint and atomicity of `Default` |
| Meanings.dfy | what the small functions compute, in the texts of the annotations |
| Acceptance.dfy | when the hooks accept, and whole admissions that are answered |
| LeaseFacts.dfy, LeaseCoverage.dfy | lease memberships, lease coverage over runs |
| PoolFacts.dfy, PoolCoverage.dfy, PoolRuns.dfy, PoolExact.dfy | pool contents, pool coverage and exact pools over runs |
| Rollback.dfy, UpdateRollback.dfy, Consequences.dfy | what rejections restore, secret rotation, deletion |
| Rejections.dfy | whole admissions that are rejected by either hook |
| SecretAgreement.dfy | agreement of leases and secrets over runs |
| LeaseExact.dfy | exact leases over runs |
| Limits.dfy | exact conditions for the assumptions of the runs |
| SmoothSteps.dfy, Witnesses.dfy | admissions that meet no Kubernetes failure; requests that break unconditional promises |

Code that changes things step by step is a method (on the classes `Service`, `IpamApi` and `Kube`, or a loop) proved
equal to a function of the old state; the theorems are about these functions and about runs of them.

## How the outside world is modelled

- Every IPAM call takes the next `Reply` from an arbitrary sequence: `Refused` (nothing happened), `Lost` (the API
  acted but the caller sees an error, as when the answer cannot be decoded), or `Done`. A request without an address
  gets a free address of the asked family, bare or with its prefix length; one with an address joins a lease held under
  the same secret or a free slot; one with a new secret swaps the secret; a deletion drops only the caller's membership
  and frees the address with the last member. `Tally` counts the calls sent and the failures, so that "the deletions
  were delivered" is the statement that a counter did not move.
- Every Kubernetes call takes the next truth value from a second arbitrary sequence; a failed call has no effect.
- Admission and commit are one serial step, and the Service list read while a pool is reduced still shows the Service
  as it was before the admission. The values of the secrets do not change during a run.
- An address is its text: leases and pool entries are keyed by the prefixed text. Two spellings of one IPv6 address
  (`2001:DB8::1`, `2001:db8::1`) count as two addresses, so the theorems assume that users and the API spell each
  address in one way. Where the API canonicalises, an update from one spelling to the other would validate and then
  release the same lease.

## Assumptions of the run theorems

- Upgrade: a Service that an update turns into a load balancer carries no address text yet (`CleanUpgrade`). Without
  it the new Service is covered iff it already holds, in the new zone, each address it shares with its old list
  (`UpgradeCovered`), and the pools still cover iff those addresses are pooled there already and no removed text takes
  away an entry needed in the old zone (`UpgradePools`). A removed text does so when load balancers mention it exactly
  once and the mention, or the upgraded Service itself, is of that zone.
- Lease coverage: re-registrations sent after a failed deletion succeed.
- Pool coverage: the pool addition of an accepted update succeeds; its error is only logged
  (`service_webhook_validate_update.go:160-162`). `FailedAddition` gives the exact condition.
- Exact pools: in an update or deletion that commits no Kubernetes call fails (`CleanCommit`). Calls may fail in
  creations and in whatever ends in a rejection. The pools then stay exact iff the commit leaves no stray entry
  (`StrayFree`): each text the Service gives up and another load balancer lists is listed by one of the same zone, and
  when the Service stops being a load balancer so is each text it keeps or adds (`DowngradeTight`).
- Secrets (`SoundRotation`): an accepted rotation has equal values or reaches no address that another load balancer of
  the zone lists, which is exact by `RotationAgrees`. A failed one is undone (`Settles`): no answer is lost, and it fails
  at the first address, or at the second with a revert that is sent and answered, or the values are equal. With
  different values a failure at the third address, which takes an object that stops being a load balancer and repeats
  an address, is never undone.
  `SecretsRun` then gives the agreement that `UpdateSecretsAgree`, `RemovedReleased` and `DeleteOutcome` start from.
- Exact leases: besides, no answer is lost and deletions, re-registrations and reverts are delivered (`Delivered`). The
  leases then stay exact iff the step leaves nothing behind (`NothingLeft`): a rejection gives everything back, and a
  commit neither drops an address under stored annotations that do not parse nor makes another type of a load balancer.

## What is accepted

`CreateVerdict`, `UpdateAcceptance`, `LeasesVerdict` and `DeleteVerdict` say call by call when a hook accepts. Where every
call is answered, a creation commits iff the completed annotations reconcile and parse, their secret exists, the API
hands out a free address for each family asked for and the user's addresses are free or held under the secret
(`CreationCommits`); so does an update that makes a load balancer of a Service without addresses, if the stored one's
secret exists too (`UpgradeCommits`); `UpdateCommitsIff` treats the other updates to a load balancer. A deletion commits iff
the secret exists (`DeletionCommits`).

## What turned out to be conditional

The equivalences about rejections assume that no answer is lost, that the deletions are delivered and that the revert of a
rotation is answered if it is sent; a lost answer leaves the caller wrong about what the API did, whatever it sends next.

- An object rejected by the mutating hook leaves the register as it was iff no IPv4 reply carried a prefix length: the
  dual-stack compensation works iff the API answered with the bare address.
- A creation rejected at its addresses restores the register iff the refused address is one the user supplied and the
  Service held none of the addresses before it. A refused fresh address, a lookup that fails after the mutating hook has
  leased something (`FailedLookupLeaks`), and a failed pool addition (`FailedPoolLeaks`) leave leases behind.
- An update rejected at its addresses releases `newPrefixes[0]` only: it restores the register iff the mutating hook
  leased no other address, the Service did not hold that one before, and it held every other one that was validated.
  Two fresh addresses with one refused leave the second leased (`SecondFreshLeaks`); a first new address held from before
  is given up (`HeldFirstLost`). The rollbacks at index 0 and 1 are written for two addresses, one per family; an object
  that stops being a load balancer is not looked at by the mutating hook and may list more (`DowngradeLeaks`).
- A rejected zone change restores the register iff no freshly leased text equals a text of the old list, since such a
  text counts as kept and nothing is released, and the first new address was not held before.
- A rotation that fails is undone iff it fails at the first address, or at the second while the stored annotations
  parse, or the two values are equal. The revert is sent with the stored annotations, which can be unparsable because an
  update that only rewrites such an annotation is accepted without a call, whatever the text (`UnparsableAccepted`,
  `RevertNotSent`). At the third address there is no revert (`RepeatedAddressRotates`).
- A committed change from a load balancer to another type leases and pools the new addresses of a Service that nobody
  serves, and releases nothing that is kept (`DowngradeLeaves`).
- Of two Services that share a lease, one changing its secret leaves the other's secret annotation behind
  (`SharedLeaseBreaks`).
- A rejected deletion leaves the Service covered iff every address that was not registered again is still held
  (`DeleteStillCovered`, `FailedReregistration`).
- A comparison of wrapped errors with `IpamApiErrorMsgAddressNotFound`
  (`service_webhook_validate_update.go:150`, `service_webhook_validate_delete.go:88`) only selects a log text.

## Model

| member | source | states |
|---|---|---|
| Text.JoinSplit | internal/webhook/v1/service_webhook_validate_update.go:92-93 | joining the split parts of any text gives the text back |
| Text.SplitJoin | internal/webhook/v1/service_webhook_validate_create.go:80 | splitting a joined non-empty list of separator-free texts gives the list back |
| Text.SplitPrepend | internal/utils/annotations.go:46-50 | a text put in front with a comma becomes exactly one new first element of the split list |
| Text.NormalisersAgree | internal/utils/ip-pool.go:20-31 | on bare addresses the add loop, the request rewriting, the remove loop and the verify loop compute the same prefixed text |
| Text.PrefixedInjective | internal/utils/ip-pool.go:183-188 | two texts with the same prefixed form are the same |
| Text.GuardedFormsIdempotent | internal/utils/ipam-api.go:33-44 | the substring-guarded forms leave their own output alone |
| Meanings.ContainsRead | internal/utils/ip-pool.go:21-28 | a text contains another iff it occurs from some position on |
| Meanings.DropSpacesRead | internal/webhook/v1/service_webhook_mutation.go:142 | replacing spaces filters them out |
| Meanings.TrimRead | internal/utils/ip-pool.go:122 | trimming takes spaces off both ends and nothing else |
| Meanings.DefaultsRead | internal/utils/annotations.go:11-42 | each of the seven keys keeps its text or gets its literal default, the MetalLB keys mirror, no other key changes |
| Meanings.StoredRead | internal/webhook/v1/service_webhook_validate_update.go:56-64 | the annotations an upgrade compares with are the stored ones, each missing key with its literal default |
| Meanings.IpamKeys | internal/utils/annotations.go:77-85 | a named key is an IPAM annotation iff its text starts with the prefix |
| Meanings.ReconcilableRead | internal/webhook/v1/reconile_annotation_addresses.go:11-43 | empty text or valid addresses with at most one of each kind, and one of the three family texts |
| Meanings.IntegersParse | internal/webhook/v1/get_address_ipam-api.go:17 | every text of one to eighteen digits parses, signed or not |
| Meanings.IntegerRange | internal/webhook/v1/get_address_ipam-api.go:17 | digits parse iff their value fits 64 bits |
| Meanings.TruthValuesParse | internal/webhook/v1/get_address_ipam-api.go:24 | the twelve truth texts parse |
| Meanings.RequestStates | internal/utils/ipam-api.go:33-44 | a request states its address's own family and host prefix and carries name, secrets and zone |
| Meanings.MentionsAppend | internal/utils/ip-pool.go:173-181 | the count of a text is the number of its occurrences over the LoadBalancer Services |
| Meanings.AdditionOrder | internal/utils/ip-pool.go:58-67 | the missing forms go behind the pool in the order of the addresses |
| Lists.PrefixSlicesDiff | internal/utils/prefixSlicesDiff.go:7-34 | the three loops compute the order-preserving new, kept and removed lists |
| Lists.DiffPartitions | internal/utils/prefixSlicesDiff.go:10-23 | new and kept addresses split the new list as multisets |
| Lists.DiffKeepsOrder | internal/utils/prefixSlicesDiff.go:10-23 | new and kept addresses are subsequences of the new list |
| Lists.DiffReconstructs | internal/utils/prefixSlicesDiff.go:25-31 | removed addresses are not in the new list, and old minus removed plus new has the new list's elements |
| Lists.RemoveAddressesHelper | internal/utils/ip-pool.go:217-229 | the map-backed loop keeps the other entries in order |
| Services.Service.SetDefaultIpamAnnotations | internal/utils/annotations.go:11-42 | missing keys get their defaults, given ones stay, the MetalLB keys mirror |
| Services.Service.UpdateAddressAnnotation | internal/utils/annotations.go:44-55 | the bare part of the reply is put in front of the text and mirrored |
| Services.FilterMapByPrefix | internal/utils/annotations.go:77-85 | exactly the IPAM annotations are kept |
| Services.AddressPrepended | internal/utils/annotations.go:44-54 | one fresh address in front of the list, also for the empty text; other annotations unchanged |
| Ipam.IpamApi.RequestIP | internal/utils/ipam-api.go:23-86 | rewrites address and family, then the register answers or fails |
| Ipam.IpamApi.DeleteIP | internal/utils/ipam-api.go:88-151 | rewrites address and family, then the register drops the membership or fails |
| Ipam.RewriteValid | internal/utils/ipam-api.go:33-44 | for a valid address the rewriting adds the prefix length and keeps the family the caller determined |
| Ipam.IpamApi.GetAddressIpamAPI | internal/webhook/v1/get_address_ipam-api.go:13-51 | asks for an address unless an annotation does not parse |
| Ipam.IpamApi.UpdateAddressIpamAPI | internal/webhook/v1/update_address_ipam-api.go:13-61 | validates or leases an address; refuses locally on bad annotations or address text |
| Ipam.IpamApi.RemoveAddressIpamAPI | internal/webhook/v1/remove_address_ipam-api.go:13-61 | releases an address; refuses locally on bad annotations or address text |
| Ipam.IpamApi.UpdateSecretIpamAPI | internal/webhook/v1/update_secret.go:34-83 | swaps the secret of an address's lease; refuses locally on bad annotations or address text |
| Pools.Kube.GetSecret | internal/webhook/v1/get_secret.go:11-28 | the shared default secret or the namespace's own |
| Pools.Kube.AddIpAddressesToPool | internal/utils/ip-pool.go:17-74 | overwrites the caller's slice with prefixed forms, creates the pool or appends what it lacks |
| Pools.Kube.RemoveIPAddressesFromPool | internal/utils/ip-pool.go:139-214 | takes the unused forms out, deletes the pool when nothing is left |
| Pools.Kube.NotInUse | internal/utils/ip-pool.go:170-191 | the forms of the requested addresses with exactly one LoadBalancer mention |
| Pools.Kube.CountMentions | internal/utils/ip-pool.go:173-181 | counts the mentions of a text over the LoadBalancer Services |
| Pools.Kube.VerifyIpAddressPool | internal/utils/ip-pool.go:90-105 | whether the pool can be read |
| Pools.Kube.VerifyIpAddressesInPool | internal/utils/ip-pool.go:107-137 | whether some address of the Service is pooled |
| Mutation.ReconcileAnnotationAddresses | internal/webhook/v1/reconile_annotation_addresses.go:11-64 | accepts iff the annotations reconcile (`ReconcilableRead` says when); then dual gets RequireDualStack, the others SingleStack, and ClusterIP is cleared |
| Mutation.Default | internal/webhook/v1/service_webhook_mutation.go:32-148 | object, cluster and register after the mutating hook |
| Mutation.RequestMissing | internal/webhook/v1/service_webhook_mutation.go:114-145 | leases the missing families, gives a fresh IPv4 address back when IPv6 fails |
| MutationFacts.ValidListShape | internal/webhook/v1/reconile_annotation_addresses.go:22-38 | a reconciled list has at most two addresses, distinct, of different families |
| MutationFacts.FinalSpaces | internal/webhook/v1/service_webhook_mutation.go:142 | on a valid list the final space removal changes nothing |
| MutationFacts.MutateShape | internal/webhook/v1/service_webhook_mutation.go:93-145 | after success, for any annotations: valid list of fresh then user addresses, an address of each kind that ipv4, ipv6 or dual asks for, policy of the family, MetalLB annotations mirrored, exactly the fresh slots granted |
| MutationFacts.FamiliesLeased | internal/webhook/v1/service_webhook_mutation.go:114-139 | an IPv4 address is leased iff none is listed and the family is ipv4 or dual, an IPv6 one iff none is listed and it is ipv6 or dual |
| MutationFacts.MutateFixpoint | internal/webhook/v1/service_webhook_mutation.go:32-148 | run on its own output the hook sends nothing and changes nothing |
| MutationFacts.DualStackAtomic | internal/webhook/v1/service_webhook_mutation.go:127-137 | after a failed IPv6 lease the register is restored iff the IPv4 reply was bare |
| Validation.ValidateAddresses | internal/webhook/v1/service_webhook_validate_create.go:84-92 | validates from left to right up to the first failure |
| Validation.ReleaseAddresses | internal/webhook/v1/service_webhook_validate_create.go:95-99 | releases every address whatever the calls report |
| Validation.ValidateCreate | internal/webhook/v1/service_webhook_validate_create.go:31-111 | verdict, cluster and register after the hook |
| Validation.UpdateSecret | internal/webhook/v1/update_secret.go:13-32 | rotates kept addresses when the secret's name changes, reverts at index 1 |
| Validation.ValidateUpdate | internal/webhook/v1/service_webhook_validate_update.go:33-178 | verdict, cluster and register after the hook, old annotations defaulted in place |
| Validation.ChangeLeases | internal/webhook/v1/service_webhook_validate_update.go:112-155 | zone guard, validation, rotation, releases and the three rollbacks |
| Validation.ChangePools | internal/webhook/v1/service_webhook_validate_update.go:157-173 | addition to the new pool, removal from the old one |
| Validation.ValidateDelete | internal/webhook/v1/service_webhook_validate_delete.go:31-114 | verdict, cluster and register after the hook |
| Acceptance.LeasingAnswered | internal/webhook/v1/service_webhook_mutation.go:114-145 | leasing succeeds iff the annotations parse and every family asked for is handed a free address |
| Acceptance.ValidationAnswered | internal/webhook/v1/service_webhook_validate_create.go:84-92 | every address passes iff the annotations parse, each is valid and free or held under the secret |
| Acceptance.KeptAnswered | internal/webhook/v1/update_secret.go:15-29 | every kept address is rotated iff the annotations parse and each is held under the old secret |
| Acceptance.ReleasedEach | internal/webhook/v1/service_webhook_validate_delete.go:85-93 | a release that is answered ends the membership whatever becomes of the others |
| Acceptance.CreateVerdict | internal/webhook/v1/service_webhook_validate_create.go:39-110 | accepted iff nothing to do, or lookups, addresses and pool addition succeed; then every address is in the zone's pool |
| Acceptance.LeasesVerdict | internal/webhook/v1/service_webhook_validate_update.go:112-143 | accepted iff no address is kept across zones, the new ones pass and the kept ones are rotated if the secret's name changes |
| Acceptance.UpdateAcceptance | internal/webhook/v1/service_webhook_validate_update.go:38-143 | accepted iff nothing to do, or the lookups succeed and no IPAM annotation changes or the IPAM side accepts |
| Acceptance.DeleteVerdict | internal/webhook/v1/service_webhook_validate_delete.go:31-114 | accepted iff nothing to do, or the lookups succeed and nothing is pooled or the removal succeeds |
| Acceptance.UnpooledDeletion | internal/webhook/v1/service_webhook_validate_delete.go:107-113 | without a pooled address, or with an unreadable pool, a deletion is accepted and leaves the pools alone |
| Acceptance.UnpooledReleases | internal/webhook/v1/service_webhook_validate_delete.go:85-113 | such a deletion, its releases delivered, drops exactly the Service's memberships |
| Acceptance.CreationCommits | internal/webhook/v1/service_webhook_validate_create.go:31-111 | every call answered, a creation commits iff the object is admissible, and is then leased and pooled |
| Acceptance.UpdateCommitsIff | internal/webhook/v1/service_webhook_validate_update.go:33-178 | every call answered: exactly when an update to a load balancer commits |
| Acceptance.UpgradeCommits | internal/webhook/v1/service_webhook_validate_update.go:56-64 | every call answered, a Service without addresses becomes a load balancer iff the object is admissible and the stored one's secret, by default "default", exists; it is then leased and pooled |
| Acceptance.DeletionCommits | internal/webhook/v1/service_webhook_validate_delete.go:31-114 | the cluster answering, a deletion commits iff the secret exists, pooled or not |
| Admission.StepServices | internal/webhook/v1/service_webhook.go:53-79 | an admission commits at most one Service change |
| Admission.Admit | internal/webhook/v1/service_webhook.go:32-37 | one admission on the mutable stores |
| Operator.Serve | internal/webhook/v1/service_webhook.go:32-37 | after any run leases and pools cover the committed Services |
| Operator.ServeExactly | internal/webhook/v1/service_webhook.go:32-37 | from an empty cluster pools are exact after any run whose commits are clean |
| Operator.ServeAgreeing | internal/webhook/v1/service_webhook.go:32-37 | after any run with sound rotations the leases are under the values of the committed Services' secrets |
| Operator.ServeLeases | internal/webhook/v1/service_webhook.go:32-37 | from an empty cluster and register the leases are exact after any run that leaves nothing behind |
| LeaseFacts.LeasingKeeps | internal/webhook/v1/service_webhook_mutation.go:118-139 | leasing and its compensation cost no Service a lease it held |
| LeaseFacts.ValidatedLeased | internal/webhook/v1/service_webhook_validate_create.go:84-92 | when every address passes, the Service holds them all |
| LeaseFacts.UpdateLeasesKeeps | internal/webhook/v1/service_webhook_validate_update.go:112-155 | an update loses at most the removed addresses in the old zone if accepted, the new ones in the new zone if rejected |
| LeaseCoverage.StepTouchesOnlyTarget | internal/webhook/v1/service_webhook_validate_delete.go:85-105 | no admission changes another Service's membership |
| LeaseCoverage.LeasesCoverStep | internal/webhook/v1/service_webhook_validate_update.go:113-155 | one admission keeps lease coverage under any pattern of IPAM failures |
| LeaseCoverage.LeasesCoverRun | internal/webhook/v1/service_webhook_validate_create.go:84-101 | lease coverage in every state of every run |
| PoolFacts.RemovalExact | internal/utils/ip-pool.go:162-208 | removal keeps exactly the entries that are not orphaned, in order; the pool is deleted iff all are |
| PoolFacts.RemovalSafe | internal/utils/ip-pool.go:170-191 | removing one Service's addresses never drops one another LoadBalancer Service lists |
| PoolFacts.AdditionExact | internal/utils/ip-pool.go:41-74 | addition is set union at the end of the pool and keeps it duplicate-free |
| Acceptance.AdditionSucceeds | internal/utils/ip-pool.go:41-74 | an addition succeeds iff its write does and, where the zone has a pool, the read |
| PoolFacts.AddThenRemove | internal/utils/ip-pool.go:41-74 | adding new addresses and removing them again gives every pool back, and deletes one the addition had created |
| PoolCoverage.UpdatePoolsExact | internal/webhook/v1/service_webhook_validate_update.go:157-173 | what the pool side of an update adds and removes, for every zone and entry |
| PoolRuns.PoolsCoverStep | internal/webhook/v1/service_webhook_validate_update.go:157-173 | one admission keeps pool coverage |
| PoolRuns.PoolsCoverRun | internal/utils/ip-pool.go:17-74 | every address of every committed load balancer is pooled, in every state of every run |
| PoolExact.PoolExists | internal/utils/ip-pool.go:196-203 | in an exact state a pool exists iff a load balancer uses the zone |
| PoolExact.DeleteTight | internal/utils/ip-pool.go:170-191 | a removal leaves exact pools iff every text shared with another load balancer is shared with one of its zone |
| PoolExact.PlannedUpdateTight | internal/webhook/v1/service_webhook_validate_update.go:157-173 | the pool side of an update leaves exact pools iff no text given up strays |
| PoolExact.DowngradeTight | internal/webhook/v1/service_webhook_validate_update.go:84-173 | an accepted change to another type leaves exact pools iff what is given up does not stray and each kept or added text is listed beside the Service in its zone |
| PoolExact.PoolsExactStep | internal/utils/ip-pool.go:170-212 | one admission keeps pools exact, whatever fails before a commit, iff the commit leaves no stray entry |
| PoolExact.PoolsExactRun | internal/utils/ip-pool.go:41-69 | pools hold exactly the needed entries, each once, in every state of every run |
| PoolExact.PoolsExactIff | internal/utils/ip-pool.go:162-208 | along a run the pools are exact in every state iff no commit leaves a stray entry |
| PoolExact.DisjointExactRun | internal/utils/ip-pool.go:173-181 | a run through states in which no address text is listed in two zones keeps pools exact |
| Rollback.CreateRollback | internal/webhook/v1/service_webhook_validate_create.go:84-101 | releasing the validated prefix restores the register iff it holds every fresh address and none held before |
| Rollback.CreateRejection | internal/webhook/v1/service_webhook_validate_create.go:55-106 | every rejected creation: exactly when the register is back to what it was |
| UpdateRollback.RotateAll | internal/webhook/v1/update_secret.go:16-28 | a rotation that goes through rekeys every kept address and nothing else |
| UpdateRollback.RotatePrefix | internal/webhook/v1/update_secret.go:16-28 | the rotated addresses, and only they, have changed their secret when a rotation ends |
| UpdateRollback.RotationAtomic | internal/webhook/v1/update_secret.go:18-27 | a failed rotation changes nothing iff none was rotated, or just one and the revert can be sent, or the values agree |
| UpdateRollback.EarlyRejection | internal/webhook/v1/service_webhook_validate_update.go:113-133 | releasing the first new address restores the register iff no other is fresh, that one was not held before and the other validated ones were |
| UpdateRollback.RotationRejection | internal/webhook/v1/service_webhook_validate_update.go:136-143 | after a failed rotation the register is restored iff every fresh address is a new one, no new one was held before and the rotation is undone |
| UpdateRollback.UpdateRejection | internal/webhook/v1/service_webhook_validate_update.go:66-143 | every rejected update, of whatever type and list: exactly when the register is back to what it was before the mutating hook |
| Consequences.KeptAddressKeepsZone | internal/webhook/v1/service_webhook_validate_update.go:113-121 | every accepted update that keeps an address keeps the zone |
| Consequences.ZoneChangeRejected | internal/webhook/v1/service_webhook_validate_update.go:113-121 | a zone change that keeps an address is rejected; leases restored iff no fresh text is an old one and the first new address was not held before |
| Consequences.RefusedAddress | internal/webhook/v1/service_webhook_validate_update.go:124-133 | a refused new address: leases restored iff at most one was fresh, the first new one was not held before and the other validated ones were; a load balancer's always were |
| Consequences.UpdateSecretsAgree | internal/webhook/v1/service_webhook_validate_update.go:135-143 | an accepted update leaves every address under the new Service's secret |
| Consequences.RemovedReleased | internal/webhook/v1/service_webhook_validate_update.go:145-155 | a removed address is still held iff the stored annotations do not parse |
| Consequences.DeleteOutcome | internal/webhook/v1/service_webhook_validate_delete.go:84-105 | accepted: dropped from exactly its leases; rejected: register as it was |
| Consequences.DeleteStillCovered | internal/webhook/v1/service_webhook_validate_delete.go:96-105 | a rejected deletion leaves the Service covered iff every address not registered again is still held |
| Rejections.MutateRejection | internal/webhook/v1/service_webhook_mutation.go:114-139 | an object rejected by the mutating hook leaves the register as it was iff no IPv4 reply carried a prefix length |
| Rejections.RejectedCreation | internal/webhook/v1/service_webhook_validate_create.go:31-111 | a creation rejected by either hook: exactly when the register is back |
| Rejections.RejectedUpdate | internal/webhook/v1/service_webhook_validate_update.go:33-178 | an update rejected by either hook: exactly when the register is back |
| Rejections.RejectedDeletion | internal/webhook/v1/service_webhook_validate_delete.go:96-105 | a rejected deletion whose calls are answered gives everything back |
| SecretAgreement.CreateAgrees | internal/webhook/v1/service_webhook_validate_create.go:84-101 | an accepted creation leaves every address under the value of the Service's secret and moves nobody else's |
| SecretAgreement.DeleteAgrees | internal/webhook/v1/service_webhook_validate_delete.go:84-105 | a deletion moves nobody else's secret; rejected, it leaves its own addresses under its secret |
| SecretAgreement.RotationAgrees | internal/webhook/v1/update_secret.go:15-29 | after an accepted rotation another Service still agrees iff it lists no kept address of the zone or the values are equal |
| SecretAgreement.RejectedSteady | internal/webhook/v1/service_webhook_validate_update.go:112-143 | a rejected update moves nobody else's secret and nothing outside its new addresses |
| SecretAgreement.SecretsStep | internal/webhook/v1/service_webhook_validate_update.go:135-143 | one admission keeps every load balancer's leases under the value of its secret |
| SecretAgreement.SecretsRun | internal/webhook/v1/update_secret.go:13-32 | the same in every state of every run |
| LeaseExact.ExactDetermined | internal/webhook/v1/service_webhook_validate_create.go:84-92 | exact leases under agreeing secrets are determined by the committed Services |
| LeaseExact.DowngradeHolds | internal/webhook/v1/service_webhook_validate_update.go:135-155 | a load balancer that an accepted update makes another type of keeps a lease |
| LeaseExact.LeasesExactStep | internal/webhook/v1/service_webhook_validate_update.go:112-155 | one admission, accepted or rejected, keeps the leases exactly those that are listed iff it leaves nothing behind |
| LeaseExact.LeasesExactIff | internal/webhook/v1/service_webhook.go:32-37 | along a run whose calls are answered the leases are exact in every state iff no step leaves one behind |
| Limits.UpgradeCovered | internal/webhook/v1/service_webhook_validate_update.go:56-64 | an upgraded Service is covered iff it already holds the addresses it shares with its old list |
| Limits.UpgradePools | internal/webhook/v1/service_webhook_validate_update.go:157-173 | after an upgrade pools cover iff the shared addresses are pooled already and no removed text takes a needed entry away |
| Limits.FailedAddition | internal/webhook/v1/service_webhook_validate_update.go:160-162 | after a failed pool addition the Service is pooled iff its new addresses already were |
| SmoothSteps.UnparsableAccepted | internal/webhook/v1/service_webhook_validate_update.go:84-121 | an update that rewrites only a parsed annotation, to any text, is committed without a call |
| Witnesses.SuffixedReplyLeaks | internal/webhook/v1/remove_address_ipam-api.go:29-37 | a creation whose IPv4 reply carries "/32" keeps that lease after a refused IPv6 request |
| Witnesses.RefusedFreshLeaks | internal/webhook/v1/service_webhook_validate_create.go:94-100 | a creation whose fresh address is refused keeps its lease |
| Witnesses.SecondFreshLeaks | internal/webhook/v1/service_webhook_validate_update.go:128 | of two fresh addresses with the first refused the second stays leased |
| Witnesses.FreshOldTextLeaks | internal/webhook/v1/service_webhook_validate_update.go:114-118 | a fresh address with an old text is not released by the zone guard |
| Witnesses.SampleLeak | internal/webhook/v1/service_webhook_validate_update.go:128 | the same with four addresses written out |
| Witnesses.HeldFirstLost | internal/webhook/v1/service_webhook_validate_update.go:128 | a rejection gives up a first new address held from before |
| Witnesses.DowngradeLeaks | internal/webhook/v1/service_webhook_validate_update.go:124-133 | a change of the type with three new addresses leaves the second leased |
| Witnesses.RepeatedAddressRotates | internal/webhook/v1/update_secret.go:16-28 | a change of the type with a repeated address leaves two leases rotated |
| Witnesses.DowngradeLeaves | internal/webhook/v1/service_webhook_validate_update.go:157-163 | a committed change of the type leases and pools an address of a Service nobody serves |
| Witnesses.RevertNotSent | internal/webhook/v1/update_secret.go:20-25 | two requests that leave a rotation half done |
| Witnesses.UpgradeUnleased | internal/webhook/v1/service_webhook_validate_update.go:56-64 | an upgrade with unchanged addresses is committed without a call, and nothing is leased |
| Witnesses.UpgradeDropsAnothersAddress | internal/utils/ip-pool.go:162-168 | an upgrade takes another Service's address out of the pool |
| Witnesses.SharedTextStaysBehind | internal/utils/ip-pool.go:173-181 | with a text in two zones a deletion leaves a stale pool entry |
| Witnesses.SharedLeaseBreaks | internal/webhook/v1/update_secret.go:15-18 | a rotation leaves a Service that shares the lease with the old value |
| Witnesses.FailedLookupLeaks | internal/webhook/v1/service_webhook_validate_create.go:55-77 | a failed lookup leaves what the mutating hook leased |
| Witnesses.FailedPoolLeaks | internal/webhook/v1/service_webhook_validate_create.go:103-106 | a failed pool addition leaves a rejected creation's addresses leased |
| Witnesses.FailedAdditionCommits | internal/webhook/v1/service_webhook_validate_update.go:160-162 | a failed pool addition of an update commits an address that no pool holds |
| Witnesses.FailedReregistration | internal/webhook/v1/service_webhook_validate_delete.go:96-105 | a rejected deletion loses the lease of the Service that stays |

## Left out

- IsIPv4, IsIPv6: `net.ParseIP` is replaced by a test on characters that also accepts malformed texts, so the theorems
  cover more texts; IPv4-mapped addresses and IPv6 text with an embedded dotted quad are excluded, the normalisers
  disagree on them.
- PostEffect, DeleteEffect: the IPAM API is not part of the repository; retention and external cleanup are carried as
  data and an address is free once its last member is gone. Hand-out of other prefix lengths than /32 and /128 is excluded.
- Call: a failed Kubernetes call is taken to have had no effect; resource versions, caching and concurrent admissions
  are not modelled.
- Pools.Kube.GetSecret: the creation of a missing default secret and the checks of a custom secret's type and key are
  dropped; a missing secret is an error and a present one has a value.
- SpecChecks: the dry run of the object, the MetalLB check, the cluster and namespace lookups and the
  annotation validator are each an arbitrary early reject, consecutive ones folded into one call; random text is
  given.
- HTTP, JSON and environment handling, logging, sleeps, the failure policy of the webhooks, TLS, metrics, charts.
- `EqualSlice`, `GetIpAddressesInPool`: not used by the hooks.
