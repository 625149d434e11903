# Lockler subgraph: the event handlers of `src/mapping.ts`

The Lockler subgraph indexes Safe multisig wallets and the Reality modules
attached to them. For each decoded chain event a handler loads an entity from
the store, changes it and saves it back. The store holds three kinds of
entity, each keyed by the lower-case hex string of an address:

- `Safe`: nonce, threshold, owners, modules and creation data;
- `Lockler`: a copy of its Safe's owners and threshold, plus a transaction
  count and the address that created it;
- `RealityModule`: a link to its Lockler, plus owner, avatar, target and an
  optional question text.

Two handlers also register addresses with a data-source template, so that
later events from those addresses reach the handlers.

The Dafny project has these parts:

- `Hex.dfy` (module `Hex`): addresses, and `toHexString` as the entity key. The
  key is proved injective, so keying by the hex string never merges two
  addresses.
- `Schema.dfy`, `Events.dfy`: the entities, and one event record per handler
  with the fields the handler reads. A tagged union `Event` covers all of them.
- `Owners.dfy` (module `Owners`): the owner filter that `handleRemovedOwner`
  runs, specified as `Without`, with its properties: the multiset of
  survivors, the order of survivors, idempotence, and add-then-remove.
- `Reconstruction.dfy` (module `Reconstruction`): the store as a value `State`,
  one function per handler, `Apply` (dispatch on the event kind), `Replay` (a
  stream of events), and the store's invariants. The invariants are: Safe and
  Lockler exist together, with equal owners and threshold, and with the nonce
  equal to the transaction count. Every Lockler points at its own id, and every
  module points at an existing Lockler. Every Safe and every enabled module is
  watched.
- `Properties.dfy` (module `Properties`): one lemma per handler stating its
  effect, its frame and that it keeps the invariants; lemmas over event
  streams; a per-wallet reference history; and scenarios.
- `Mapping.dfy` (module `Mapping`): class `Subgraph`, whose fields are the
  store's maps and the set of watched addresses. It has one method per
  handler, written as load, change and save, including the index loop of
  `handleRemovedOwner`. Each method is proved equal to its `Reconstruction`
  function, and to keep the invariants.

Behaviour as the code has it:

- `handleAddedOwner` appends the owner without checking for duplicates.
- `handleEnabledModule` and `handleRealityModuleSetup` do nothing when the
  Safe or Lockler is missing. No placeholder entity is ever created.
  `ModuleEnabledBeforeDeployment` and `ModuleSetupBeforeDeployment` show that
  such events are lost for good.
- `handleProxyCreation` builds new records. A repeated deployment event
  therefore resets the nonce, threshold, owners, modules and transaction count
  of an existing wallet (`ProxyCreatedSpec` holds whatever the old state was).
- There is no wallet-setup handler, so owners arrive only via `AddedOwner`.

## Model

| member | source | states |
|---|---|---|
| `Hex.ToHexString` | src/mapping.ts:66 | an entity key is "0x" followed by two lower-case hex digits per address byte |
| `Hex.ToHexStringInjective` | src/mapping.ts:88-92 | two addresses have the same key exactly when they are equal, so comparing hex strings in the removal loop is comparing addresses |
| `Owners.Without` | src/mapping.ts:88-95 | the filtered owner list is no longer than the old one, never holds the removed address, and holds every other old owner |
| `Owners.WithoutMultiset` | src/mapping.ts:88-95 | removal takes out exactly the occurrences of the removed address: multiset of the rest unchanged, length drops by its count |
| `Owners.WithoutIsSubsequence` | src/mapping.ts:90-95 | the remaining owners keep their relative order |
| `Owners.WithoutUnchanged` | src/mapping.ts:88-95 | the owner list is unchanged by a removal exactly when the address is not an owner |
| `Owners.WithoutIdempotent` | src/mapping.ts:88-95 | removing the same owner twice equals removing it once |
| `Owners.AddThenRemove` | src/mapping.ts:65-104 | appending an owner then removing it gives the list without that owner; if it was not an owner before, exactly the prior list |
| `Properties.ProxyCreatedSpec` | src/mapping.ts:36-62 | a deployment writes a Safe (nonce 0, threshold 1, empty owners, modules, signed messages and domain separator) and a Lockler (threshold 1, count 0, no owners, creator = sender, safe = same id) under the proxy's key, replacing earlier ones; the proxy is watched; nothing else changes |
| `Properties.ProxyCreatedValid` | src/mapping.ts:36-58 | a deployment keeps every store invariant and removes nothing |
| `Properties.OwnerAddedSpec` | src/mapping.ts:65-81 | with the Safe present, its owners become the old owners plus the new one at the end (length + 1, no deduplication) and the Lockler, if present, gets the same list; otherwise nothing changes; invariants kept |
| `Properties.OwnerRemovedSpec` | src/mapping.ts:84-105 | with the Safe present, its owners become the old ones minus every copy of the removed address, in order, not longer; the Lockler gets the same list; otherwise nothing changes; invariants kept |
| `Properties.ThresholdChangedSpec` | src/mapping.ts:108-121 | with the Safe present, Safe and (if present) Lockler thresholds become the event's; no other field or entity changes; invariants kept |
| `Properties.ModuleEnabledSpec` | src/mapping.ts:124-135 | with the Safe present, the module is appended to its modules and watched; with it absent, neither store nor watch set changes; Locklers and modules never change |
| `Properties.ModuleEnabledValid` | src/mapping.ts:124-135 | enabling a module keeps every store invariant (the recorded module is watched) and removes nothing |
| `Properties.ExecutionSucceededSpec` | src/mapping.ts:138-152 | with the Safe present, its nonce and the Lockler's transaction count each go up by exactly one; otherwise nothing changes; invariants kept |
| `Properties.ExecutionFailedSpec` | src/mapping.ts:155-157 | a failed execution changes nothing |
| `Properties.RealityModuleSetUpSpec` | src/mapping.ts:160-190 | with no Lockler under the owner's key nothing changes; otherwise a module keyed by its own address is written, linked to that Lockler, with owner, avatar, target and block data from the event and no question text; no Safe, Lockler or watch changes |
| `Properties.QuestionCreatedSpec` | src/mapping.ts:193-202 | only the question text of an existing module is set; a missing module means no change |
| `Properties.OnlyDeploymentAddsWallets` | src/mapping.ts:65-202 | every handler other than a deployment leaves the set of Safe ids and the set of Lockler ids as they were |
| `Properties.ApplyPreservesValid` | src/mapping.ts:36-202 | every handler keeps Safe and Lockler mirrored (same keys, owners, threshold, nonce = count), the links and the watches, and never removes an entity or a watch |
| `Properties.ReplayPreservesValid` | src/mapping.ts:36-202 | any sequence of events, in any order, keeps the invariants and removes nothing |
| `Properties.ReplayFromEmptyValid` | src/mapping.ts:36-202 | from an empty store, every reachable store satisfies the invariants |
| `Properties.ReplayFollowsHistory` | src/mapping.ts:36-152 | from an empty store, a wallet's Safe and Lockler exist exactly when a deployment for it was seen, and carry the owners, threshold, execution count and creator that its own events since its last deployment give |
| `Properties.DeploymentScenario` | src/mapping.ts:36-152 | deploy, add owners a, b, c with thresholds 2 then 3, one success: owners [a, b, c], threshold 3, nonce and count 1, creator = deployer |
| `Properties.ModuleSetupBeforeDeployment` | src/mapping.ts:160-176 | a module set up before its Safe's deployment is dropped and stays absent after the deployment |
| `Properties.ModuleEnabledBeforeDeployment` | src/mapping.ts:124-135 | a module enabled before its Safe's deployment is neither recorded nor watched |
| `Mapping.Subgraph.HandleProxyCreation` | src/mapping.ts:36-62 | the store becomes `ProxyCreated` of the old store; invariants kept |
| `Mapping.Subgraph.HandleAddedOwner` | src/mapping.ts:65-81 | the store becomes `OwnerAdded` of the old store; invariants kept |
| `Mapping.Subgraph.HandleRemovedOwner` | src/mapping.ts:84-105 | the filter loop computes `Without` of the old owners; the store becomes `OwnerRemoved` of the old store; invariants kept |
| `Mapping.Subgraph.HandleChangedThreshold` | src/mapping.ts:108-121 | the store becomes `ThresholdChanged` of the old store; invariants kept |
| `Mapping.Subgraph.HandleEnabledModule` | src/mapping.ts:124-135 | the store becomes `ModuleEnabled` of the old store; invariants kept |
| `Mapping.Subgraph.HandleExecutionSuccess` | src/mapping.ts:138-152 | the store becomes `ExecutionSucceeded` of the old store; invariants kept |
| `Mapping.Subgraph.HandleExecutionFailure` | src/mapping.ts:155-157 | the store is unchanged |
| `Mapping.Subgraph.HandleRealityModuleSetup` | src/mapping.ts:160-190 | the store becomes `RealityModuleSetUp` of the old store, with the early return when the Lockler is missing; invariants kept |
| `Mapping.Subgraph.HandleProposalQuestionCreated` | src/mapping.ts:193-202 | the store becomes `QuestionCreated` of the old store; invariants kept |

## Left out

- Logging (`log.info`, `log.error`) has no effect on the store and is not modelled.
- The store runtime (`load`, `save`) is modelled as maps. `Template.create` is modelled as adding a (template, address) pair to a set, so registering twice is the same as once. How events are delivered and decoded is not modelled.
- `save()` of a freshly built entity is modelled as replacing the stored record. For `handleRealityModuleSetup` this means a second setup event for the same module clears its question text. Any merging of unset fields by the store runtime is not modelled.
- `proposalId.toString()`: the event record carries the resulting text. The conversion itself is not modelled.
- `BigInt` values (nonce, threshold, counts, timestamps, block numbers) are unbounded naturals. The handlers only set them or add one, so there is no overflow to capture.
- `getDomainSeparator` always returns empty bytes and is modelled as a function that returns the empty sequence.
- `SafeTransaction` is declared in the schema but no handler writes it. It is not part of the model, and `signedMessages` is only set to an empty list at deployment.
- Event fields that no handler reads (for example the factory's singleton address, the transaction hash and payment of an execution) are not in the event records.
- constants/constants.ts (per-network configuration) and lockler-subgraph/abis/deterministic_deployment_helper.ts (an ABI literal) hold data with no behaviour and are not part of this model.
