/**
 * The handlers of the mapping as functions on a snapshot of the store: the
 * specification that the imperative handlers in module Mapping are proved
 * against, and the invariants they keep.
 */
module Reconstruction {
  import opened Hex
  import opened Schema
  import opened Events
  import opened Owners

  /** The entity store and the set of addresses registered with a template. */
  datatype State = State(
    safes: map<Id, Safe>,
    locklers: map<Id, Lockler>,
    realityModules: map<Id, RealityModule>,
    watched: set<Watch>)

  const Empty: State := State(map[], map[], map[], {})

  /** `getDomainSeparator`: the domain separator is not computed; it is always empty. */
  function GetDomainSeparator(safeAddress: Address): seq<Byte>
  {
    []
  }

  // ---------------------------------------------------------------------------
  // One function per handler
  // ---------------------------------------------------------------------------

  /** A new Safe and Lockler under the proxy's id, replacing any earlier ones; the proxy is watched. */
  function ProxyCreated(st: State, e: ProxyCreation): State
  {
    var id := ToHexString(e.proxy);
    var safe := Safe(
      nonce := 0, threshold := 1, domainSeparator := GetDomainSeparator(e.proxy),
      createdAt := e.blockTimestamp, createdAtBlock := e.blockNumber,
      owners := [], modules := [], signedMessages := []);
    var lockler := Lockler(
      safe := id, threshold := 1, transactionCount := 0,
      createdAt := e.blockTimestamp, createdAtBlock := e.blockNumber,
      creator := e.transactionFrom, owners := []);
    st.(safes := st.safes[id := safe],
        locklers := st.locklers[id := lockler],
        watched := st.watched + {Watch(SafeTemplate, e.proxy)})
  }

  /** Stores `owners` on the Safe `id` and, when it exists, on the Lockler `id`. */
  function SetOwners(st: State, id: Id, owners: seq<Address>): State
    requires id in st.safes
  {
    st.(safes := st.safes[id := st.safes[id].(owners := owners)],
        locklers := if id in st.locklers
                    then st.locklers[id := st.locklers[id].(owners := owners)]
                    else st.locklers)
  }

  function OwnerAdded(st: State, e: AddedOwner): State
  {
    var id := ToHexString(e.address);
    if id in st.safes then SetOwners(st, id, st.safes[id].owners + [e.owner]) else st
  }

  function OwnerRemoved(st: State, e: RemovedOwner): State
  {
    var id := ToHexString(e.address);
    if id in st.safes then SetOwners(st, id, Without(st.safes[id].owners, e.owner)) else st
  }

  function ThresholdChanged(st: State, e: ChangedThreshold): State
  {
    var id := ToHexString(e.address);
    if id !in st.safes then st
    else
      st.(safes := st.safes[id := st.safes[id].(threshold := e.threshold)],
          locklers := if id in st.locklers
                      then st.locklers[id := st.locklers[id].(threshold := e.threshold)]
                      else st.locklers)
  }

  function ModuleEnabled(st: State, e: EnabledModule): State
  {
    var id := ToHexString(e.address);
    if id !in st.safes then st
    else
      st.(safes := st.safes[id := st.safes[id].(modules := st.safes[id].modules + [e.enabledModule])],
          watched := st.watched + {Watch(RealityModuleTemplate, e.enabledModule)})
  }

  function ExecutionSucceeded(st: State, e: ExecutionSuccess): State
  {
    var id := ToHexString(e.address);
    if id !in st.safes then st
    else
      st.(safes := st.safes[id := st.safes[id].(nonce := st.safes[id].nonce + 1)],
          locklers := if id in st.locklers
                      then st.locklers[id := st.locklers[id].(transactionCount := st.locklers[id].transactionCount + 1)]
                      else st.locklers)
  }

  function ExecutionFailed(st: State, e: ExecutionFailure): State
  {
    st
  }

  /** A fresh module record linked to the owner's Lockler, or nothing when that Lockler is missing. */
  function RealityModuleSetUp(st: State, e: RealityModuleSetup): State
  {
    var locklerId := ToHexString(e.owner);
    if locklerId !in st.locklers then st
    else
      var m := RealityModule(
        lockler := locklerId, owner := e.owner, avatar := e.avatar, target := e.target,
        createdAt := e.blockTimestamp, createdAtBlock := e.blockNumber, questionText := None);
      st.(realityModules := st.realityModules[ToHexString(e.address) := m])
  }

  function QuestionCreated(st: State, e: ProposalQuestionCreated): State
  {
    var id := ToHexString(e.address);
    if id !in st.realityModules then st
    else st.(realityModules := st.realityModules[id := st.realityModules[id].(questionText := Some(e.proposalId))])
  }

  /** Dispatch on the kind of event. */
  function Apply(st: State, ev: Event): State
  {
    match ev
    case ProxyCreationEvent(e) => ProxyCreated(st, e)
    case AddedOwnerEvent(e) => OwnerAdded(st, e)
    case RemovedOwnerEvent(e) => OwnerRemoved(st, e)
    case ChangedThresholdEvent(e) => ThresholdChanged(st, e)
    case EnabledModuleEvent(e) => ModuleEnabled(st, e)
    case ExecutionSuccessEvent(e) => ExecutionSucceeded(st, e)
    case ExecutionFailureEvent(e) => ExecutionFailed(st, e)
    case RealityModuleSetupEvent(e) => RealityModuleSetUp(st, e)
    case ProposalQuestionCreatedEvent(e) => QuestionCreated(st, e)
  }

  /** Handle the events one after the other, in order. */
  function Replay(st: State, evs: seq<Event>): State
  {
    if evs == [] then st else Apply(Replay(st, evs[..|evs| - 1]), evs[|evs| - 1])
  }

  // ---------------------------------------------------------------------------
  // Invariants of the store
  // ---------------------------------------------------------------------------

  /** Every Safe has a Lockler under the same id and vice versa, with equal owners and threshold. */
  ghost predicate Mirrored(st: State)
  {
    && st.safes.Keys == st.locklers.Keys
    && forall id :: id in st.safes && id in st.locklers ==>
         st.locklers[id].owners == st.safes[id].owners
         && st.locklers[id].threshold == st.safes[id].threshold
  }

  /** The Lockler's transaction count follows the Safe's nonce. */
  ghost predicate CountersInStep(st: State)
  {
    forall id :: id in st.safes && id in st.locklers ==>
      st.locklers[id].transactionCount == st.safes[id].nonce
  }

  /** Each Lockler points at the Safe of its own id; each module at an existing Lockler. */
  ghost predicate Linked(st: State)
  {
    && (forall id :: id in st.locklers ==> st.locklers[id].safe == id)
    && (forall m :: m in st.realityModules ==> st.realityModules[m].lockler in st.locklers)
  }

  /** The ids of the addresses registered with the Safe template. */
  ghost function WatchedSafeIds(watched: set<Watch>): set<Id>
  {
    set w | w in watched && w.template == SafeTemplate :: ToHexString(w.address)
  }

  /** Every Safe is watched, and so is every module enabled on one. */
  ghost predicate Watching(st: State)
  {
    && st.safes.Keys <= WatchedSafeIds(st.watched)
    && forall id, a :: id in st.safes && a in st.safes[id].modules ==>
         Watch(RealityModuleTemplate, a) in st.watched
  }

  ghost predicate Valid(st: State)
  {
    Mirrored(st) && CountersInStep(st) && Linked(st) && Watching(st)
  }

  /** No entity and no watch is removed between `st` and `st'`. */
  ghost predicate Grows(st: State, st': State)
  {
    && st.safes.Keys <= st'.safes.Keys
    && st.locklers.Keys <= st'.locklers.Keys
    && st.realityModules.Keys <= st'.realityModules.Keys
    && st.watched <= st'.watched
  }
}
