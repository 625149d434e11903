/**
 * What each handler does to the store, that each keeps the store's
 * invariants, and what a whole stream of events leaves behind.
 */
module Properties {
  import opened Hex
  import opened Schema
  import opened Events
  import opened Owners
  import opened Reconstruction

  // ---------------------------------------------------------------------------
  // One lemma per handler: its effect, what it leaves alone, and the invariant
  // ---------------------------------------------------------------------------

  lemma ProxyCreatedSpec(st: State, e: ProxyCreation)
    ensures var id, st' := ToHexString(e.proxy), ProxyCreated(st, e);
      && id in st'.safes && id in st'.locklers
      && st'.safes[id].nonce == 0 && st'.safes[id].threshold == 1
      && st'.safes[id].owners == [] && st'.safes[id].modules == [] && st'.safes[id].signedMessages == []
      && st'.safes[id].domainSeparator == []
      && st'.locklers[id].safe == id && st'.locklers[id].threshold == 1
      && st'.locklers[id].transactionCount == 0 && st'.locklers[id].owners == []
      && st'.locklers[id].creator == e.transactionFrom
      && st'.safes[id].createdAt == st'.locklers[id].createdAt == e.blockTimestamp
      && st'.safes[id].createdAtBlock == st'.locklers[id].createdAtBlock == e.blockNumber
      && st'.watched == st.watched + {Watch(SafeTemplate, e.proxy)}
      && st'.safes - {id} == st.safes - {id}
      && st'.locklers - {id} == st.locklers - {id}
      && st'.realityModules == st.realityModules
  {
  }

  /** A proxy creation keeps the invariants, whatever it replaces. */
  lemma ProxyCreatedValid(st: State, e: ProxyCreation)
    ensures Grows(st, ProxyCreated(st, e))
    ensures Valid(st) ==> Valid(ProxyCreated(st, e))
  {
    var id, st' := ToHexString(e.proxy), ProxyCreated(st, e);
    assert id in WatchedSafeIds(st'.watched) by {
      assert Watch(SafeTemplate, e.proxy) in st'.watched;
    }
    assert WatchedSafeIds(st.watched) <= WatchedSafeIds(st'.watched);
  }

  /** The owner is appended, with no check for duplicates, and the Lockler gets the same list. */
  lemma OwnerAddedSpec(st: State, e: AddedOwner)
    ensures var id, st' := ToHexString(e.address), OwnerAdded(st, e);
      && (id !in st.safes ==> st' == st)
      && (id in st.safes ==>
            && id in st'.safes
            && st'.safes[id].owners == st.safes[id].owners + [e.owner]
            && |st'.safes[id].owners| == |st.safes[id].owners| + 1
            && st'.safes[id] == st.safes[id].(owners := st'.safes[id].owners)
            && (id in st.locklers ==>
                  id in st'.locklers
                  && st'.locklers[id] == st.locklers[id].(owners := st'.safes[id].owners)))
      && st'.safes.Keys == st.safes.Keys && st'.locklers.Keys == st.locklers.Keys
      && st'.safes - {id} == st.safes - {id}
      && st'.locklers - {id} == st.locklers - {id}
      && st'.realityModules == st.realityModules && st'.watched == st.watched
    ensures Valid(st) ==> Valid(OwnerAdded(st, e))
  {
  }

  /**
   * Every entry equal to the removed owner is dropped, the others stay in
   * order, and the Lockler gets the same list.
   */
  lemma OwnerRemovedSpec(st: State, e: RemovedOwner)
    ensures var id, st' := ToHexString(e.address), OwnerRemoved(st, e);
      && (id !in st.safes ==> st' == st)
      && (id in st.safes ==>
            && id in st'.safes
            && st'.safes[id].owners == Without(st.safes[id].owners, e.owner)
            && e.owner !in st'.safes[id].owners
            && IsSubsequence(st'.safes[id].owners, st.safes[id].owners)
            && multiset(st'.safes[id].owners) == multiset(st.safes[id].owners)[e.owner := 0]
            && |st'.safes[id].owners| <= |st.safes[id].owners|
            && st'.safes[id] == st.safes[id].(owners := st'.safes[id].owners)
            && (id in st.locklers ==>
                  id in st'.locklers
                  && st'.locklers[id] == st.locklers[id].(owners := st'.safes[id].owners)))
      && st'.safes.Keys == st.safes.Keys && st'.locklers.Keys == st.locklers.Keys
      && st'.safes - {id} == st.safes - {id}
      && st'.locklers - {id} == st.locklers - {id}
      && st'.realityModules == st.realityModules && st'.watched == st.watched
    ensures Valid(st) ==> Valid(OwnerRemoved(st, e))
  {
    var id := ToHexString(e.address);
    if id in st.safes {
      WithoutIsSubsequence(st.safes[id].owners, e.owner);
      WithoutMultiset(st.safes[id].owners, e.owner);
    }
  }

  lemma ThresholdChangedSpec(st: State, e: ChangedThreshold)
    ensures var id, st' := ToHexString(e.address), ThresholdChanged(st, e);
      && (id !in st.safes ==> st' == st)
      && (id in st.safes ==>
            && id in st'.safes
            && st'.safes[id] == st.safes[id].(threshold := e.threshold)
            && (id in st.locklers ==>
                  id in st'.locklers && st'.locklers[id] == st.locklers[id].(threshold := e.threshold)))
      && st'.safes.Keys == st.safes.Keys && st'.locklers.Keys == st.locklers.Keys
      && st'.safes - {id} == st.safes - {id}
      && st'.locklers - {id} == st.locklers - {id}
      && st'.realityModules == st.realityModules && st'.watched == st.watched
    ensures Valid(st) ==> Valid(ThresholdChanged(st, e))
  {
  }

  /** The module is appended to the Safe and watched, but only when the Safe exists. */
  lemma ModuleEnabledSpec(st: State, e: EnabledModule)
    ensures var id, st' := ToHexString(e.address), ModuleEnabled(st, e);
      && (id !in st.safes ==> st' == st)
      && (id in st.safes ==>
            && id in st'.safes
            && st'.safes[id] == st.safes[id].(modules := st.safes[id].modules + [e.enabledModule])
            && st'.watched == st.watched + {Watch(RealityModuleTemplate, e.enabledModule)})
      && st'.safes.Keys == st.safes.Keys
      && st'.safes - {id} == st.safes - {id}
      && st'.locklers == st.locklers && st'.realityModules == st.realityModules
  {
  }

  /** Enabling a module keeps the invariants: the new module is watched as it is recorded. */
  lemma ModuleEnabledValid(st: State, e: EnabledModule)
    ensures Grows(st, ModuleEnabled(st, e))
    ensures Valid(st) ==> Valid(ModuleEnabled(st, e))
  {
    var id, st' := ToHexString(e.address), ModuleEnabled(st, e);
    if id in st.safes {
      assert WatchedSafeIds(st.watched) <= WatchedSafeIds(st'.watched);
      if Valid(st) {
        forall i, a | i in st'.safes && a in st'.safes[i].modules
          ensures Watch(RealityModuleTemplate, a) in st'.watched
        {
          if i == id && a !in st.safes[id].modules {
            assert a == e.enabledModule;
          }
        }
      }
    }
  }

  /** The nonce and the transaction count both go up by exactly one. */
  lemma ExecutionSucceededSpec(st: State, e: ExecutionSuccess)
    ensures var id, st' := ToHexString(e.address), ExecutionSucceeded(st, e);
      && (id !in st.safes ==> st' == st)
      && (id in st.safes ==>
            && id in st'.safes
            && st'.safes[id].nonce == st.safes[id].nonce + 1
            && st'.safes[id] == st.safes[id].(nonce := st'.safes[id].nonce)
            && (id in st.locklers ==>
                  && id in st'.locklers
                  && st'.locklers[id].transactionCount == st.locklers[id].transactionCount + 1
                  && st'.locklers[id] == st.locklers[id].(transactionCount := st'.locklers[id].transactionCount)))
      && st'.safes.Keys == st.safes.Keys && st'.locklers.Keys == st.locklers.Keys
      && st'.safes - {id} == st.safes - {id}
      && st'.locklers - {id} == st.locklers - {id}
      && st'.realityModules == st.realityModules && st'.watched == st.watched
    ensures Valid(st) ==> Valid(ExecutionSucceeded(st, e))
  {
  }

  lemma ExecutionFailedSpec(st: State, e: ExecutionFailure)
    ensures ExecutionFailed(st, e) == st
  {
  }

  /**
   * A module record keyed by the module's address and linked to the owner's
   * Lockler, replacing any earlier record; nothing at all when that Lockler is
   * missing. No Safe, Lockler or watch changes.
   */
  lemma RealityModuleSetUpSpec(st: State, e: RealityModuleSetup)
    ensures var lid, mid, st' := ToHexString(e.owner), ToHexString(e.address), RealityModuleSetUp(st, e);
      && (lid !in st.locklers ==> st' == st)
      && (lid in st.locklers ==>
            && mid in st'.realityModules
            && st'.realityModules[mid].lockler == lid
            && st'.realityModules[mid].owner == e.owner
            && st'.realityModules[mid].avatar == e.avatar
            && st'.realityModules[mid].target == e.target
            && st'.realityModules[mid].createdAt == e.blockTimestamp
            && st'.realityModules[mid].createdAtBlock == e.blockNumber
            && st'.realityModules[mid].questionText == None)
      && st'.realityModules - {mid} == st.realityModules - {mid}
      && st'.safes == st.safes && st'.locklers == st.locklers && st'.watched == st.watched
    ensures Grows(st, RealityModuleSetUp(st, e))
    ensures Valid(st) ==> Valid(RealityModuleSetUp(st, e))
  {
  }

  /** Only the question text of an existing module changes. */
  lemma QuestionCreatedSpec(st: State, e: ProposalQuestionCreated)
    ensures var mid, st' := ToHexString(e.address), QuestionCreated(st, e);
      && (mid !in st.realityModules ==> st' == st)
      && (mid in st.realityModules ==>
            && mid in st'.realityModules
            && st'.realityModules[mid] == st.realityModules[mid].(questionText := Some(e.proposalId)))
      && st'.realityModules.Keys == st.realityModules.Keys
      && st'.realityModules - {mid} == st.realityModules - {mid}
      && st'.safes == st.safes && st'.locklers == st.locklers && st'.watched == st.watched
    ensures Valid(st) ==> Valid(QuestionCreated(st, e))
  {
  }

  // ---------------------------------------------------------------------------
  // Streams of events
  // ---------------------------------------------------------------------------

  /** Only a proxy creation adds Safes or Locklers: every other handler keeps both sets of ids. */
  lemma OnlyDeploymentAddsWallets(st: State, ev: Event)
    requires !ev.ProxyCreationEvent?
    ensures Apply(st, ev).safes.Keys == st.safes.Keys
    ensures Apply(st, ev).locklers.Keys == st.locklers.Keys
  {
    match ev
    case AddedOwnerEvent(e) => OwnerAddedSpec(st, e);
    case RemovedOwnerEvent(e) => OwnerRemovedSpec(st, e);
    case ChangedThresholdEvent(e) => ThresholdChangedSpec(st, e);
    case EnabledModuleEvent(e) => ModuleEnabledSpec(st, e);
    case ExecutionSuccessEvent(e) => ExecutionSucceededSpec(st, e);
    case ExecutionFailureEvent(e) => ExecutionFailedSpec(st, e);
    case RealityModuleSetupEvent(e) => RealityModuleSetUpSpec(st, e);
    case ProposalQuestionCreatedEvent(e) => QuestionCreatedSpec(st, e);
  }

  /** Every handler keeps the invariants and never removes an entity or a watch. */
  lemma ApplyPreservesValid(st: State, ev: Event)
    ensures Grows(st, Apply(st, ev))
    ensures Valid(st) ==> Valid(Apply(st, ev))
  {
    match ev
    case ProxyCreationEvent(e) => ProxyCreatedValid(st, e);
    case AddedOwnerEvent(e) => OwnerAddedSpec(st, e);
    case RemovedOwnerEvent(e) => OwnerRemovedSpec(st, e);
    case ChangedThresholdEvent(e) => ThresholdChangedSpec(st, e);
    case EnabledModuleEvent(e) => ModuleEnabledValid(st, e);
    case ExecutionSuccessEvent(e) => ExecutionSucceededSpec(st, e);
    case ExecutionFailureEvent(e) => ExecutionFailedSpec(st, e);
    case RealityModuleSetupEvent(e) => RealityModuleSetUpSpec(st, e);
    case ProposalQuestionCreatedEvent(e) => QuestionCreatedSpec(st, e);
  }

  /** Any stream of events keeps the invariants and removes nothing. */
  lemma {:induction false} ReplayPreservesValid(st: State, evs: seq<Event>)
    ensures Grows(st, Replay(st, evs))
    ensures Valid(st) ==> Valid(Replay(st, evs))
  {
    if evs != [] {
      var init := evs[..|evs| - 1];
      ReplayPreservesValid(st, init);
      ApplyPreservesValid(Replay(st, init), evs[|evs| - 1]);
    }
  }

  /**
   * Whatever events arrive, in whatever order, a store that starts empty has
   * a Lockler exactly for each Safe, with the Safe's owners, threshold and
   * nonce as owners, threshold and transaction count.
   */
  lemma ReplayFromEmptyValid(evs: seq<Event>)
    ensures Valid(Replay(Empty, evs))
  {
    ReplayPreservesValid(Empty, evs);
  }

  // ---------------------------------------------------------------------------
  // One wallet's history, independently of the rest of the store
  // ---------------------------------------------------------------------------

  /** What the events for one address say its Safe should look like. */
  datatype WalletView = WalletView(owners: seq<Address>, threshold: nat, executions: nat, creator: Address)

  /**
   * One event's effect on the view of wallet `id`: a proxy creation for it
   * starts over from a fresh wallet, the other Safe events for it change one
   * attribute once the wallet exists, and every other event leaves it alone.
   */
  function WalletStep(v: Option<WalletView>, ev: Event, id: Id): Option<WalletView>
  {
    match ev
    case ProxyCreationEvent(e) =>
      if ToHexString(e.proxy) == id then Some(WalletView([], 1, 0, e.transactionFrom)) else v
    case AddedOwnerEvent(e) =>
      if ToHexString(e.address) == id && v.Some? then Some(v.value.(owners := v.value.owners + [e.owner])) else v
    case RemovedOwnerEvent(e) =>
      if ToHexString(e.address) == id && v.Some? then Some(v.value.(owners := Without(v.value.owners, e.owner))) else v
    case ChangedThresholdEvent(e) =>
      if ToHexString(e.address) == id && v.Some? then Some(v.value.(threshold := e.threshold)) else v
    case ExecutionSuccessEvent(e) =>
      if ToHexString(e.address) == id && v.Some? then Some(v.value.(executions := v.value.executions + 1)) else v
    case _ => v
  }

  function WalletHistory(evs: seq<Event>, id: Id): Option<WalletView>
  {
    if evs == [] then None else WalletStep(WalletHistory(evs[..|evs| - 1], id), evs[|evs| - 1], id)
  }

  /** The Safe and the Lockler under `id` both agree with view `v`, or neither exists. */
  ghost predicate Reflects(st: State, id: Id, v: Option<WalletView>)
  {
    match v
    case None => id !in st.safes && id !in st.locklers
    case Some(w) =>
      && id in st.safes && id in st.locklers
      && st.safes[id].owners == w.owners && st.locklers[id].owners == w.owners
      && st.safes[id].threshold == w.threshold && st.locklers[id].threshold == w.threshold
      && st.safes[id].nonce == w.executions && st.locklers[id].transactionCount == w.executions
      && st.locklers[id].creator == w.creator
  }

  lemma StepReflects(st: State, ev: Event, id: Id, v: Option<WalletView>)
    requires Reflects(st, id, v)
    ensures Reflects(Apply(st, ev), id, WalletStep(v, ev, id))
  {
    match ev
    case ProxyCreationEvent(e) => ProxyCreatedSpec(st, e);
    case AddedOwnerEvent(e) => OwnerAddedSpec(st, e);
    case RemovedOwnerEvent(e) => OwnerRemovedSpec(st, e);
    case ChangedThresholdEvent(e) => ThresholdChangedSpec(st, e);
    case EnabledModuleEvent(e) => ModuleEnabledSpec(st, e);
    case ExecutionSuccessEvent(e) => ExecutionSucceededSpec(st, e);
    case ExecutionFailureEvent(e) =>
    case RealityModuleSetupEvent(e) => RealityModuleSetUpSpec(st, e);
    case ProposalQuestionCreatedEvent(e) => QuestionCreatedSpec(st, e);
  }

  /**
   * Starting from an empty store, the Safe and Lockler of each address are
   * determined by that address's own events alone: they exist exactly when a
   * proxy creation for it was seen, and then both carry the owners and
   * threshold that the later owner and threshold events give, and a nonce and
   * transaction count equal to the number of successful executions since the
   * last proxy creation for it, and the sender of that proxy creation as the
   * Lockler's creator.
   */
  lemma {:induction false} ReplayFollowsHistory(evs: seq<Event>, id: Id)
    ensures Reflects(Replay(Empty, evs), id, WalletHistory(evs, id))
  {
    if evs != [] {
      var init := evs[..|evs| - 1];
      ReplayFollowsHistory(init, id);
      StepReflects(Replay(Empty, init), evs[|evs| - 1], id, WalletHistory(init, id));
    }
  }

  // ---------------------------------------------------------------------------
  // Scenarios
  // ---------------------------------------------------------------------------

  lemma ReplaySnoc(st: State, evs: seq<Event>, ev: Event)
    ensures Replay(st, evs + [ev]) == Apply(Replay(st, evs), ev)
  {
    assert (evs + [ev])[..|evs|] == evs;
  }

  /**
   * Deployment by `deployer`, three owners added, two threshold changes and
   * one successful execution leave Safe and Lockler with owners [a, b, c],
   * threshold 3, one execution, and the deployer as creator.
   */
  lemma {:induction false} DeploymentScenario(
    w: Address, deployer: Address, a: Address, b: Address, c: Address, time: nat, block: nat)
    ensures var evs := [
        ProxyCreationEvent(ProxyCreation(w, time, block, deployer)),
        AddedOwnerEvent(AddedOwner(w, a)),
        AddedOwnerEvent(AddedOwner(w, b)),
        ChangedThresholdEvent(ChangedThreshold(w, 2)),
        AddedOwnerEvent(AddedOwner(w, c)),
        ChangedThresholdEvent(ChangedThreshold(w, 3)),
        ExecutionSuccessEvent(ExecutionSuccess(w))];
      var st, id := Replay(Empty, evs), ToHexString(w);
      && id in st.safes && id in st.locklers
      && st.safes[id].owners == [a, b, c] && st.locklers[id].owners == [a, b, c]
      && st.safes[id].threshold == 3 && st.locklers[id].threshold == 3
      && st.safes[id].nonce == 1 && st.locklers[id].transactionCount == 1
      && st.locklers[id].creator == deployer
  {
    var e0 := ProxyCreationEvent(ProxyCreation(w, time, block, deployer));
    var evs := [e0, AddedOwnerEvent(AddedOwner(w, a)), AddedOwnerEvent(AddedOwner(w, b)),
                ChangedThresholdEvent(ChangedThreshold(w, 2)), AddedOwnerEvent(AddedOwner(w, c)),
                ChangedThresholdEvent(ChangedThreshold(w, 3)), ExecutionSuccessEvent(ExecutionSuccess(w))];
    var id := ToHexString(w);
    ReplayFollowsHistory(evs, id);
    var views := [
      Some(WalletView([], 1, 0, deployer)),
      Some(WalletView([a], 1, 0, deployer)),
      Some(WalletView([a, b], 1, 0, deployer)),
      Some(WalletView([a, b], 2, 0, deployer)),
      Some(WalletView([a, b, c], 2, 0, deployer)),
      Some(WalletView([a, b, c], 3, 0, deployer)),
      Some(WalletView([a, b, c], 3, 1, deployer))];
    assert evs[..1][..0] == [];
    assert WalletHistory(evs[..1], id) == views[0];
    assert evs[..2][..1] == evs[..1];
    assert [] + [a] == [a] && [a] + [b] == [a, b] && [a, b] + [c] == [a, b, c];
    assert WalletHistory(evs[..2], id) == views[1];
    assert evs[..3][..2] == evs[..2];
    assert WalletHistory(evs[..3], id) == views[2];
    assert evs[..4][..3] == evs[..3];
    assert WalletHistory(evs[..4], id) == views[3];
    assert evs[..5][..4] == evs[..4];
    assert WalletHistory(evs[..5], id) == views[4];
    assert evs[..6][..5] == evs[..5];
    assert WalletHistory(evs[..6], id) == views[5];
    assert evs[..7] == evs;
    assert WalletHistory(evs, id) == views[6];
  }

  /**
   * A module set up before its Safe is deployed is dropped, and the later
   * deployment does not bring it back: the store ends with the Safe and its
   * Lockler, created by the deployer, and no module record.
   */
  lemma ModuleSetupBeforeDeployment(setup: RealityModuleSetup, deployment: ProxyCreation)
    requires deployment.proxy == setup.owner
    ensures var st, id := Replay(Empty, [RealityModuleSetupEvent(setup), ProxyCreationEvent(deployment)]), ToHexString(setup.owner);
      && st.realityModules == map[]
      && id in st.locklers && st.locklers[id].creator == deployment.transactionFrom
  {
    var evs := [RealityModuleSetupEvent(setup), ProxyCreationEvent(deployment)];
    assert evs[..1] == [RealityModuleSetupEvent(setup)] && evs[..1][..0] == [];
    assert Replay(Empty, evs[..1]) == Empty;
  }

  /**
   * A module enabled before its Safe is deployed is neither recorded nor
   * watched: after both events the Safe has no modules and only the Safe
   * itself is watched.
   */
  lemma ModuleEnabledBeforeDeployment(enabled: EnabledModule, deployment: ProxyCreation)
    requires deployment.proxy == enabled.address
    ensures var st, id := Replay(Empty, [EnabledModuleEvent(enabled), ProxyCreationEvent(deployment)]), ToHexString(enabled.address);
      && id in st.safes && st.safes[id].modules == []
      && st.watched == {Watch(SafeTemplate, deployment.proxy)}
  {
    var evs := [EnabledModuleEvent(enabled), ProxyCreationEvent(deployment)];
    assert evs[..1] == [EnabledModuleEvent(enabled)] && evs[..1][..0] == [];
    assert Replay(Empty, evs[..1]) == Empty;
  }
}
