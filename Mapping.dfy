/**
 * The mapping's event handlers as they run: each loads an entity from the
 * store, changes it and saves it back. Each handler is proved to do what the
 * matching function of module Reconstruction says, and to keep the store's
 * invariants.
 */
module Mapping {
  import opened Hex
  import opened Schema
  import opened Events
  import opened Owners
  import opened Reconstruction
  import opened Properties

  /** The subgraph's entity store and its template registrations. */
  class Subgraph {
    var safes: map<Id, Safe>
    var locklers: map<Id, Lockler>
    var realityModules: map<Id, RealityModule>
    var watched: set<Watch>

    function Snapshot(): State
      reads this
    {
      State(safes, locklers, realityModules, watched)
    }

    constructor ()
      ensures Snapshot() == Empty
      ensures Valid(Snapshot())
    {
      safes, locklers, realityModules, watched := map[], map[], map[], {};
      ReplayFromEmptyValid([]);
    }

    method HandleProxyCreation(e: ProxyCreation)
      modifies this
      ensures Snapshot() == ProxyCreated(old(Snapshot()), e)
      ensures Valid(old(Snapshot())) ==> Valid(Snapshot())
    {
      var id := ToHexString(e.proxy);
      var safe := Safe(
        nonce := 0, threshold := 1, domainSeparator := GetDomainSeparator(e.proxy),
        createdAt := e.blockTimestamp, createdAtBlock := e.blockNumber,
        owners := [], modules := [], signedMessages := []);
      safes := safes[id := safe];

      var lockler := Lockler(
        safe := id, threshold := 1, transactionCount := 0,
        createdAt := e.blockTimestamp, createdAtBlock := e.blockNumber,
        creator := e.transactionFrom, owners := []);
      locklers := locklers[id := lockler];

      watched := watched + {Watch(SafeTemplate, e.proxy)};
      ProxyCreatedValid(old(Snapshot()), e);
    }

    method HandleAddedOwner(e: AddedOwner)
      modifies this
      ensures Snapshot() == OwnerAdded(old(Snapshot()), e)
      ensures Valid(old(Snapshot())) ==> Valid(Snapshot())
    {
      var safeId := ToHexString(e.address);
      if safeId in safes {
        var safe := safes[safeId];
        var newOwners := safe.owners + [e.owner];
        safe := safe.(owners := newOwners);
        safes := safes[safeId := safe];

        if safeId in locklers {
          var lockler := locklers[safeId].(owners := newOwners);
          locklers := locklers[safeId := lockler];
        }
      }
      OwnerAddedSpec(old(Snapshot()), e);
    }

    method HandleRemovedOwner(e: RemovedOwner)
      modifies this
      ensures Snapshot() == OwnerRemoved(old(Snapshot()), e)
      ensures Valid(old(Snapshot())) ==> Valid(Snapshot())
    {
      var safeId := ToHexString(e.address);
      if safeId in safes {
        var safe := safes[safeId];
        var ownerToRemove := ToHexString(e.owner);
        var currentOwners := safe.owners;
        var newOwners: seq<Address> := [];
        var i := 0;
        while i < |currentOwners|
          invariant 0 <= i <= |currentOwners|
          invariant newOwners == Without(currentOwners[..i], e.owner)
          invariant unchanged(this)
        {
          ToHexStringInjective(currentOwners[i], e.owner);
          if ToHexString(currentOwners[i]) != ownerToRemove {
            newOwners := newOwners + [currentOwners[i]];
          }
          WithoutSnoc(currentOwners[..i], currentOwners[i], e.owner);
          assert currentOwners[..i + 1] == currentOwners[..i] + [currentOwners[i]];
          i := i + 1;
        }
        assert currentOwners[..i] == currentOwners;
        safe := safe.(owners := newOwners);
        safes := safes[safeId := safe];

        if safeId in locklers {
          var lockler := locklers[safeId].(owners := newOwners);
          locklers := locklers[safeId := lockler];
        }
      }
      OwnerRemovedSpec(old(Snapshot()), e);
    }

    method HandleChangedThreshold(e: ChangedThreshold)
      modifies this
      ensures Snapshot() == ThresholdChanged(old(Snapshot()), e)
      ensures Valid(old(Snapshot())) ==> Valid(Snapshot())
    {
      var id := ToHexString(e.address);
      if id in safes {
        var safe := safes[id].(threshold := e.threshold);
        safes := safes[id := safe];

        if id in locklers {
          var lockler := locklers[id].(threshold := e.threshold);
          locklers := locklers[id := lockler];
        }
      }
      ThresholdChangedSpec(old(Snapshot()), e);
    }

    method HandleEnabledModule(e: EnabledModule)
      modifies this
      ensures Snapshot() == ModuleEnabled(old(Snapshot()), e)
      ensures Valid(old(Snapshot())) ==> Valid(Snapshot())
    {
      var id := ToHexString(e.address);
      if id in safes {
        var safe := safes[id];
        var modules := safe.modules + [e.enabledModule];
        safe := safe.(modules := modules);
        safes := safes[id := safe];

        watched := watched + {Watch(RealityModuleTemplate, e.enabledModule)};
      }
      ModuleEnabledValid(old(Snapshot()), e);
    }

    method HandleExecutionSuccess(e: ExecutionSuccess)
      modifies this
      ensures Snapshot() == ExecutionSucceeded(old(Snapshot()), e)
      ensures Valid(old(Snapshot())) ==> Valid(Snapshot())
    {
      var id := ToHexString(e.address);
      if id in safes {
        var safe := safes[id];
        safe := safe.(nonce := safe.nonce + 1);
        safes := safes[id := safe];

        if id in locklers {
          var lockler := locklers[id];
          lockler := lockler.(transactionCount := lockler.transactionCount + 1);
          locklers := locklers[id := lockler];
        }
      }
      ExecutionSucceededSpec(old(Snapshot()), e);
    }

    method HandleExecutionFailure(e: ExecutionFailure)
      ensures Snapshot() == ExecutionFailed(old(Snapshot()), e)
    {
    }

    method HandleRealityModuleSetup(e: RealityModuleSetup)
      modifies this
      ensures Snapshot() == RealityModuleSetUp(old(Snapshot()), e)
      ensures Valid(old(Snapshot())) ==> Valid(Snapshot())
    {
      var lockler := ToHexString(e.owner);
      if lockler !in locklers {
        RealityModuleSetUpSpec(old(Snapshot()), e);
        return;
      }

      var realityModuleId := ToHexString(e.address);
      var realityModule := RealityModule(
        lockler := lockler, owner := e.owner, avatar := e.avatar, target := e.target,
        createdAt := e.blockTimestamp, createdAtBlock := e.blockNumber, questionText := None);
      realityModules := realityModules[realityModuleId := realityModule];
      RealityModuleSetUpSpec(old(Snapshot()), e);
    }

    method HandleProposalQuestionCreated(e: ProposalQuestionCreated)
      modifies this
      ensures Snapshot() == QuestionCreated(old(Snapshot()), e)
      ensures Valid(old(Snapshot())) ==> Valid(Snapshot())
    {
      var id := ToHexString(e.address);
      if id in realityModules {
        var m := realityModules[id].(questionText := Some(e.proposalId));
        realityModules := realityModules[id := m];
      }
      QuestionCreatedSpec(old(Snapshot()), e);
    }
  }
}
