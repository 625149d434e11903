/**
 * Decoded events, one record per handler, carrying the fields the handlers
 * read. `address` is the contract that emitted the event.
 */
module Events {
  import opened Hex

  /** Emitted by the proxy factory when a new Safe proxy is deployed. */
  datatype ProxyCreation = ProxyCreation(
    proxy: Address,
    blockTimestamp: nat,
    blockNumber: nat,
    transactionFrom: Address)

  datatype AddedOwner = AddedOwner(address: Address, owner: Address)

  datatype RemovedOwner = RemovedOwner(address: Address, owner: Address)

  datatype ChangedThreshold = ChangedThreshold(address: Address, threshold: nat)

  datatype EnabledModule = EnabledModule(address: Address, enabledModule: Address)

  datatype ExecutionSuccess = ExecutionSuccess(address: Address)

  datatype ExecutionFailure = ExecutionFailure(address: Address)

  /** Emitted by a Reality module when it is set up; `address` is the module. */
  datatype RealityModuleSetup = RealityModuleSetup(
    address: Address,
    owner: Address,
    avatar: Address,
    target: Address,
    blockTimestamp: nat,
    blockNumber: nat)

  /** `proposalId` is the text that `proposalId.toString()` yields. */
  datatype ProposalQuestionCreated = ProposalQuestionCreated(address: Address, proposalId: string)

  /** Any event the subgraph subscribes to. */
  datatype Event =
    | ProxyCreationEvent(proxyCreation: ProxyCreation)
    | AddedOwnerEvent(addedOwner: AddedOwner)
    | RemovedOwnerEvent(removedOwner: RemovedOwner)
    | ChangedThresholdEvent(changedThreshold: ChangedThreshold)
    | EnabledModuleEvent(enabledModule: EnabledModule)
    | ExecutionSuccessEvent(executionSuccess: ExecutionSuccess)
    | ExecutionFailureEvent(executionFailure: ExecutionFailure)
    | RealityModuleSetupEvent(realityModuleSetup: RealityModuleSetup)
    | ProposalQuestionCreatedEvent(proposalQuestionCreated: ProposalQuestionCreated)
}
