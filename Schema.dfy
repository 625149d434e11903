/**
 * The entities of the subgraph's store. Each is a record that a handler loads,
 * changes field by field and saves back under the same key.
 */
module Schema {
  import opened Hex

  datatype Option<T> = None | Some(value: T)

  /** A deployed Safe multisig. */
  datatype Safe = Safe(
    nonce: nat,
    threshold: nat,
    domainSeparator: seq<Byte>,
    createdAt: nat,
    createdAtBlock: nat,
    owners: seq<Address>,
    modules: seq<Address>,
    signedMessages: seq<Id>)

  /** The Lockler view of a Safe: a copy of its owners and threshold plus audit fields. */
  datatype Lockler = Lockler(
    safe: Id,
    threshold: nat,
    transactionCount: nat,
    createdAt: nat,
    createdAtBlock: nat,
    creator: Address,
    owners: seq<Address>)

  /** A Reality module attached to a Lockler. */
  datatype RealityModule = RealityModule(
    lockler: Id,
    owner: Address,
    avatar: Address,
    target: Address,
    createdAt: nat,
    createdAtBlock: nat,
    questionText: Option<string>)

  /** The two data-source templates that new addresses are watched with. */
  datatype Template = SafeTemplate | RealityModuleTemplate

  /** One `Template.create(address)` registration. */
  datatype Watch = Watch(template: Template, address: Address)
}
