/**
 * The durable state of one chain: the tables of rpc-src/address-map.ts, the child-CREATE counters
 * of rpc-src/create-reconciler.ts and the transaction journal of rpc-src/journal.ts. An absent
 * table and an empty one are the same thing here.
 */
module ChainState {
  import opened Wrappers
  import opened Addresses

  type Owner = nat

  /** Signed bytes; compared for equality and hashed, never looked into. */
  type Raw = nat

  datatype Kind = TransparentProxy | BeaconProxy | ProxyAdmin | UupsProxy | UpgradeableBeacon | PlainContract | OtherKind(name: nat)

  /** A fully qualified contract name. */
  type Identity = nat

  datatype Code =
    | InvalidMapping | CorruptIndexes | PredictedConflict | ProvenanceConflict | ActualConflict
    | InvalidMetadata | CorruptMetadata | MetadataWithoutMapping | MetadataConflict
    | CorruptSnapshots | SnapshotConflict
    | InvalidDescriptors | CorruptDescriptors | DescriptorsWithoutMapping | DescriptorRegress | DescriptorConflict
    | InvalidBaseline | CorruptBaselines | BaselineConflict
    | CorruptJournal | UnknownTransaction | SourceConflict | IllegalTransition | RetryConflict | ClaimOwned
    | NonceInFlight | InvalidPreparation | FailureConflict | RecoveryConflict
    | SimulationIncomplete | SimulationTransactionMismatch | SimulationRootMismatch | UnsafeConstantProfile
    | CorruptCounters | InvalidTrace | CallerConflict | CallerUnmapped | Create2Rejected | CreateKindUnknown | SimulationConflict
    | InvalidProxyMetadata | StateMismatch | TopLevelMismatch | CreateMismatch | CounterConflict | MissingCreation
    | TransportFailure | NonceTooLow | WriteFailed | LockLost | StateUnreadable

  // ---- Address tables ----

  datatype Mapping = Mapping(predicted: Address, actual: Address, creator: Address, sender: Address, source: Hash)

  datatype Metadata =
    Metadata(predicted: Address, kind: Kind, identity: Identity, source: Hash, provenance: Option<Hash>)

  datatype Range = Range(start: nat, length: nat)

  /** Everything an artifact snapshot holds besides its immutable offsets is one opaque envelope. */
  datatype Snapshot = Snapshot(provenance: Hash, envelope: nat, references: Option<seq<Range>>)

  datatype Role = SelfRole | AdminRole | BeaconRole

  datatype Descriptor = Descriptor(role: Role, start: nat, length: nat, expectedActual: Address)

  datatype DescriptorRecord = DescriptorRecord(predicted: Address, complete: bool, descriptors: seq<Descriptor>)

  // ---- Journal ----

  datatype State = Received | NativeBuilt | Broadcast | Confirmed | Failed

  datatype Native = Native(signed: Raw, id: Hash)

  datatype OperationKind = Deployment | Call

  datatype Context = Context(
    kind: OperationKind, from: Address, to: Option<Address>, nonce: nat, predictedContract: Option<Address>,
    actualTarget: Address, contractKind: Option<Kind>, identity: Option<Identity>, provenance: Option<Hash>)

  datatype Mode = ExactSigned | ConstantCreate | ConstantCall

  datatype ChildMetadata = ChildMetadata(kind: Kind, identity: Identity)

  datatype Attempt = Attempt(
    index: nat, actualCaller: Address, predictedCaller: Address, nonce: nat, predictedAddress: Address,
    simulatedActual: Address, success: bool, metadata: Option<ChildMetadata>)

  datatype Plan = Plan(
    mode: Mode, sender: Address, root: Address, attempts: seq<Attempt>,
    bases: map<Address, nat>, finals: map<Address, nat>)

  datatype Preparation = Preparation(context: Context, plan: Plan)

  /** One internal transaction of a receipt; a note that is malformed is neither kind. */
  datatype Note = CreateNote | OtherNote | MalformedNote

  datatype Internal = Internal(caller: Address, created: Address, note: Note, rejected: bool)

  datatype Receipt = Receipt(
    successful: bool, source: Hash, from: Address, to: Option<Address>, contractAddress: Option<Address>,
    actualContract: Option<Address>, nativeId: Hash, internals: seq<Internal>, block: Option<nat>)

  datatype Record = Record(
    hash: Hash, source: Raw, state: State, owner: Option<Owner>, native: Option<Native>,
    context: Option<Context>, plan: Option<Plan>, receipt: Option<Receipt>, failure: Option<Code>)

  datatype Chain = Chain(
    byPredicted: map<Address, Mapping>,
    byActual: map<Address, Address>,
    metadata: map<Address, Metadata>,
    snapshots: map<Hash, Snapshot>,
    descriptors: map<Address, DescriptorRecord>,
    baselines: map<Address, nat>,
    counters: map<Address, nat>,
    records: map<Hash, Record>)

  function EmptyChain(): Chain {
    Chain(map[], map[], map[], map[], map[], map[], map[], map[])
  }

  predicate InState(c: Chain, hash: Hash, state: State) {
    hash in c.records && c.records[hash].state == state
  }

  /** What the signed source transaction says about itself. */
  datatype Source = Source(from: Address, nonce: nat)

  /**
   * The library functions the program calls: Keccak-256 of the source bytes, the contract address
   * of section 7 of the Ethereum Yellow Paper, legacy transaction decoding, the artifact names of the
   * canonical transparent proxy and the ProxyAdmin derived from it, and the hash of runtime code.
   */
  datatype Env = Env(
    keccak: Raw -> Hash,
    createAddress: (Address, nat) -> Address,
    decode: Raw -> Option<Source>,
    isTransparentProxy: Identity -> bool,
    proxyAdminOf: Identity -> Option<Identity>,
    codeHash: Hex -> Hash)

  function Keccak(env: Env, raw: Raw): Hash {
    env.keccak(raw)
  }

  function CreateAddress(env: Env, from: Address, nonce: nat): Address {
    env.createAddress(from, nonce)
  }

  function CodeHash(env: Env, code: Hex): Hash {
    env.codeHash(code)
  }

  function Decode(env: Env, raw: Raw): Option<Source> {
    env.decode(raw)
  }

  predicate NonZero(a: Address) {
    a != ZeroAddress()
  }
}
