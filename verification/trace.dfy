/** Extended block traces: change records, calls, transactions, blocks, and the
    state components ("keys") that the records write. */
module Trace {
  import opened Words

  datatype Reason = GasBuy | GasRefund | RewardTransactionFee | OtherReason

  datatype Change =
    | StorageChange(address: Address, key: Bytes, oldWord: Bytes, newWord: Bytes, ordinal: nat)
    | BalanceChange(address: Address, oldAmount: Bytes, newAmount: Bytes, reason: Reason, ordinal: nat)
    | NonceChange(address: Address, oldNonce: nat, newNonce: nat, ordinal: nat)
    | CodeChange(address: Address, oldHash: Bytes, oldCode: Bytes, newHash: Bytes, newCode: Bytes, ordinal: nat)

  datatype Kind = StorageKind | BalanceKind | NonceKind | CodeKind

  function KindOf(c: Change): Kind {
    match c
    case StorageChange(_, _, _, _, _) => StorageKind
    case BalanceChange(_, _, _, _, _) => BalanceKind
    case NonceChange(_, _, _, _) => NonceKind
    case CodeChange(_, _, _, _, _, _) => CodeKind
  }

  type StorageRecord = c: Change | c.StorageChange? witness StorageChange([], [], [], [], 0)
  type BalanceRecord = c: Change | c.BalanceChange? witness BalanceChange([], [], [], OtherReason, 0)
  type NonceRecord = c: Change | c.NonceChange? witness NonceChange([], 0, 0, 0)
  type CodeRecord = c: Change | c.CodeChange? witness CodeChange([], [], [], [], [], 0)

  datatype CallType = Plain | Create | Delegate | Callcode

  datatype Call = Call(
    index: nat, parentIndex: nat, callType: CallType, address: Address,
    suicide: bool, stateReverted: bool, beginOrdinal: nat, endOrdinal: nat,
    storageChanges: seq<StorageRecord>, balanceChanges: seq<BalanceRecord>,
    nonceChanges: seq<NonceRecord>, codeChanges: seq<CodeRecord>)

  datatype Status = UnknownStatus | Succeeded | Failed | Reverted

  datatype Authorization = Authorization(authority: Option<Address>, discarded: bool)

  datatype Transaction = Transaction(
    status: Status, setCode: bool, from: Address, nonce: nat, endOrdinal: nat,
    authorizations: seq<Authorization>, calls: seq<Call>)

  datatype Timestamp = Timestamp(seconds: int, nanos: int)

  datatype Header = Header(number: nat, parentHash: Bytes, stateRoot: Bytes, timestamp: Option<Timestamp>)

  datatype Block = Block(
    number: nat, extended: bool, version: int, hash: Bytes, header: Option<Header>,
    systemCalls: seq<Call>, balanceChanges: seq<BalanceRecord>, codeChanges: seq<CodeRecord>,
    transactions: seq<Transaction>)

  /** One component of account state. */
  datatype Key =
    | Slot(account: Address, slot: nat)
    | Balance(account: Address)
    | Nonce(account: Address)
    | Code(account: Address)

  datatype Value = Num(n: nat) | CodeOf(hash: Bytes, code: Bytes)

  /** The Keccak-256 digest of the empty string. */
  const EMPTY_CODE_HASH: Bytes := Padded(0xc5d2460186f7233c927e7db2dcc703c0e500b653ca82273b7bfad8045d85a470, 32)

  lemma EmptyCodeHash()
    ensures |EMPTY_CODE_HASH| == 32
    ensures BigEndian(EMPTY_CODE_HASH) == 0xc5d2460186f7233c927e7db2dcc703c0e500b653ca82273b7bfad8045d85a470
  {
    Powers();
    hide Power;
    PaddedValue(0xc5d2460186f7233c927e7db2dcc703c0e500b653ca82273b7bfad8045d85a470, 32);
  }

  /** What an account that does not exist holds. */
  function Default(k: Key): Value {
    if k.Code? then CodeOf(EMPTY_CODE_HASH, []) else Num(0)
  }

  function HashOf(hash: Bytes): Bytes {
    if hash == [] then EMPTY_CODE_HASH else hash
  }

  function KeyOf(c: Change): Key {
    match c
    case StorageChange(a, key, _, _, _) => Slot(a, BigEndian(key))
    case BalanceChange(a, _, _, _, _) => Balance(a)
    case NonceChange(a, _, _, _) => Nonce(a)
    case CodeChange(a, _, _, _, _, _) => Code(a)
  }

  function OldValue(c: Change): Value {
    match c
    case StorageChange(_, _, prior, _, _) => Num(BigEndian(prior))
    case BalanceChange(_, prior, _, _, _) => Num(BigEndian(prior))
    case NonceChange(_, prior, _, _) => Num(prior)
    case CodeChange(_, hash, code, _, _, _) => CodeOf(HashOf(hash), code)
  }

  function NewValue(c: Change): Value {
    match c
    case StorageChange(_, _, _, next, _) => Num(BigEndian(next))
    case BalanceChange(_, _, next, _, _) => Num(BigEndian(next))
    case NonceChange(_, _, next, _) => Num(next)
    case CodeChange(_, _, _, hash, code, _) => CodeOf(HashOf(hash), code)
  }

  /** The mapper's no-op tests. */
  predicate NoOp(c: Change) {
    match c
    case StorageChange(_, _, prior, next, _) => StripZeros(prior) == StripZeros(next)
    case BalanceChange(_, prior, next, _, _) => StripZeros(prior) == StripZeros(next)
    case NonceChange(_, prior, next, _) => prior == next
    case CodeChange(_, oldHash, _, newHash, _, _) => oldHash == newHash
  }

  function OrdinalOf(c: Change): nat { c.ordinal }

  /** Equal code hashes come with equal code. */
  predicate HonestCode(c: Change) {
    c.CodeChange? && c.oldHash == c.newHash ==> c.oldCode == c.newCode
  }

  lemma NoOpWritesOldValue(c: Change)
    requires HonestCode(c)
    ensures NoOp(c) ==> NewValue(c) == OldValue(c)
  {
    match c
    case StorageChange(_, _, prior, next, _) => SameWord(prior, next);
    case BalanceChange(_, prior, next, _, _) => SameWord(prior, next);
    case NonceChange(_, _, _, _) =>
    case CodeChange(_, _, _, _, _, _) =>
  }
}
