/** The entities the service reads from its collaborators, and its errors. */
module RpcTypes {
  import opened Wrappers
  import opened Integers
  import opened Binary

  /** `acm.Address`, opaque here. */
  type Address = seq<byte>

  /** `acm.Account` as read from the state store (`AsConcreteAccount` copies it). */
  datatype Account = Account(
    address: Address,
    balance: uint64,
    sequence: uint64,
    code: seq<byte>,
    storageRoot: seq<byte>)

  /** `execution.NameRegEntry`. */
  datatype NameRegEntry = NameRegEntry(name: string, owner: Address, data: string, expires: uint64)

  /** A Tendermint block meta, opaque to the service. */
  datatype BlockMeta = BlockMeta(height: int, hash: seq<byte>, timeNanos: int)

  /** Errors the service returns. Collaborator errors are carried unchanged as `Upstream`. */
  datatype Error =
    | Upstream(reason: string)
    | UnknownAddress(address: Address)
    | UnsubscribeFailed(subscriptionID: string, cause: string)

  /** The state store (`acm.StateIterable`) as a snapshot:
      `getAccount` / `getStorage` are its lookups, `accounts` the order in which
      `IterateAccounts` visits accounts and `storage` the order in which
      `IterateStorage` visits an account's key/value pairs. */
  datatype StateStore = StateStore(
    getAccount: Address -> Result<Option<Account>, Error>,
    getStorage: (Address, Word256) -> Result<Word256, Error>,
    accounts: seq<Account>,
    storage: Address -> seq<(Word256, Word256)>)
}
