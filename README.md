# Burrow RPC service core, modelled in Dafny

This project models the sequential logic inside Hyperledger Burrow's RPC facade
(`rpc/service.go`): the query layer that sits in front of the state store, the name
registry, the block store, the mempool and the event bus. The model covers:

- **ListBlocks**: the bounded block-range window. The tip height is read first. A min
  height of 0 counts as 1. A max height of 0, or one above the tip, counts as the tip.
  The window keeps at most `MaxBlockLookback` = 100 heights below its top. The metas are
  then fetched from the top down. The method works on a `uint64` newtype, so the verifier
  checks that no subtraction (`maxHeight - minHeight`, `height--`) wraps. It is proved
  equal to a reference window defined on unbounded integers.
- **GetStorage / DumpStorage**: account lookup with its error paths, storage words
  (`Word256`, 32 bytes), `LeftPadWord256` and `UnpadLeft`. The all-zero word reads as
  nil in `GetStorage`. `DumpStorage` keeps zero slots and is lossless.
- **ListAccounts / ListNames**: iterate the whole store (the callback never stops the
  iteration), keep what the caller's predicate accepts in iteration order, and stamp the
  tip's height. Specified by an order-preserving `Filter`.
- **ListUnconfirmedTxs / ListValidators**: fill a preallocated array by index, one entry
  per transaction or validator. There are never any unbonding validators.
- **Subscribe's callback wrapper and Unsubscribe**: an unmappable message keeps the
  subscription and does not reach the callback. Otherwise the callback's answer is
  returned. A bus error from `UnsubscribeAll` is wrapped with the subscription ID.

The collaborators are parameters: the state store is a `StateStore` value (lookup
functions plus the order in which its iterators visit entries). The block store is a
function from `int64` heights (a subset type of the integers) to optional metas; it is
called at `WrapInt64` of each `uint64` height. The mempool is a function of the
requested count. `NewResultEvent` is a partial mapping returning a `Result`. The bus's
`UnsubscribeAll` is a function returning an `Outcome`. The tip height is a `uint64`
argument.

Behaviour of the code worth noting:

- `ListAccounts`, `ListNames` and `ListValidators` read the tip height after they
  iterate (service.go:259, 320, 371).
- The return values of `IterateAccounts`, `IterateStorage` and `IterateNameRegEntries`
  are discarded (service.go:251, 292, 313). So an iteration error is not surfaced; the
  model lists whatever the iteration visited.
- `ListUnconfirmedTxs` does not cap anything itself. It passes `maxTxs` to the mempool.

Modules: `Wrappers` (Option/Result/Outcome), `Integers` (`uint64`, Go's `int64(x)`
conversion), `Binary` (bytes and storage words), `Filtering`, `RpcTypes` (entities,
errors, the state store), `Blocks`, `Storage`, `Listing`, `Subscriptions`.

## Model

| member | source | states |
|---|---|---|
| `Integers.WrapInt64` | vendor/github.com/hyperledger/burrow/rpc/service.go:352 | Go's `int64(height)` conversion gives a value in the int64 range that agrees with the height modulo 2^64 |
| `Binary.LeftPadWord256` | vendor/github.com/hyperledger/burrow/rpc/service.go:273 | a key of at most 32 bytes becomes a 32-byte word that ends with the key and is zero before it |
| `Binary.UnpadLeftShape` | vendor/github.com/hyperledger/burrow/rpc/service.go:280 | `UnpadLeft` removes exactly a leading run of zero bytes, and its result does not start with a zero byte |
| `Binary.LeftPadUnpadLeft` | vendor/github.com/hyperledger/burrow/rpc/service.go:280 | left-padding an unpadded word gives the word back; the unpadded form fits in 32 bytes |
| `Binary.UnpadLeftEmpty` | vendor/github.com/hyperledger/burrow/rpc/service.go:277-280 | a word unpads to the empty string exactly when it is the all-zero word |
| `Binary.UnpadLeftOfLeftPad` | vendor/github.com/hyperledger/burrow/rpc/service.go:273 | unpadding a padded key gives the key without its own leading zero bytes |
| `Filtering.FilterAppend` | vendor/github.com/hyperledger/burrow/rpc/service.go:251-256 | filtering distributes over concatenation, so kept entries stay in iteration order |
| `Filtering.FilterSnoc` | vendor/github.com/hyperledger/burrow/rpc/service.go:252-254 | one more iterated entry is appended to the result exactly when the predicate accepts it |
| `Filtering.FilterMembers` | vendor/github.com/hyperledger/burrow/rpc/service.go:313-318 | an entry is in the result exactly when it was iterated and the predicate accepts it; the result is no longer than the input |
| `Blocks.DescendingRangeAt` | vendor/github.com/hyperledger/burrow/rpc/service.go:351 | the range from `hi` down to `lo` has `hi - lo + 1` heights (none when `hi < lo`), and its i-th height is `hi - i` |
| `Blocks.DescendingRangeExtend` | vendor/github.com/hyperledger/burrow/rpc/service.go:351-354 | lowering the bottom of the range by one appends that height at the end |
| `Blocks.FetchMetas` | vendor/github.com/hyperledger/burrow/rpc/service.go:352-353 | one meta per height, each loaded at the height's `int64` conversion |
| `Blocks.ListBlocks` | vendor/github.com/hyperledger/burrow/rpc/service.go:337-360 | reports the unclamped tip as `LastHeight`; returns the metas of exactly the reference window's heights, in descending order; returns at most 101 metas; no `uint64` subtraction wraps and the loop terminates |
| `Blocks.ListBlocksShape` | vendor/github.com/hyperledger/burrow/rpc/service.go:340-354 | the window holds at most `MaxBlockLookback + 1` heights; they run contiguously down from its top and lie between 1 and the tip; the first listed height is the tip when max is 0 or above the tip, and the requested max otherwise |
| `Blocks.ListBlocksDescending` | vendor/github.com/hyperledger/burrow/rpc/service.go:351 | the listed heights are strictly descending and consecutive |
| `Blocks.ListBlocksCount` | vendor/github.com/hyperledger/burrow/rpc/service.go:346-348 | the number of metas is the size of the range from the defaulted min to the top, capped at 101 |
| `Blocks.ListBlocksEmpty` | vendor/github.com/hyperledger/burrow/rpc/service.go:340-351 | nothing is listed exactly when the defaulted min lies above the top; in particular when the tip is 0 |
| `Blocks.ListBlocksLoadsHeights` | vendor/github.com/hyperledger/burrow/rpc/service.go:352 | below 2^63 the block store is asked for exactly the listed heights |
| `Blocks.ListBlocksWholeChain` | vendor/github.com/hyperledger/burrow/rpc/service.go:340-344 | tip 50 with min and max 0 lists 50 heights, 50 down to 1 |
| `Blocks.ListBlocksTruncated` | vendor/github.com/hyperledger/burrow/rpc/service.go:346-348 | tip 300 with range [1, 250] lists 101 heights, 250 down to 150 |
| `Blocks.ListBlocksHugeTip` | vendor/github.com/hyperledger/burrow/rpc/service.go:351-352 | at tip 2^64 - 1 the window still holds 101 heights, and the first load goes to `int64` height -1 |
| `Storage.GetStorage` | vendor/github.com/hyperledger/burrow/rpc/service.go:264-281 | a store error from the account lookup is returned unchanged; no account gives `UnknownAddress`; a storage read error is returned unchanged; otherwise the key is echoed and the value is nil exactly for the all-zero word, else a non-empty value without a leading zero byte that left-pads back to the stored word |
| `Storage.GetStorageSkipsStorageWithoutAccount` | vendor/github.com/hyperledger/burrow/rpc/service.go:265-271 | without an account the result fails and does not depend on the storage lookup at all |
| `Storage.DumpStorage` | vendor/github.com/hyperledger/burrow/rpc/service.go:283-300 | the same account error paths as `GetStorage`; otherwise the account's storage root and one unpadded item per iterated pair, in iteration order |
| `Storage.DumpStorageLossless` | vendor/github.com/hyperledger/burrow/rpc/service.go:292-295 | one item per pair; left-padding an item's key and value gives back the stored words; zero slots are kept, with an empty value |
| `Storage.GetStorageAgreesWithDump` | vendor/github.com/hyperledger/burrow/rpc/service.go:277-280 | when lookup and iteration agree on a slot, `GetStorage` returns the value `DumpStorage` lists for it, with nil in place of an empty value |
| `Listing.ListAccounts` | vendor/github.com/hyperledger/burrow/rpc/service.go:249-262 | the accounts are the order-preserving filter of the whole iteration by the predicate; every one satisfies it; the height is the tip's last block height |
| `Listing.ListAccountsExact` | vendor/github.com/hyperledger/burrow/rpc/service.go:251-256 | an account is listed exactly when the iteration visits it and the predicate accepts it |
| `Listing.ListNames` | vendor/github.com/hyperledger/burrow/rpc/service.go:311-323 | the entries are the order-preserving filter of the name registry's iteration; every one satisfies the predicate; the height is the tip's |
| `Listing.ListUnconfirmedTxs` | vendor/github.com/hyperledger/burrow/rpc/service.go:120-134 | a mempool error is returned unchanged; otherwise `NumTxs` is the number of transactions and the i-th wrapper holds the i-th transaction |
| `Listing.ListValidators` | vendor/github.com/hyperledger/burrow/rpc/service.go:362-375 | the bonded validators are the blockchain's validators one-to-one by index; there are no unbonding validators; the height is the tip's |
| `Subscriptions.HandleMessage` | vendor/github.com/hyperledger/burrow/rpc/service.go:145-155 | an unmappable message keeps the subscription and the callback gets nothing; a mapped one is handed to the callback and its answer is returned; so only the callback can end a subscription |
| `Subscriptions.MalformedMessagesAreSkipped` | vendor/github.com/hyperledger/burrow/rpc/service.go:146-153 | unmappable messages anywhere in the stream, including after delivered events, are dropped without ending delivery: the later messages reach the callback as if they had never arrived |
| `Subscriptions.MalformedRunIsSkipped` | vendor/github.com/hyperledger/burrow/rpc/service.go:146-153 | a run of unmappable messages at the front of the stream contributes no events and does not end delivery |
| `Subscriptions.StopIsFinal` | vendor/github.com/hyperledger/burrow/rpc/service.go:154 | once the callback answers false to an event, it receives no further events |
| `Subscriptions.KeepingCallbackSeesAllMapped` | vendor/github.com/hyperledger/burrow/rpc/service.go:145-155 | a callback that accepts every event the stream maps to receives all of them, in delivery order |
| `Subscriptions.Unsubscribe` | vendor/github.com/hyperledger/burrow/rpc/service.go:158-166 | fails exactly when `UnsubscribeAll` fails, with an error carrying the subscription ID and the bus's error; succeeds otherwise |

## Left out

- `Storage.GetStorage`: requires a key of at most 32 bytes. `LeftPadWord256` is in the `binary` package, which is not part of this model, so its behaviour on longer keys is unknown here.
- `Subscriptions.DeliveredEvents`: models how the bus delivers messages to the wrapper. Messages arrive in order and delivery ends at the first `false`. That is the stop rule the service relies on. The bus itself (`event.SubscribeCallback`, `event.QueryForEventID`, `Subscribable`) is not part of this model. Neither are goroutine delivery and context cancellation.
- `Subscribe` (service.go:136-156) itself: it only builds the query and returns the bus's registration error unchanged. Both are foreign calls. Only the wrapper closure is modelled.
- `Status`, `NetInfo`, `Peers`, `Genesis`, `ChainId`, `GetBlock`, `GetAccount`, `GetName`, `DumpConsensusState`, `Transactor`, `NewService`, `NewSubscribableService`: passthroughs and field assembly with no algorithmic content. This includes Status's rule that height 0 loads no block meta.
- `GeneratePrivateAccount`: key generation in a foreign cryptographic library.
- Logging and `context.Context` plumbing: no effect on results.
- Error message text (`fmt.Errorf`): errors are constructors carrying the address or the subscription ID.
- `NewResultEvent`, `txs.Wrap`, `AsConcreteAccount`, `AsConcreteValidator`: defined elsewhere. The mapper is a parameter. `Wrap` is an envelope. The two conversions are identity copies.
- Interleaved writes during iteration: each store is a snapshot sequence, and the tip height is one argument, so the difference between reading the tip before or after iterating cannot be observed.
- Nil versus empty slices (for example `ListNames` with no match, or `UnbondingValidators`): both are the empty sequence.
- Block metas and transactions are opaque values.
