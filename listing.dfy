/** The list operations: `ListAccounts`, `ListNames`, `ListUnconfirmedTxs` and
    `ListValidators`. */
module Listing {
  import opened Wrappers
  import opened Integers
  import opened Binary
  import opened RpcTypes
  import opened Filtering

  datatype ResultListAccounts = ResultListAccounts(blockHeight: uint64, accounts: seq<Account>)

  datatype ResultListNames = ResultListNames(blockHeight: uint64, names: seq<NameRegEntry>)

  /** A mempool transaction, opaque bytes. */
  type Tx = seq<byte>

  /** `txs.Wrapper`, the envelope `txs.Wrap` puts around one transaction. */
  datatype TxWrapper = Wrap(tx: Tx)

  datatype ResultListUnconfirmedTxs = ResultListUnconfirmedTxs(numTxs: int, txs: seq<TxWrapper>)

  /** A bonded validator as `Blockchain.Validators` reports it (`AsConcreteValidator`
      copies it). */
  datatype Validator = Validator(address: Address, publicKey: seq<byte>, power: uint64)

  datatype ResultListValidators = ResultListValidators(
    blockHeight: uint64,
    bondedValidators: seq<Validator>,
    unbondingValidators: seq<Validator>)

  /** `ListAccounts`: iterate every account (the callback never asks to stop), append
      those the predicate accepts, and stamp the tip's last block height. */
  method ListAccounts(state: StateStore, accept: Account -> bool, tipHeight: uint64)
    returns (r: ResultListAccounts)
    ensures r.accounts == Filter(state.accounts, accept)
    ensures forall i :: 0 <= i < |r.accounts| ==> accept(r.accounts[i])
    ensures r.blockHeight == tipHeight
  {
    var all := state.accounts;
    var accounts: seq<Account> := [];
    for i := 0 to |all|
      invariant accounts == Filter(all[..i], accept)
    {
      assert all[..i + 1] == all[..i] + [all[i]];
      FilterSnoc(all[..i], all[i], accept);
      if accept(all[i]) {
        accounts := accounts + [all[i]];
      }
    }
    assert all[..|all|] == all;
    FilterMembers(all, accept);
    r := ResultListAccounts(tipHeight, accounts);
  }

  /** `ListNames`: the same iterate-and-filter over the name registry's entries. */
  method ListNames(entries: seq<NameRegEntry>, accept: NameRegEntry -> bool, tipHeight: uint64)
    returns (r: ResultListNames)
    ensures r.names == Filter(entries, accept)
    ensures forall i :: 0 <= i < |r.names| ==> accept(r.names[i])
    ensures r.blockHeight == tipHeight
  {
    var names: seq<NameRegEntry> := [];
    for i := 0 to |entries|
      invariant names == Filter(entries[..i], accept)
    {
      assert entries[..i + 1] == entries[..i] + [entries[i]];
      FilterSnoc(entries[..i], entries[i], accept);
      if accept(entries[i]) {
        names := names + [entries[i]];
      }
    }
    assert entries[..|entries|] == entries;
    FilterMembers(entries, accept);
    r := ResultListNames(tipHeight, names);
  }

  /** Every account that the iteration visits and the predicate accepts is listed, and
      nothing else is. */
  lemma ListAccountsExact(state: StateStore, accept: Account -> bool, a: Account)
    ensures a in Filter(state.accounts, accept) <==> a in state.accounts && accept(a)
  {
    FilterMembers(state.accounts, accept);
  }

  /** `ListUnconfirmedTxs`: ask the mempool for up to `maxTxs` transactions (a negative
      count means all), fail with its error, or wrap each transaction into a
      preallocated array by index. */
  method ListUnconfirmedTxs(maxTxs: int, mempool: int -> Result<seq<Tx>, Error>)
    returns (r: Result<ResultListUnconfirmedTxs, Error>)
    ensures mempool(maxTxs).Failure? ==> r == Failure(mempool(maxTxs).error)
    ensures mempool(maxTxs).Success? ==>
      var transactions := mempool(maxTxs).value;
      && r.Success?
      && r.value.numTxs == |r.value.txs| == |transactions|
      && forall i :: 0 <= i < |transactions| ==> r.value.txs[i].tx == transactions[i]
  {
    var fetched := mempool(maxTxs);
    if fetched.Failure? {
      return Failure(fetched.error);
    }
    var transactions := fetched.value;
    var wrappedTxs := new TxWrapper[|transactions|];
    for i := 0 to |transactions|
      invariant forall j :: 0 <= j < i ==> wrappedTxs[j] == Wrap(transactions[j])
    {
      wrappedTxs[i] := Wrap(transactions[i]);
    }
    r := Success(ResultListUnconfirmedTxs(|transactions|, wrappedTxs[..]));
  }

  /** `ListValidators`: copy the bonded set by index, report no unbonding validators, and
      stamp the tip's last block height. */
  method ListValidators(validators: seq<Validator>, tipHeight: uint64) returns (r: ResultListValidators)
    ensures r.bondedValidators == validators
    ensures r.unbondingValidators == []
    ensures r.blockHeight == tipHeight
  {
    var concreteValidators := new Validator[|validators|];
    for i := 0 to |validators|
      invariant forall j :: 0 <= j < i ==> concreteValidators[j] == validators[j]
    {
      concreteValidators[i] := validators[i];
    }
    r := ResultListValidators(tipHeight, concreteValidators[..], []);
  }
}
