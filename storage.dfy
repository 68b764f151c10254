/** `GetStorage` and `DumpStorage`: reading an account's storage words. */
module Storage {
  import opened Wrappers
  import opened Binary
  import opened RpcTypes

  datatype ResultGetStorage = ResultGetStorage(key: seq<byte>, value: Option<seq<byte>>)

  datatype StorageItem = StorageItem(key: seq<byte>, value: seq<byte>)

  datatype ResultDumpStorage = ResultDumpStorage(storageRoot: seq<byte>, storageItems: seq<StorageItem>)

  /** The account looked up, when the state store found one. */
  predicate AccountFound(state: StateStore, address: Address) {
    state.getAccount(address).Success? && state.getAccount(address).value.Some?
  }

  /** `GetStorage`: look the account up, read the slot at the left-padded key, and return
      nil for the all-zero word or the word without its leading zero bytes otherwise. */
  function GetStorage(state: StateStore, address: Address, key: seq<byte>): (r: Result<ResultGetStorage, Error>)
    requires |key| <= Word256Length
    ensures state.getAccount(address).Failure? ==> r == Failure(state.getAccount(address).error)
    ensures state.getAccount(address) == Success(None) ==> r == Failure(UnknownAddress(address))
    ensures AccountFound(state, address) && state.getStorage(address, LeftPadWord256(key)).Failure? ==>
      r == Failure(state.getStorage(address, LeftPadWord256(key)).error)
    ensures r.Success? <==> AccountFound(state, address) && state.getStorage(address, LeftPadWord256(key)).Success?
    ensures r.Success? ==> r.value.key == key
    ensures r.Success? ==>
      var stored := state.getStorage(address, LeftPadWord256(key)).value;
      && (r.value.value.None? <==> stored == Zero256)
      && (r.value.value.Some? ==>
            var v := r.value.value.value;
            v != [] && v[0] != 0 && |v| <= Word256Length && LeftPadWord256(v) == stored)
  {
    match state.getAccount(address)
    case Failure(e) => Failure(e)
    case Success(None) => Failure(UnknownAddress(address))
    case Success(Some(_)) =>
      match state.getStorage(address, LeftPadWord256(key))
      case Failure(e) => Failure(e)
      case Success(value) =>
        if value == Zero256 then
          Success(ResultGetStorage(key, None))
        else
          UnpadLeftShape(value);
          LeftPadUnpadLeft(value);
          UnpadLeftEmpty(value);
          Success(ResultGetStorage(key, Some(UnpadLeft(value))))
  }

  /** Without an account the storage is never read: the answer does not depend on the
      store's storage lookup at all. */
  lemma GetStorageSkipsStorageWithoutAccount(state: StateStore, other: StateStore, address: Address, key: seq<byte>)
    requires |key| <= Word256Length
    requires other.getAccount == state.getAccount
    requires !AccountFound(state, address)
    ensures GetStorage(state, address, key) == GetStorage(other, address, key)
    ensures GetStorage(state, address, key).Failure?
  {
  }

  /** The items `DumpStorage` reports for the iterated pairs: both halves unpadded. */
  function UnpadItems(pairs: seq<(Word256, Word256)>): (items: seq<StorageItem>)
  {
    seq(|pairs|, i requires 0 <= i < |pairs| => StorageItem(UnpadLeft(pairs[i].0), UnpadLeft(pairs[i].1)))
  }

  /** `DumpStorage`: look the account up, then append one unpadded item per pair the
      storage iteration visits (zero values included) and report the storage root. */
  method DumpStorage(state: StateStore, address: Address) returns (r: Result<ResultDumpStorage, Error>)
    ensures state.getAccount(address).Failure? ==> r == Failure(state.getAccount(address).error)
    ensures state.getAccount(address) == Success(None) ==> r == Failure(UnknownAddress(address))
    ensures AccountFound(state, address) ==>
      r == Success(ResultDumpStorage(state.getAccount(address).value.value.storageRoot,
                                     UnpadItems(state.storage(address))))
  {
    var found := state.getAccount(address);
    if found.Failure? {
      return Failure(found.error);
    }
    if found.value.None? {
      return Failure(UnknownAddress(address));
    }
    var account := found.value.value;
    var pairs := state.storage(address);
    var storageItems: seq<StorageItem> := [];
    for i := 0 to |pairs|
      invariant storageItems == UnpadItems(pairs[..i])
    {
      assert pairs[..i + 1] == pairs[..i] + [pairs[i]];
      storageItems := storageItems + [StorageItem(UnpadLeft(pairs[i].0), UnpadLeft(pairs[i].1))];
    }
    assert pairs[..|pairs|] == pairs;
    r := Success(ResultDumpStorage(account.storageRoot, storageItems));
  }

  /** The dump is lossless and keeps zero slots: one item per pair in iteration order,
      and left-padding an item's key and value gives back the stored words; an item's
      value is empty exactly when the stored word is zero. */
  lemma DumpStorageLossless(pairs: seq<(Word256, Word256)>)
    ensures |UnpadItems(pairs)| == |pairs|
    ensures forall i :: 0 <= i < |pairs| ==>
      && |UnpadItems(pairs)[i].key| <= Word256Length
      && |UnpadItems(pairs)[i].value| <= Word256Length
      && LeftPadWord256(UnpadItems(pairs)[i].key) == pairs[i].0
      && LeftPadWord256(UnpadItems(pairs)[i].value) == pairs[i].1
      && (UnpadItems(pairs)[i].value == [] <==> pairs[i].1 == Zero256)
  {
    forall i | 0 <= i < |pairs|
      ensures |UnpadItems(pairs)[i].key| <= Word256Length
      ensures |UnpadItems(pairs)[i].value| <= Word256Length
      ensures LeftPadWord256(UnpadItems(pairs)[i].key) == pairs[i].0
      ensures LeftPadWord256(UnpadItems(pairs)[i].value) == pairs[i].1
      ensures UnpadItems(pairs)[i].value == [] <==> pairs[i].1 == Zero256
    {
      LeftPadUnpadLeft(pairs[i].0);
      LeftPadUnpadLeft(pairs[i].1);
      UnpadLeftEmpty(pairs[i].1);
    }
  }

  /** When the store's lookup and its iteration agree on a slot, `GetStorage` returns the
      value `DumpStorage` reports for it, except that a zero slot is nil rather than empty. */
  lemma GetStorageAgreesWithDump(state: StateStore, address: Address, key: seq<byte>, i: int)
    requires |key| <= Word256Length
    requires AccountFound(state, address)
    requires 0 <= i < |state.storage(address)|
    requires state.storage(address)[i].0 == LeftPadWord256(key)
    requires state.getStorage(address, LeftPadWord256(key)) == Success(state.storage(address)[i].1)
    ensures GetStorage(state, address, key).Success?
    ensures GetStorage(state, address, key).value.value ==
      if UnpadItems(state.storage(address))[i].value == [] then None
      else Some(UnpadItems(state.storage(address))[i].value)
  {
    UnpadLeftEmpty(state.storage(address)[i].1);
  }
}
