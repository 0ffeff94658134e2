/** The credential store: generic-password keychain items keyed by account name. */
module KeychainHelper {
  import opened Wrappers

  /** The keychain's generic-password items: account name to stored text. */
  type Items = map<string, string>

  /** The status codes the two Security framework calls return. */
  datatype Status = Success | DuplicateItem | ItemNotFound

  /** `SecItemDelete` on a query scoped by account: removes that account's item if there is one. */
  function SecItemDelete(items: Items, account: string): (r: (Items, Status))
    ensures r.0 == items - {account}
    ensures r.1 == (if account in items then Success else ItemNotFound)
  {
    if account in items then (items - {account}, Success) else (items, ItemNotFound)
  }

  /** `SecItemAdd`: adds an item only when the account has none; it never overwrites. */
  function SecItemAdd(items: Items, account: string, value: string): (r: (Items, Status))
    ensures account in items ==> r == (items, DuplicateItem)
    ensures account !in items ==> r == (items[account := value], Success)
  {
    if account in items then (items, DuplicateItem) else (items[account := value], Success)
  }

  /** The store after `save(key, value)`: delete, then add. The add cannot meet a duplicate,
      so the net effect is an overwrite of `key` and nothing else. */
  function Saved(items: Items, key: string, value: string): (r: Items)
    ensures r == items[key := value]
  {
    var (cleared, _) := SecItemDelete(items, key);
    var (added, _) := SecItemAdd(cleared, key, value);
    added
  }

  /** The store after `delete(key)`; the status is ignored. */
  function Deleted(items: Items, key: string): (r: Items)
    ensures r == items - {key}
  {
    SecItemDelete(items, key).0
  }

  /** What `read(key)` returns. */
  function Lookup(items: Items, key: string): (r: Option<string>)
    ensures r.Some? <==> key in items
    ensures r.Some? ==> items[key] == r.value
  {
    if key in items then Some(items[key]) else None
  }

  /** The store after the saves `ops`, in order. */
  function SaveAll(items: Items, ops: seq<(string, string)>): Items
    decreases |ops|
  {
    if ops == [] then items else SaveAll(Saved(items, ops[0].0, ops[0].1), ops[1..])
  }

  // ---------------------------------------------------------------------------
  // Store contract

  lemma ReadAfterSave(items: Items, key: string, value: string)
    ensures Lookup(Saved(items, key, value), key) == Some(value)
  {
  }

  lemma SaveOverwrites(items: Items, key: string, v1: string, v2: string)
    ensures Saved(Saved(items, key, v1), key, v2) == Saved(items, key, v2)
  {
  }

  lemma SaveIdempotent(items: Items, key: string, value: string)
    ensures Saved(Saved(items, key, value), key, value) == Saved(items, key, value)
  {
  }

  lemma SaveKeepsOtherKeys(items: Items, key: string, value: string, other: string)
    requires other != key
    ensures Lookup(Saved(items, key, value), other) == Lookup(items, other)
  {
  }

  lemma ReadAfterDelete(items: Items, key: string, other: string)
    ensures Lookup(Deleted(items, key), key) == None
    ensures other != key ==> Lookup(Deleted(items, key), other) == Lookup(items, other)
  {
  }

  /** Deleting an absent key leaves the store as it was; the call reports "not found", which is ignored. */
  lemma DeleteAbsentIsNoOp(items: Items, key: string)
    requires key !in items
    ensures Deleted(items, key) == items
    ensures SecItemDelete(items, key).1 == ItemNotFound
  {
  }

  /** Saves of other keys leave a key's lookup as it was; from an empty store it stays absent. */
  lemma {:induction false} ReadNeverSaved(items: Items, ops: seq<(string, string)>, key: string)
    requires forall i :: 0 <= i < |ops| ==> ops[i].0 != key
    ensures Lookup(SaveAll(items, ops), key) == Lookup(items, key)
    ensures items == map[] ==> Lookup(SaveAll(items, ops), key) == None
    decreases |ops|
  {
    if ops != [] {
      ReadNeverSaved(Saved(items, ops[0].0, ops[0].1), ops[1..], key);
    }
  }

  /** The process-wide keychain, updated in place by `save` and `delete`. */
  class Keychain {
    var items: Items

    constructor ()
      ensures items == map[]
    {
      items := map[];
    }

    method Save(key: string, value: string)
      modifies this
      ensures items == Saved(old(items), key, value)
    {
      var (cleared, _) := SecItemDelete(items, key);
      items := cleared;
      var (added, _) := SecItemAdd(items, key, value);
      items := added;
    }

    method Read(key: string) returns (r: Option<string>)
      ensures r == Lookup(items, key)
      ensures r.Some? <==> key in items
    {
      if key in items {
        r := Some(items[key]);
      } else {
        r := None;
      }
    }

    method Delete(key: string)
      modifies this
      ensures items == Deleted(old(items), key)
    {
      var (cleared, _) := SecItemDelete(items, key);
      items := cleared;
    }
  }
}
