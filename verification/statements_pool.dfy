/** The pool of prepared statements per key: a dictionary whose lookup of
    a missing key creates an empty list for it, provided the key is truthy. */
module StatementsPool {
  import opened Errors

  /** `pool[item]` on the dictionary's contents: the value looked up and the
      contents afterwards. A present key is returned as stored; a missing
      truthy key gets an empty list, which is returned; a missing falsy key
      inserts nothing and the second lookup raises KeyError. */
  function Lookup<K, V>(entries: map<K, seq<V>>, item: K, truthy: bool): (r: (Result<seq<V>>, map<K, seq<V>>))
    ensures item in entries ==> r == (Success(entries[item]), entries)
    ensures item !in entries && truthy ==> r == (Success([]), entries[item := []])
    ensures item !in entries && !truthy ==> r == (Failure(KeyError), entries)
  {
    if item in entries then (Success(entries[item]), entries)
    else
      var after := if truthy then entries[item := []] else entries;
      if item in after then (Success(after[item]), after) else (Failure(KeyError), after)
  }

  /** A lookup touches no other key: every other key is present afterwards
      exactly when it was before, with the same list. */
  lemma LookupKeepsOtherKeys<K, V>(entries: map<K, seq<V>>, item: K, truthy: bool, other: K)
    requires other != item
    ensures var after := Lookup(entries, item, truthy).1;
      (other in after <==> other in entries) && (other in entries ==> after[other] == entries[other])
  {
  }

  /** The returned list is the one stored under the key afterwards, and a
      successful lookup leaves the key present. */
  lemma LookupReturnsStored<K, V>(entries: map<K, seq<V>>, item: K, truthy: bool)
    ensures var (r, after) := Lookup(entries, item, truthy);
      r.Success? <==> item in after
    ensures var (r, after) := Lookup(entries, item, truthy);
      r.Success? ==> after[item] == r.value
  {
  }

  /** Looking the same key up again changes nothing and returns the same
      list: an existing list is never reset. */
  lemma LookupIdempotent<K, V>(entries: map<K, seq<V>>, item: K, truthy: bool)
    ensures var (r, after) := Lookup(entries, item, truthy);
      Lookup(after, item, truthy) == (r, after)
  {
  }

  /** Lookups never remove or change a stored list: the keys afterwards are
      the keys before plus some of the truthy keys looked up, and every list
      stored before is still stored. */
  lemma {:induction false} LookupsOnlyGrow<K, V>(entries: map<K, seq<V>>, items: seq<(K, bool)>)
    ensures entries.Keys <= Replay(entries, items).Keys
    ensures Replay(entries, items).Keys <= entries.Keys + TruthyKeys(items)
    ensures forall k | k in entries :: Replay(entries, items)[k] == entries[k]
    decreases |items|
  {
    if items != [] {
      LookupsOnlyGrow(Lookup(entries, items[0].0, items[0].1).1, items[1..]);
    }
  }

  /** The keys given as truthy in a series of lookups. */
  function TruthyKeys<K>(items: seq<(K, bool)>): set<K>
    decreases |items|
  {
    if items == [] then {}
    else (if items[0].1 then {items[0].0} else {}) + TruthyKeys(items[1..])
  }

  /** The contents after a series of lookups, each given with its key's
      truthiness. */
  function Replay<K, V>(entries: map<K, seq<V>>, items: seq<(K, bool)>): map<K, seq<V>>
    decreases |items|
  {
    if items == [] then entries
    else Replay(Lookup(entries, items[0].0, items[0].1).1, items[1..])
  }

  /** The pool object. Keys are held weakly in the source; here an entry
      stays until the pool is dropped. */
  class Pool<K(==), V> {
    var entries: map<K, seq<V>>

    /** The module-level pool starts empty. */
    constructor ()
      ensures entries == map[]
    {
      entries := map[];
    }

    /** `__getitem__(item)`: the lookup with insertion on a miss; `truthy`
        is the truthiness of the item. */
    method GetItem(item: K, truthy: bool) returns (r: Result<seq<V>>)
      modifies this
      ensures (r, entries) == Lookup(old(entries), item, truthy)
    {
      if item in entries {
        return Success(entries[item]);
      }
      if truthy {
        entries := entries[item := []];
      }
      if item in entries {
        r := Success(entries[item]);
      } else {
        r := Failure(KeyError);
      }
    }
  }
}
