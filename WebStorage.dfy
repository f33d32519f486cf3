/** The prefixed state store of src/WebStorageStateStore.ts over a model of the
    browser's Web Storage object (`localStorage` / `sessionStorage`). */
module WebStorage {
  import opened Wrappers

  predicate Distinct(s: seq<string>) {
    forall i, j :: 0 <= i < j < |s| ==> s[i] != s[j]
  }

  /** `s` without the elements of `gone`, order kept. */
  function Without(s: seq<string>, gone: set<string>): (r: seq<string>)
    ensures |r| <= |s|
  {
    if s == [] then []
    else if s[0] in gone then Without(s[1..], gone)
    else [s[0]] + Without(s[1..], gone)
  }

  /** `Without` keeps exactly the elements not in `gone`, and keeps them distinct. */
  lemma {:induction false} WithoutMembers(s: seq<string>, gone: set<string>)
    ensures forall x :: x in Without(s, gone) <==> x in s && x !in gone
    ensures Distinct(s) ==> Distinct(Without(s, gone))
  {
    if s != [] {
      WithoutMembers(s[1..], gone);
      if s[0] !in gone && Distinct(s) {
        var r := Without(s, gone);
        assert r == [s[0]] + Without(s[1..], gone);
        assert s[0] !in s[1..];
        assert Distinct(s[1..]);
        forall i, j | 0 <= i < j < |r| ensures r[i] != r[j] {
          if i == 0 {
            assert r[j] in Without(s[1..], gone);
          }
        }
      }
    }
  }

  lemma {:induction false} WithoutTwice(s: seq<string>, a: set<string>, b: set<string>)
    ensures Without(Without(s, a), b) == Without(s, a + b)
  {
    if s != [] {
      WithoutTwice(s[1..], a, b);
      if s[0] !in a {
        assert Without(s, a) == [s[0]] + Without(s[1..], a);
        assert Without(s, a)[1..] == Without(s[1..], a);
      }
    }
  }

  /** Removing no key leaves the keys as they are. */
  lemma {:induction false} WithoutNothing(s: seq<string>)
    ensures Without(s, {}) == s
  {
    if s != [] {
      WithoutNothing(s[1..]);
    }
  }

  /** The Web Storage object the store writes to: its items, and its keys in the
      order `key(index)` reports them (a new key is appended, an existing key keeps
      its place, a removed key leaves the sequence). */
  class Storage {
    var keys: seq<string>
    var items: map<string, string>

    ghost predicate Valid()
      reads this
    {
      Distinct(keys) && forall k :: k in items <==> k in keys
    }

    constructor ()
      ensures Valid() && keys == [] && items == map[]
    {
      keys := [];
      items := map[];
    }

    /** `getItem(k)`: the item, or null. */
    method GetItem(k: string) returns (v: Option<string>)
      ensures v == Lookup(items, k)
    {
      v := Lookup(items, k);
    }

    /** `key(index)`: the key at `index`, or null out of range. */
    method Key(index: int) returns (k: Option<string>)
      ensures k.Some? <==> 0 <= index < |keys|
      ensures k.Some? ==> k.value == keys[index]
    {
      if 0 <= index < |keys| {
        k := Some(keys[index]);
      } else {
        k := None;
      }
    }

    method SetItem(k: string, v: string)
      requires Valid()
      modifies this
      ensures Valid()
      ensures items == old(items)[k := v]
      ensures keys == if k in old(keys) then old(keys) else old(keys) + [k]
    {
      if k !in keys {
        keys := keys + [k];
      }
      items := items[k := v];
    }

    method RemoveItem(k: string)
      requires Valid()
      modifies this
      ensures Valid()
      ensures items == old(items) - {k}
      ensures keys == Without(old(keys), {k})
    {
      WithoutMembers(keys, {k});
      keys := Without(keys, {k});
      items := items - {k};
    }
  }

  /** The keys `getAllKeys` reports for the storage keys `ks`: each non-empty key
      that starts with `prefix`, with the prefix cut off, in storage order. */
  function PrefixedKeys(ks: seq<string>, prefix: string): seq<string> {
    if ks == [] then []
    else
      var k := ks[0];
      var rest := PrefixedKeys(ks[1..], prefix);
      if k != "" && prefix <= k then [k[|prefix|..]] + rest else rest
  }

  /** `getAllKeys` reports exactly the stored keys under the prefix, stripped. */
  lemma {:induction false} PrefixedKeysMembers(ks: seq<string>, prefix: string, k: string)
    ensures k in PrefixedKeys(ks, prefix) <==> prefix + k in ks && prefix + k != ""
  {
    if ks != [] {
      PrefixedKeysMembers(ks[1..], prefix, k);
      var h := ks[0];
      if h != "" && prefix <= h {
        assert h == prefix + h[|prefix|..];
        if k == h[|prefix|..] {
          assert prefix + k == h;
        }
      }
      if prefix + k == h {
        assert (prefix + k)[|prefix|..] == k;
      }
    }
  }

  /** The reported keys keep storage order: the keys of a concatenation are the
      keys of each part, one after the other. */
  lemma {:induction false} PrefixedKeysAppend(a: seq<string>, b: seq<string>, prefix: string)
    ensures PrefixedKeys(a + b, prefix) == PrefixedKeys(a, prefix) + PrefixedKeys(b, prefix)
  {
    if a == [] {
      assert a + b == b;
    } else {
      assert (a + b)[0] == a[0];
      assert (a + b)[1..] == a[1..] + b;
      PrefixedKeysAppend(a[1..], b, prefix);
    }
  }

  /** Distinct storage keys give distinct reported keys. */
  lemma {:induction false} PrefixedKeysDistinct(ks: seq<string>, prefix: string)
    requires Distinct(ks)
    ensures Distinct(PrefixedKeys(ks, prefix))
  {
    if ks != [] {
      PrefixedKeysDistinct(ks[1..], prefix);
      var h := ks[0];
      if h != "" && prefix <= h {
        var k := h[|prefix|..];
        assert prefix + k == h;
        assert h !in ks[1..];
        PrefixedKeysMembers(ks[1..], prefix, k);
      }
    }
  }

  /** WebStorageStateStore: every key the caller names is stored as `prefix + key`. */
  class StateStore {
    const prefix: string
    const store: Storage

    ghost predicate Valid()
      reads this, store
    {
      store.Valid()
    }

    /** `new WebStorageStateStore({prefix, store})`: the prefix defaults to "oidc."
        when it is not given. */
    constructor (prefix: Option<string>, store: Storage)
      ensures this.prefix == if prefix.Some? then prefix.value else "oidc."
      ensures this.store == store
    {
      this.prefix := if prefix.Some? then prefix.value else "oidc.";
      this.store := store;
    }

    method Set(key: string, value: string)
      requires Valid()
      modifies store
      ensures Valid()
      ensures store.items == old(store.items)[prefix + key := value]
      ensures store.keys == if prefix + key in old(store.keys) then old(store.keys) else old(store.keys) + [prefix + key]
    {
      var k := prefix + key;
      store.SetItem(k, value);
    }

    method Get(key: string) returns (item: Option<string>)
      ensures item == Lookup(store.items, prefix + key)
    {
      var k := prefix + key;
      item := store.GetItem(k);
    }

    method Remove(key: string) returns (item: Option<string>)
      requires Valid()
      modifies store
      ensures Valid()
      ensures item == Lookup(old(store.items), prefix + key)
      ensures store.items == old(store.items) - {prefix + key}
      ensures store.keys == Without(old(store.keys), {prefix + key})
    {
      var k := prefix + key;
      item := store.GetItem(k);
      store.RemoveItem(k);
    }

    method GetAllKeys() returns (keys: seq<string>)
      ensures keys == PrefixedKeys(store.keys, prefix)
    {
      keys := [];
      var index := 0;
      while index < |store.keys|
        invariant 0 <= index <= |store.keys|
        invariant keys + PrefixedKeys(store.keys[index..], prefix) == PrefixedKeys(store.keys, prefix)
      {
        var key := store.Key(index);
        assert store.keys[index..][1..] == store.keys[index + 1..];
        if key.value != "" && prefix <= key.value {
          keys := keys + [key.value[|prefix|..]];
        }
        index := index + 1;
      }
    }

    /** `get(k)` after `set(k, v)` yields `v`, and other keys keep their items. */
    method SetThenGet(key: string, value: string, other: string) returns (got: Option<string>, otherGot: Option<string>)
      requires Valid()
      requires other != key
      modifies store
      ensures got == Some(value)
      ensures otherGot == Lookup(old(store.items), prefix + other)
    {
      Set(key, value);
      got := Get(key);
      assert prefix + other != prefix + key by {
        assert (prefix + other)[|prefix|..] == other;
        assert (prefix + key)[|prefix|..] == key;
      }
      otherGot := Get(other);
    }
  }
}
