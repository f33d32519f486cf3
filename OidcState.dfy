/** The anti-forgery `State` of src/State.ts: its defaults, its storage-string
    round trip, and the sweep that deletes stale or unreadable entries from a
    state store. `random()`, the clock (whole seconds) and `JSON.stringify` /
    `JSON.parse` are parameters; `parse` yields None where `JSON.parse` throws. */
module OidcState {
  import opened Wrappers
  import opened Json
  import opened WebStorage

  /** A constructed State. `data` and `requestType` may be `undefined` (None);
      `created` is in seconds. */
  datatype State = State(id: Json, data: Option<Json>, created: int, requestType: Option<Json>)

  /** `new State({id, data, created, request_type})` with `random()` yielding `rnd`
      and the clock at `now`: a falsy or missing id is replaced by `rnd`; a
      `created` that is not a number above 0 is replaced by `now`. */
  function NewState(id: Option<Json>, data: Option<Json>, created: Option<Json>,
                    requestType: Option<Json>, rnd: string, now: int): (s: State)
    ensures Present(id) ==> s.id == id.value
    ensures !Present(id) ==> s.id == JStr(rnd)
    ensures Truthy(s.id) <==> Present(id) || rnd != ""
    ensures forall n :: created == Some(JNum(n)) && n > 0 ==> s.created == n
    ensures !(created.Some? && created.value.JNum? && created.value.n > 0) ==> s.created == now
    ensures s.created > 0 <==> (created.Some? && created.value.JNum? && created.value.n > 0) || now > 0
    ensures s.data == data && s.requestType == requestType
  {
    State(
      if Present(id) then id.value else JStr(rnd),
      data,
      if created.Some? && created.value.JNum? && created.value.n > 0 then created.value.n else now,
      requestType)
  }

  /** A State as `fromStorageString` can reproduce it: a truthy id and a
      positive `created`. */
  predicate WellFormed(s: State) {
    Truthy(s.id) && s.created > 0
  }

  /** The object `toStorageString` hands to `JSON.stringify`: the four fields,
      with an `undefined` one left out as `JSON.stringify` does. */
  function ToJson(s: State): (j: Json)
    ensures j.JObj?
    ensures j.members.Keys == {"id", "created"}
              + (if s.data.Some? then {"data"} else {})
              + (if s.requestType.Some? then {"request_type"} else {})
  {
    var base := map["id" := s.id, "created" := JNum(s.created)];
    var withData := if s.data.Some? then base["data" := s.data.value] else base;
    JObj(if s.requestType.Some? then withData["request_type" := s.requestType.value] else withData)
  }

  /** `toStorageString()`: the JSON text of the four fields, which `JSON.parse`
      reads back as that object. */
  function ToStorageString(s: State, stringify: Json -> string): (r: string)
    ensures forall parse :: JsonCodec(stringify, parse) ==> parse(r) == Some(ToJson(s)) && r != ""
  {
    stringify(ToJson(s))
  }

  /** `new State(value)` on a parsed value: destructuring null throws a TypeError;
      any other value gives its (possibly missing) members to the constructor. */
  function FromJson(j: Json, rnd: string, now: int): (r: Result<State>)
    ensures r.Err? <==> j == JNull
  {
    if j == JNull then Err("TypeError: Cannot destructure null")
    else Ok(NewState(Prop(j, "id"), Prop(j, "data"), Prop(j, "created"), Prop(j, "request_type"), rnd, now))
  }

  /** `State.fromStorageString(text)`: fails where `JSON.parse` throws. */
  function FromStorageString(text: string, parse: string -> Option<Json>, rnd: string, now: int): (r: Result<State>)
    ensures parse(text).None? ==> r.Err?
    ensures parse(text) == Some(JNull) ==> r.Err?
  {
    match parse(text)
    case None => Err("SyntaxError: JSON.parse")
    case Some(j) => FromJson(j, rnd, now)
  }

  /** `JSON.parse` reads back what `JSON.stringify` wrote, and `JSON.stringify`
      of a value never yields the empty string. */
  ghost predicate JsonCodec(stringify: Json -> string, parse: string -> Option<Json>) {
    forall j :: parse(stringify(j)) == Some(j) && stringify(j) != ""
  }

  /** Round trip: a stored well-formed State reads back with the same four fields,
      whatever `random()` and the clock say at reading time. */
  lemma StorageRoundTrip(s: State, stringify: Json -> string, parse: string -> Option<Json>, rnd: string, now: int)
    requires JsonCodec(stringify, parse)
    requires WellFormed(s)
    ensures FromStorageString(ToStorageString(s, stringify), parse, rnd, now) == Ok(s)
  {
    var j := ToJson(s);
    assert parse(stringify(j)) == Some(j);
    assert Prop(j, "id") == Some(s.id);
    assert Prop(j, "created") == Some(JNum(s.created));
    assert Prop(j, "data") == s.data;
    assert Prop(j, "request_type") == s.requestType;
  }

  /** A State built by the constructor with a non-empty `random()` value and a
      positive clock is well formed, so it survives the round trip. */
  lemma ConstructedIsWellFormed(id: Option<Json>, data: Option<Json>, created: Option<Json>,
                                requestType: Option<Json>, rnd: string, now: int)
    requires rnd != "" && now > 0
    ensures WellFormed(NewState(id, data, created, requestType, rnd, now))
  {
  }

  // ---------------------------------------------------------------------------
  // clearStaleState
  // ---------------------------------------------------------------------------

  /** Whether the sweep deletes an entry whose item is `item`: a missing or empty
      item, an item that does not read back as a State, or a State created at or
      before `cutoff`. */
  function ShouldRemove(item: Option<string>, cutoff: int, parse: string -> Option<Json>, rnd: string, now: int): (r: bool)
    ensures item.None? || item.value == "" ==> r
    ensures item.Some? && parse(item.value).None? ==> r
    ensures item.Some? && parse(item.value) == Some(JNull) ==> r
    ensures !r <==> item.Some? && item.value != "" && FromStorageString(item.value, parse, rnd, now).Ok?
                    && FromStorageString(item.value, parse, rnd, now).value.created > cutoff
  {
    if item.None? || item.value == "" then true
    else
      match FromStorageString(item.value, parse, rnd, now)
      case Err(_) => true
      case Ok(s) => s.created <= cutoff
  }

  /** The sweep keeps a stored well-formed State exactly when it was created
      after the cutoff. */
  lemma StoredStateKeptIffFresh(s: State, cutoff: int, stringify: Json -> string,
                                parse: string -> Option<Json>, rnd: string, now: int)
    requires JsonCodec(stringify, parse)
    requires WellFormed(s)
    ensures !ShouldRemove(Some(ToStorageString(s, stringify)), cutoff, parse, rnd, now) <==> s.created > cutoff
  {
    StorageRoundTrip(s, stringify, parse, rnd, now);
  }

  /** Storage keys of the reported keys `ks` whose entries the sweep deletes,
      judged on the items `items` held before the sweep. */
  ghost function Swept(ks: seq<string>, prefix: string, items: map<string, string>, cutoff: int,
                       parse: string -> Option<Json>, rnd: string, now: int): set<string>
  {
    set k | k in ks && ShouldRemove(Lookup(items, prefix + k), cutoff, parse, rnd, now) :: prefix + k
  }

  /** Which entries the sweep deletes, stated on storage keys: exactly the
      non-empty keys under the prefix whose item should be removed. */
  lemma SweptIff(keys: seq<string>, prefix: string, items: map<string, string>, cutoff: int,
                 parse: string -> Option<Json>, rnd: string, now: int, full: string)
    ensures full in Swept(PrefixedKeys(keys, prefix), prefix, items, cutoff, parse, rnd, now)
        <==> full in keys && full != "" && prefix <= full
             && ShouldRemove(Lookup(items, full), cutoff, parse, rnd, now)
  {
    var ks := PrefixedKeys(keys, prefix);
    if prefix <= full {
      var k := full[|prefix|..];
      assert prefix + k == full;
      PrefixedKeysMembers(keys, prefix, k);
    }
    if full in Swept(ks, prefix, items, cutoff, parse, rnd, now) {
      var k :| k in ks && ShouldRemove(Lookup(items, prefix + k), cutoff, parse, rnd, now) && prefix + k == full;
      PrefixedKeysMembers(keys, prefix, k);
      assert full[..|prefix|] == prefix;
    }
  }

  lemma SweptSnoc(ks: seq<string>, k: string, prefix: string, items: map<string, string>, cutoff: int,
                  parse: string -> Option<Json>, rnd: string, now: int)
    ensures Swept(ks + [k], prefix, items, cutoff, parse, rnd, now)
         == Swept(ks, prefix, items, cutoff, parse, rnd, now)
            + (if ShouldRemove(Lookup(items, prefix + k), cutoff, parse, rnd, now) then {prefix + k} else {})
  {
  }

  lemma MapMinusTwice(m: map<string, string>, a: set<string>, b: set<string>)
    ensures (m - a) - b == m - (a + b)
  {
  }

  lemma PrefixInjective(prefix: string, a: string, b: string)
    requires prefix + a == prefix + b
    ensures a == b
  {
    assert (prefix + a)[|prefix|..] == a;
    assert (prefix + b)[|prefix|..] == b;
  }

  /** A key not yet visited has not been swept: reported keys are distinct. */
  lemma NotYetSwept(keys: seq<string>, i: nat, prefix: string, items: map<string, string>, cutoff: int,
                    parse: string -> Option<Json>, rnd: string, now: int)
    requires Distinct(keys) && i < |keys|
    ensures prefix + keys[i] !in Swept(keys[..i], prefix, items, cutoff, parse, rnd, now)
  {
    if prefix + keys[i] in Swept(keys[..i], prefix, items, cutoff, parse, rnd, now) {
      var k :| k in keys[..i] && prefix + k == prefix + keys[i];
      PrefixInjective(prefix, k, keys[i]);
      assert false;
    }
  }

  /** One step of the sweep: the entry of the next key is as it was before the
      sweep, and it leaves the swept set exactly when it should be removed. */
  lemma SweepStep(keys: seq<string>, i: nat, prefix: string, items0: map<string, string>, cutoff: int,
                  parse: string -> Option<Json>, rnd: string, now: int)
    requires Distinct(keys) && i < |keys|
    ensures var before := items0 - Swept(keys[..i], prefix, items0, cutoff, parse, rnd, now);
            && Lookup(before, prefix + keys[i]) == Lookup(items0, prefix + keys[i])
            && items0 - Swept(keys[..i + 1], prefix, items0, cutoff, parse, rnd, now)
               == if ShouldRemove(Lookup(items0, prefix + keys[i]), cutoff, parse, rnd, now)
                  then before - {prefix + keys[i]} else before
  {
    var done := Swept(keys[..i], prefix, items0, cutoff, parse, rnd, now);
    NotYetSwept(keys, i, prefix, items0, cutoff, parse, rnd, now);
    assert keys[..i + 1] == keys[..i] + [keys[i]];
    SweptSnoc(keys[..i], keys[i], prefix, items0, cutoff, parse, rnd, now);
    MapMinusTwice(items0, done, {prefix + keys[i]});
  }

  /** The per-key decision of the sweep, as the source takes it: a falsy item is
      removed; otherwise the item is read back, and a read that throws or a State
      created at or before the cutoff is removed. */
  method DecideRemoval(item: Option<string>, cutoff: int, parse: string -> Option<Json>, rnd: string, now: int)
    returns (remove: bool)
    ensures remove == ShouldRemove(item, cutoff, parse, rnd, now)
  {
    remove := false;
    if item.Some? && item.value != "" {
      var state := FromStorageString(item.value, parse, rnd, now);
      if state.Err? {
        remove := true;
      } else if state.value.created <= cutoff {
        remove := true;
      }
    } else {
      remove := true;
    }
  }

  /** One turn of the sweep: reads the `i`-th reported key's item and removes the
      entry when it is stale, so one more key has been swept. */
  method SweepKey(storage: StateStore, keys: seq<string>, i: nat, ghost items0: map<string, string>,
                  ghost order0: seq<string>, cutoff: int, parse: string -> Option<Json>, rnd: string, now: int)
    requires storage.Valid()
    requires Distinct(keys) && i < |keys|
    requires storage.store.items == items0 - Swept(keys[..i], storage.prefix, items0, cutoff, parse, rnd, now)
    requires storage.store.keys == Without(order0, Swept(keys[..i], storage.prefix, items0, cutoff, parse, rnd, now))
    modifies storage.store
    ensures storage.Valid()
    ensures storage.store.items == items0 - Swept(keys[..i + 1], storage.prefix, items0, cutoff, parse, rnd, now)
    ensures storage.store.keys == Without(order0, Swept(keys[..i + 1], storage.prefix, items0, cutoff, parse, rnd, now))
  {
    var key := keys[i];
    var item := storage.Get(key);
    SweepStep(keys, i, storage.prefix, items0, cutoff, parse, rnd, now);
    ghost var done := Swept(keys[..i], storage.prefix, items0, cutoff, parse, rnd, now);
    assert keys[..i + 1] == keys[..i] + [keys[i]];
    SweptSnoc(keys[..i], keys[i], storage.prefix, items0, cutoff, parse, rnd, now);
    var remove := DecideRemoval(item, cutoff, parse, rnd, now);
    if remove {
      var _ := storage.Remove(key);
      WithoutTwice(order0, done, {storage.prefix + key});
      assert Swept(keys[..i + 1], storage.prefix, items0, cutoff, parse, rnd, now) == done + {storage.prefix + key};
    } else {
      assert Swept(keys[..i + 1], storage.prefix, items0, cutoff, parse, rnd, now) == done;
    }
  }

  /** `State.clearStaleState(storage, age)` with the clock at `now`: visits each
      reported key once, in order, and deletes exactly the entries `Swept`
      names; every other entry keeps its item. */
  method ClearStaleState(storage: StateStore, age: int, now: int, parse: string -> Option<Json>, rnd: string)
    requires storage.Valid()
    modifies storage.store
    ensures storage.Valid()
    ensures storage.store.items
         == old(storage.store.items)
            - Swept(PrefixedKeys(old(storage.store.keys), storage.prefix), storage.prefix,
                    old(storage.store.items), now - age, parse, rnd, now)
    ensures storage.store.keys
         == Without(old(storage.store.keys),
                    Swept(PrefixedKeys(old(storage.store.keys), storage.prefix), storage.prefix,
                          old(storage.store.items), now - age, parse, rnd, now))
  {
    var keys := storage.GetAllKeys();
    SweepAll(storage, keys, now - age, parse, rnd, now);
  }

  /** The loop of `clearStaleState` over the keys `keys` the store reports. */
  method SweepAll(storage: StateStore, keys: seq<string>, cutoff: int, parse: string -> Option<Json>, rnd: string, now: int)
    requires storage.Valid()
    requires keys == PrefixedKeys(storage.store.keys, storage.prefix)
    modifies storage.store
    ensures storage.Valid()
    ensures storage.store.items
         == old(storage.store.items)
            - Swept(PrefixedKeys(old(storage.store.keys), storage.prefix), storage.prefix,
                    old(storage.store.items), cutoff, parse, rnd, now)
    ensures storage.store.keys
         == Without(old(storage.store.keys),
                    Swept(PrefixedKeys(old(storage.store.keys), storage.prefix), storage.prefix,
                          old(storage.store.items), cutoff, parse, rnd, now))
  {
    ghost var items0, order0 := storage.store.items, storage.store.keys;
    PrefixedKeysDistinct(order0, storage.prefix);
    WithoutNothing(order0);
    assert Swept(keys[..0], storage.prefix, items0, cutoff, parse, rnd, now) == {};
    var i := 0;
    while i < |keys|
      invariant 0 <= i <= |keys|
      invariant storage.Valid()
      invariant storage.store.items == items0 - Swept(keys[..i], storage.prefix, items0, cutoff, parse, rnd, now)
      invariant storage.store.keys == Without(order0, Swept(keys[..i], storage.prefix, items0, cutoff, parse, rnd, now))
    {
      SweepKey(storage, keys, i, items0, order0, cutoff, parse, rnd, now);
      i := i + 1;
    }
    assert keys[..i] == keys;
  }
}
