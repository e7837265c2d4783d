/** The dynamic reducer manager (`getReducerManager`) and its reference-counted wrapper
    (`getRefCountedReducerManager`).

    A reducer is an opaque value of type `R`; the aggregate state is a table from slice name to slice
    state. Redux's `combineReducers` is not modelled: the combined reducer is represented by the table it
    was built from, and applying it is the `combine` parameter of `Reduce`. */
module ReducerManagers {
  import opened RefCounters

  type Name = string

  // ---------------------------------------------------------------------------------------------
  // Removing slices from the aggregate state

  /** The state with the field of every pending name deleted: a new table, built without the deleted keys;
      the table passed in is a value and is left as it was. Each name is deleted once, repetitions and
      names that have no field are harmless. */
  function Excise<V>(state: map<Name, V>, names: seq<Name>): (r: map<Name, V>)
    ensures forall k :: k in r <==> k in state && k !in names
    ensures forall k :: k in r ==> r[k] == state[k]
  {
    if names == [] then state else Excise(state - {names[0]}, names[1..])
  }

  /** Decimal digits of `n`, as JavaScript renders an array index used as a property name. */
  function Decimal(n: nat): (s: string)
    ensures |s| >= 1 && AllDigits(s)
  {
    if n < 10 then [Digit(n)] else Decimal(n / 10) + [Digit(n % 10)]
  }

  function Digit(d: nat): (c: char)
    requires d < 10
    ensures '0' <= c <= '9'
  {
    ['0', '1', '2', '3', '4', '5', '6', '7', '8', '9'][d]
  }

  predicate AllDigits(s: string) {
    forall c :: c in s ==> '0' <= c <= '9'
  }

  /** The property names "0", …, "n-1" that `for (let key in list)` visits on a list of length `n`. */
  function IndexNames(n: nat): (r: set<Name>)
    ensures forall k :: k in r ==> AllDigits(k)
  {
    if n == 0 then {} else IndexNames(n - 1) + {Decimal(n - 1)}
  }

  /** The field removal as the source writes it: `for (let key in keysToRemove)` walks the indices of the
      pending list, so the fields named "0", "1", … are deleted instead of the pending names. Not used by
      the manager below, which deletes the pending names themselves (`Excise`). */
  function ExciseByIndex<V>(state: map<Name, V>, names: seq<Name>): (r: map<Name, V>)
    ensures forall k :: k in r <==> k in state && k !in IndexNames(|names|)
    ensures forall k :: k in r ==> r[k] == state[k]
  {
    if names == [] then state else ExciseByIndex(state, names[..|names| - 1]) - {Decimal(|names| - 1)}
  }

  /** The index loop never deletes a field whose name is not all digits, so a removed slice with an
      ordinary name keeps its data in the state. */
  lemma ExciseByIndexKeepsNamedSlices<V>(state: map<Name, V>, names: seq<Name>, k: Name)
    requires k in state && !AllDigits(k)
    ensures k in ExciseByIndex(state, names) && ExciseByIndex(state, names)[k] == state[k]
  {
  }

  /** A concrete input that separates the two: removing the slice "cart" from a state that also has a field
      "0" keeps "cart" and deletes "0" as written, and does the opposite as intended. */
  lemma IndexLoopDeletesWrongField<V>(cart: V, zero: V)
    ensures var state := map["cart" := cart, "0" := zero];
      && "cart" in ExciseByIndex(state, ["cart"]) && "0" !in ExciseByIndex(state, ["cart"])
      && "cart" !in Excise(state, ["cart"]) && "0" in Excise(state, ["cart"])
  {
    var state := map["cart" := cart, "0" := zero];
    assert !AllDigits("cart") by { assert 'c' in "cart"; }
    ExciseByIndexKeepsNamedSlices(state, ["cart"], "cart");
    assert Decimal(0) == "0";
    assert "0" in IndexNames(1);
  }

  // ---------------------------------------------------------------------------------------------
  // The reducer manager

  class ReducerManager<R> {
    /** `reducers`: the name-to-reducer table that `add` and `remove` edit in place. */
    var reducers: map<Name, R>
    /** `rm`: the copy of `reducers` handed out by `getReducerMap`, re-copied after every change. */
    var reducerMap: map<Name, R>
    /** `combinedReducer`, represented by the table `combineReducers` was last called with. */
    var combined: map<Name, R>
    /** `keysToRemove`: names whose state fields the next `reduce` deletes. */
    var pending: seq<Name>
    /** Number of times the combined reducer has been rebuilt. */
    ghost var rebuilds: nat

    ghost predicate Valid()
      reads this
    {
      reducerMap == reducers && combined == reducers
    }

    /** `getReducerManager(initialReducers)`. */
    constructor (initial: map<Name, R>)
      ensures Valid()
      ensures reducers == initial && pending == [] && rebuilds == 0
    {
      reducerMap := initial;
      combined := initial;
      reducers := initial;
      pending := [];
      rebuilds := 0;
    }

    /** `getReducerMap()`: always the current table. */
    method GetReducerMap() returns (m: map<Name, R>)
      requires Valid()
      ensures m == reducers
    {
      m := reducerMap;
    }

    /** `add(key, reducer)`: ignored for the empty name and for a name already registered; otherwise
        registers the reducer, re-copies the table and rebuilds the combined reducer. */
    method Add(key: Name, reducer: R)
      requires Valid()
      modifies this
      ensures Valid()
      ensures key == "" || key in old(reducers) ==> unchanged(this)
      ensures key != "" && key !in old(reducers) ==>
        && reducers == old(reducers)[key := reducer]
        && pending == old(pending)
        && rebuilds == old(rebuilds) + 1
    {
      if key == "" || key in reducers {
        return;
      }
      reducers := reducers[key := reducer];
      reducerMap := reducers;
      combined := reducerMap;
      rebuilds := rebuilds + 1;
    }

    /** `remove(key)`: ignored for the empty name and for a name not registered; otherwise unregisters it,
        re-copies the table, queues the name for deletion from the state and rebuilds the combined reducer. */
    method Remove(key: Name)
      requires Valid()
      modifies this
      ensures Valid()
      ensures key == "" || key !in old(reducers) ==> unchanged(this)
      ensures key != "" && key in old(reducers) ==>
        && reducers == old(reducers) - {key}
        && pending == old(pending) + [key]
        && rebuilds == old(rebuilds) + 1
    {
      if key == "" || key !in reducers {
        return;
      }
      reducers := reducers - {key};
      reducerMap := reducers;
      pending := pending + [key];
      combined := reducerMap;
      rebuilds := rebuilds + 1;
    }

    /** `reduce(state, action)`: if names are pending, their fields are deleted from a copy of the state
        and the list is cleared; the combined reducer then runs on that state. The deletion uses the pending
        names themselves (see `ExciseByIndex` for the loop as the source writes it). */
    method Reduce<V, A>(state: map<Name, V>, action: A, combine: (map<Name, R>, map<Name, V>, A) -> map<Name, V>)
      returns (next: map<Name, V>)
      requires Valid()
      modifies this
      ensures Valid()
      ensures pending == []
      ensures reducers == old(reducers) && rebuilds == old(rebuilds)
      ensures next == combine(reducers, if old(pending) == [] then state else Excise(state, old(pending)), action)
    {
      var s := state;
      if |pending| > 0 {
        s := Excise(state, pending);
        pending := [];
      }
      next := combine(combined, s, action);
    }
  }

  // ---------------------------------------------------------------------------------------------
  // The reference-counted wrapper

  /** A call the wrapper forwards to the manager it wraps. */
  datatype ReducerCall<R> = AddReducer(key: Name, reducer: R) | RemoveReducer(key: Name)

  class RefCountedReducerManager<R> {
    /** The wrapped manager; its `reduce` and `getReducerMap` are passed through unchanged. */
    const inner: ReducerManager<R>
    /** `reducerKeyRefCounter`. */
    var counts: Counts<Name>
    /** The `add` and `remove` calls forwarded to `inner`, oldest first. */
    ghost var forwarded: seq<ReducerCall<R>>

    /** A non-empty name is registered in the wrapped manager exactly when some owner holds it. */
    ghost predicate Valid()
      reads this, inner
    {
      && inner.Valid()
      && forall k :: k != "" ==> (k in inner.reducers <==> Count(counts, k) > 0)
    }

    /** `getRefCountedReducerManager(manager)`: every name already registered starts with one owner. */
    constructor (manager: ReducerManager<R>)
      requires manager.Valid()
      ensures Valid() && inner == manager && forwarded == []
      ensures forall k :: Count(counts, k) == if k in manager.reducers then 1 else 0
    {
      var table := manager.GetReducerMap();
      var c: Counts<Name> := map[];
      var rest := table.Keys;
      while rest != {}
        invariant rest <= table.Keys
        invariant forall k :: Count(c, k) == if k in table && k !in rest then 1 else 0
        decreases rest
      {
        var k :| k in rest;
        c := Inc(c, k);
        rest := rest - {k};
      }
      inner := manager;
      counts := c;
      forwarded := [];
    }

    method GetReducerMap() returns (m: map<Name, R>)
      requires Valid()
      ensures m == inner.reducers
    {
      m := inner.GetReducerMap();
    }

    method Reduce<V, A>(state: map<Name, V>, action: A, combine: (map<Name, R>, map<Name, V>, A) -> map<Name, V>)
      returns (next: map<Name, V>)
      requires Valid()
      modifies inner
      ensures Valid()
      ensures inner.pending == [] && inner.reducers == old(inner.reducers) && inner.rebuilds == old(inner.rebuilds)
      ensures next == combine(inner.reducers, if old(inner.pending) == [] then state else Excise(state, old(inner.pending)), action)
    {
      next := inner.Reduce(state, action, combine);
    }

    /** `add(key, reducer)`: forwarded only when nobody owned the name yet; the owner count always grows. */
    method Add(key: Name, reducer: R)
      requires Valid()
      modifies this, inner
      ensures Valid()
      ensures counts == Inc(old(counts), key)
      ensures forwarded == old(forwarded) + if Count(old(counts), key) == 0 then [AddReducer(key, reducer)] else []
      ensures inner.reducers == if Count(old(counts), key) == 0 && key != "" then old(inner.reducers)[key := reducer]
                                else old(inner.reducers)
      ensures inner.pending == old(inner.pending)
      ensures inner.rebuilds == old(inner.rebuilds) + if Count(old(counts), key) == 0 && key != "" then 1 else 0
    {
      if Count(counts, key) == 0 {
        inner.Add(key, reducer);
        forwarded := forwarded + [AddReducer(key, reducer)];
      }
      counts := Inc(counts, key);
    }

    /** `remove(key)`: releases one owner (never below zero) and forwards only when none is left. */
    method Remove(key: Name)
      requires Valid()
      modifies this, inner
      ensures Valid()
      ensures counts == Dec(old(counts), key)
      ensures forwarded == old(forwarded) + if Count(counts, key) == 0 then [RemoveReducer(key)] else []
      ensures inner.reducers == if Count(counts, key) == 0 && key != "" then old(inner.reducers) - {key}
                                else old(inner.reducers)
      ensures inner.pending == if Count(counts, key) == 0 && key != "" && key in old(inner.reducers)
                               then old(inner.pending) + [key] else old(inner.pending)
      ensures inner.rebuilds == old(inner.rebuilds) + if Count(counts, key) == 0 && key != "" && key in old(inner.reducers) then 1 else 0
    {
      counts := Dec(counts, key);
      if Count(counts, key) == 0 {
        inner.Remove(key);
        forwarded := forwarded + [RemoveReducer(key)];
      }
    }
  }

  /** Two features share the slice "cart" beside a slice "user": only the first `add` installs it, the first
      `remove` leaves it installed and the second uninstalls it. */
  method SharedSliceScenario(cartReducer: nat, userReducer: nat)
    returns (afterFirstRemove: map<Name, nat>, afterSecondRemove: map<Name, nat>)
    ensures afterFirstRemove == map["user" := userReducer, "cart" := cartReducer]
    ensures afterSecondRemove == map["user" := userReducer]
  {
    var manager := new ReducerManager<nat>(map["user" := userReducer]);
    var shared := new RefCountedReducerManager<nat>(manager);
    shared.Add("cart", cartReducer);
    assert Count(shared.counts, "cart") == 1;
    shared.Add("cart", cartReducer);
    assert Count(shared.counts, "cart") == 2;
    assert manager.reducers == map["user" := userReducer, "cart" := cartReducer];
    shared.Remove("cart");
    assert Count(shared.counts, "cart") == 1;
    afterFirstRemove := shared.GetReducerMap();
    shared.Remove("cart");
    afterSecondRemove := shared.GetReducerMap();
  }

  /** After both owners of "cart" release it, the next `reduce` hands the combined reducer a state without
      the "cart" field and with "user" unchanged. */
  method ReleasedSliceScenario(cartReducer: nat, userReducer: nat, cart: int, user: int)
    returns (handed: map<Name, int>)
    ensures handed == map["user" := user]
  {
    var manager := new ReducerManager<nat>(map["user" := userReducer]);
    var shared := new RefCountedReducerManager<nat>(manager);
    shared.Add("cart", cartReducer);
    shared.Add("cart", cartReducer);
    shared.Remove("cart");
    shared.Remove("cart");
    // A combined reducer that returns the state it is given shows what `reduce` hands it.
    handed := shared.Reduce(map["user" := user, "cart" := cart], 0, (m: map<Name, nat>, s: map<Name, int>, a: int) => s);
  }
}
