/** The generic ref-counting decorator (`getRefCountedManager`): it wraps any item manager with `getItems`,
    `add(items)` and `remove(items)` so that an item is handed to the wrapped manager when its first owner
    adds it and taken away when its last owner removes it.

    The wrapped manager is outside the model: the calls forwarded to it are kept as a log, and `Replay`
    says what a manager that behaves as a set of items holds after those calls. Items are compared with
    the item type's own equality, which stands for the `equals` function the counter is built with. */
module RefCountedManagers {
  import opened Wrappers
  import opened Lists
  import opened RefCounters

  /** A call forwarded to the wrapped manager. */
  datatype ItemCall<T> = AddItems(items: seq<T>) | RemoveItems(items: seq<T>)

  /** The items a manager that behaves as a set holds, having held `held` and then received `calls`. */
  ghost function Replay<T(!new)>(held: set<T>, calls: seq<ItemCall<T>>): set<T> {
    if calls == [] then held
    else
      var init := calls[..|calls| - 1];
      var before := Replay(held, init);
      match calls[|calls| - 1]
      case AddItems(items) => before + set x | x in items
      case RemoveItems(items) => before - set x | x in items
  }

  lemma ReplaySnoc<T(!new)>(held: set<T>, calls: seq<ItemCall<T>>, call: ItemCall<T>)
    ensures Replay(held, calls + [call]) == match call
      case AddItems(items) => Replay(held, calls) + set x | x in items
      case RemoveItems(items) => Replay(held, calls) - set x | x in items
  {
    assert (calls + [call])[..|calls|] == calls;
  }

  /** `items.filter(i => counter.getCount(i) === 0)`: the items nobody owns, in order and with their
      repetitions. */
  function Unowned<T(!new)>(c: Counts<T>, xs: seq<T>): (r: seq<T>)
    ensures forall x :: x in r <==> x in xs && Count(c, x) == 0
    ensures forall x :: multiset(r)[x] == if Count(c, x) == 0 then multiset(xs)[x] else 0
  {
    if xs == [] then []
    else
      var init := xs[..|xs| - 1];
      var x := xs[|xs| - 1];
      assert xs == init + [x];
      if Count(c, x) == 0 then Unowned(c, init) + [x] else Unowned(c, init)
  }

  /** The `remove([item])` calls `remove(xs)` forwards when the counts are `c`: one for each present entry
      whose count is 0 once that entry has released its owner. */
  function Releases<T(!new)>(c: Counts<T>, xs: seq<Option<T>>): seq<ItemCall<T>> {
    if xs == [] then []
    else
      var init := xs[..|xs| - 1];
      match xs[|xs| - 1]
      case None => Releases(c, init)
      case Some(x) =>
        if Count(Dec(DecAll(c, init), x), x) == 0 then Releases(c, init) + [RemoveItems([x])] else Releases(c, init)
  }

  lemma ReleasesSnoc<T(!new)>(c: Counts<T>, xs: seq<Option<T>>, i: nat)
    requires i < |xs|
    ensures Releases(c, xs[..i + 1]) ==
      if xs[i].Some? && Count(Dec(DecAll(c, xs[..i]), xs[i].value), xs[i].value) == 0
      then Releases(c, xs[..i]) + [RemoveItems([xs[i].value])] else Releases(c, xs[..i])
  {
    assert xs[..i + 1][..i] == xs[..i];
  }

  /** `remove` forwards a release for exactly the present entries whose final count is 0. */
  lemma {:induction false} ReleasesExactly<T(!new)>(c: Counts<T>, xs: seq<Option<T>>, x: T)
    ensures RemoveItems([x]) in Releases(c, xs) <==> Listed(xs, x) && Count(DecAll(c, xs), x) == 0
  {
    if xs != [] {
      var init := xs[..|xs| - 1];
      var last := xs[|xs| - 1];
      assert xs == init + [last];
      ReleasesExactly(c, init, x);
      if last == Some(x) {
        assert DecAll(c, xs) == Dec(DecAll(c, init), x);
      } else if last.Some? {
        var y := last.value;
        assert DecAll(c, xs) == Dec(DecAll(c, init), y);
        if Count(DecAll(c, init), x) == 0 && Listed(init, x) {
          assert Count(DecAll(c, xs), x) == 0;
        }
      } else {
        assert DecAll(c, xs) == DecAll(c, init);
      }
    }
  }

  /** The wrapped manager holds exactly the items some owner holds. */
  ghost predicate Mirrors<T(!new)>(held: set<T>, forwarded: seq<ItemCall<T>>, counts: Counts<T>) {
    forall x :: x in Replay(held, forwarded) <==> Count(counts, x) > 0
  }

  /** `add` keeps `Mirrors`: the items that gain their first owner are exactly the ones forwarded. */
  lemma AddMirrors<T(!new)>(held: set<T>, forwarded: seq<ItemCall<T>>, counts: Counts<T>, xs: seq<T>)
    requires Mirrors(held, forwarded, counts)
    ensures Mirrors(held, forwarded + [AddItems(Unowned(counts, xs))], IncAll(counts, xs))
  {
    ReplaySnoc(held, forwarded, AddItems(Unowned(counts, xs)));
  }

  /** One step of `remove` keeps `Mirrors`: an item is released exactly when its count reaches 0. */
  lemma ReleaseMirrors<T(!new)>(held: set<T>, forwarded: seq<ItemCall<T>>, counts: Counts<T>, x: T)
    requires Mirrors(held, forwarded, counts)
    ensures Count(Dec(counts, x), x) == 0 ==> Mirrors(held, forwarded + [RemoveItems([x])], Dec(counts, x))
    ensures Count(Dec(counts, x), x) != 0 ==> Mirrors(held, forwarded, Dec(counts, x))
  {
    ReplaySnoc(held, forwarded, RemoveItems([x]));
  }

  /** One entry of `remove` keeps `Mirrors` between the log and the counts the loop has reached. */
  lemma RemoveStep<T(!new)>(held: set<T>, f0: seq<ItemCall<T>>, c0: Counts<T>, list: seq<Option<T>>, i: nat)
    requires i < |list|
    requires Mirrors(held, f0 + Releases(c0, list[..i]), DecAll(c0, list[..i]))
    ensures Mirrors(held, f0 + Releases(c0, list[..i + 1]), DecAll(c0, list[..i + 1]))
  {
    DecAllSnoc(c0, list, i);
    ReleasesSnoc(c0, list, i);
    var released, counts := Releases(c0, list[..i]), DecAll(c0, list[..i]);
    if list[i].Some? {
      var x := list[i].value;
      assert DecAll(c0, list[..i + 1]) == Dec(counts, x);
      ReleaseMirrors(held, f0 + released, counts, x);
      assert f0 + (released + [RemoveItems([x])]) == (f0 + released) + [RemoveItems([x])];
    } else {
      assert DecAll(c0, list[..i + 1]) == counts;
    }
  }

  /** The first `n` entries of `remove` keep `Mirrors`. */
  lemma {:induction false} RemoveMirrors<T(!new)>(held: set<T>, f0: seq<ItemCall<T>>, c0: Counts<T>, list: seq<Option<T>>, n: nat)
    requires n <= |list|
    requires Mirrors(held, f0, c0)
    ensures Mirrors(held, f0 + Releases(c0, list[..n]), DecAll(c0, list[..n]))
  {
    if n == 0 {
      assert list[..0] == [];
      assert f0 + [] == f0;
    } else {
      RemoveMirrors(held, f0, c0, list, n - 1);
      RemoveStep(held, f0, c0, list, n - 1);
    }
  }

  /** Distinct items each occur once. */
  lemma {:induction false} DistinctOnce<T>(s: seq<T>, x: T)
    requires Distinct(s) && x in s
    ensures multiset(s)[x] == 1
  {
    var init := s[..|s| - 1];
    assert s == init + [s[|s| - 1]];
    if x == s[|s| - 1] {
      assert x !in init;
    } else {
      DistinctOnce(init, x);
    }
  }

  class RefCountedManager<T(==, !new)> {
    /** `refCounter`: the owners of each item. */
    var counts: Counts<T>
    /** The items the wrapped manager held when it was wrapped. */
    ghost const held: set<T>
    /** The `add` and `remove` calls forwarded to the wrapped manager, oldest first. */
    var forwarded: seq<ItemCall<T>>

    ghost predicate Valid()
      reads this
    {
      Mirrors(held, forwarded, counts)
    }

    /** `getRefCountedManager(manager, equals)` for a manager whose `getItems()` is `items`: each item
        starts with one owner per occurrence. */
    constructor (items: seq<T>)
      ensures Valid()
      ensures held == (set x | x in items)
      ensures forwarded == []
      ensures counts == IncAll(map[], items)
    {
      var c: Counts<T> := map[];
      var i := 0;
      while i < |items|
        invariant 0 <= i <= |items|
        invariant c == IncAll(map[], items[..i])
      {
        IncAllSnoc(map[], items, i);
        c := Inc(c, items[i]);
        i := i + 1;
      }
      assert items[..|items|] == items;
      counts := c;
      held := set x | x in items;
      forwarded := [];
    }

    /** `add(items)`: nothing for a null list; otherwise one forwarded `add` holding the present items
        nobody owned, then one more owner for each present entry. */
    method Add(items: Option<seq<Option<T>>>)
      requires Valid()
      modifies this
      ensures Valid()
      ensures items.None? ==> counts == old(counts) && forwarded == old(forwarded)
      ensures items.Some? ==>
        && forwarded == old(forwarded) + [AddItems(Unowned(old(counts), Somes(items.value)))]
        && counts == IncAll(old(counts), Somes(items.value))
    {
      if items.None? {
        return;
      }
      var present := Somes(items.value);
      var unowned := Unowned(counts, present);
      AddMirrors(held, forwarded, counts, present);
      forwarded := forwarded + [AddItems(unowned)];
      var i := 0;
      while i < |present|
        invariant 0 <= i <= |present|
        invariant counts == IncAll(old(counts), present[..i])
        invariant forwarded == old(forwarded) + [AddItems(unowned)]
      {
        IncAllSnoc(old(counts), present, i);
        counts := Inc(counts, present[i]);
        i := i + 1;
      }
      assert present[..|present|] == present;
    }

    /** `remove(items)`: nothing for a null list; otherwise each present entry releases one owner and, when
        its count is then 0, is forwarded as `remove([item])`; absent entries are skipped. */
    method Remove(items: Option<seq<Option<T>>>)
      requires Valid()
      modifies this
      ensures Valid()
      ensures items.None? ==> counts == old(counts) && forwarded == old(forwarded)
      ensures items.Some? ==>
        && forwarded == old(forwarded) + Releases(old(counts), items.value)
        && counts == DecAll(old(counts), items.value)
    {
      if items.None? {
        return;
      }
      var list := items.value;
      RemoveMirrors(held, forwarded, counts, list, |list|);
      ghost var c0, f0 := counts, forwarded;
      var i := 0;
      while i < |list|
        invariant 0 <= i <= |list|
        invariant counts == DecAll(c0, list[..i])
        invariant forwarded == f0 + Releases(c0, list[..i])
      {
        DecAllSnoc(c0, list, i);
        ReleasesSnoc(c0, list, i);
        if list[i].Some? {
          var x := list[i].value;
          assert DecAll(c0, list[..i + 1]) == Dec(counts, x);
          counts := Dec(counts, x);
          if Count(counts, x) == 0 {
            assert f0 + (Releases(c0, list[..i]) + [RemoveItems([x])]) == forwarded + [RemoveItems([x])];
            forwarded := forwarded + [RemoveItems([x])];
          } else {
            assert Releases(c0, list[..i + 1]) == Releases(c0, list[..i]);
          }
        } else {
          assert DecAll(c0, list[..i + 1]) == counts;
          assert Releases(c0, list[..i + 1]) == Releases(c0, list[..i]);
        }
        i := i + 1;
      }
      assert list[..|list|] == list;
    }
  }

  /** Seeding from a manager whose items are distinct gives each of them exactly one owner. */
  lemma SeedOwnsOnce<T(!new)>(items: seq<T>, x: T)
    requires Distinct(items)
    ensures Count(IncAll(map[], items), x) == if x in items then 1 else 0
  {
    if x in items {
      DistinctOnce(items, x);
    }
  }

  /** `add` of one present item forwards it exactly when nobody owns it. */
  lemma UnownedSingle<T(!new)>(c: Counts<T>, x: T)
    ensures Unowned(c, [x]) == if Count(c, x) == 0 then [x] else []
  {
    assert [x][..0] == [];
  }

  /** `remove` of one present item forwards it exactly when its last owner releases it. */
  lemma ReleasesSingle<T(!new)>(c: Counts<T>, x: T)
    ensures Releases(c, [Some(x)]) == if Count(c, x) <= 1 then [RemoveItems([x])] else []
  {
    assert [Some(x)][..0] == [];
  }

  lemma SomesSingle<T(!new)>(x: T)
    ensures Somes([Some(x)]) == [x]
  {
    SomesSnoc([Some(x)], 0);
    assert [Some(x)][..0] == [] && [Some(x)][..1] == [Some(x)];
  }

  /** Two owners add the same item: it is handed over once, and the second `add` forwards an empty list. */
  method SharedAddScenario<T(==, !new)>(x: T) returns (calls: seq<ItemCall<T>>)
    ensures calls == [AddItems([x]), AddItems([])]
  {
    SomesSingle(x);
    var manager := new RefCountedManager<T>([]);
    UnownedSingle(manager.counts, x);
    manager.Add(Some([Some(x)]));
    var log := manager.forwarded;
    assert log == [AddItems([x])];
    UnownedSingle(manager.counts, x);
    manager.Add(Some([Some(x)]));
    calls := manager.forwarded;
    assert calls == log + [AddItems([])];
  }

  /** Two owners add the same item and then release it one after the other: the item is handed over at
      the first `add` and taken away only at the second `remove`. */
  method SharedRemoveScenario<T(==, !new)>(x: T) returns (calls: seq<ItemCall<T>>)
    ensures calls == [AddItems([x]), AddItems([]), RemoveItems([x])]
  {
    var manager := new RefCountedManager<T>([]);
    SomesSingle(x);
    UnownedSingle(manager.counts, x);
    manager.Add(Some([Some(x)]));
    UnownedSingle(manager.counts, x);
    manager.Add(Some([Some(x)]));
    var log := manager.forwarded;
    assert log == [AddItems([x]), AddItems([])];
    assert Count(manager.counts, x) == 2;
    ReleasesSingle(manager.counts, x);
    manager.Remove(Some([Some(x)]));
    assert manager.forwarded == log + [];
    ReleasesSingle(manager.counts, x);
    manager.Remove(Some([Some(x)]));
    calls := manager.forwarded;
    assert calls == log + [RemoveItems([x])];
  }
}
