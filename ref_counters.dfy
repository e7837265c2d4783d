/** The reference counter the two ref-counting decorators consult: a table from key to a count of owners.
    A key that is absent reads as 0; `add` increments, `remove` decrements but never below 0 and drops an
    entry that reaches 0. Keys are compared with the key type's own equality. */
module RefCounters {
  import opened Wrappers

  type Counts<K(==)> = map<K, nat>

  /** `getCount(key)`. */
  function Count<K(!new)>(c: Counts<K>, k: K): nat {
    if k in c then c[k] else 0
  }

  /** `add(key)`: one owner more for `k`, every other count unchanged. */
  function Inc<K(!new)>(c: Counts<K>, k: K): (r: Counts<K>)
    ensures Count(r, k) == Count(c, k) + 1
    ensures forall j :: j != k ==> Count(r, j) == Count(c, j)
  {
    c[k := Count(c, k) + 1]
  }

  /** `remove(key)`: one owner fewer, clamped at 0; a key that reads 0 afterwards has no entry. */
  function Dec<K(!new)>(c: Counts<K>, k: K): (r: Counts<K>)
    ensures Count(r, k) == if Count(c, k) == 0 then 0 else Count(c, k) - 1
    ensures Count(r, k) == 0 ==> k !in r
    ensures forall j :: j != k ==> Count(r, j) == Count(c, j)
  {
    if k !in c then c
    else if c[k] <= 1 then c - {k}
    else c[k := c[k] - 1]
  }

  /** `xs.forEach(counter.add)`: every key gains one owner per occurrence in `xs`. */
  function IncAll<K(!new)>(c: Counts<K>, xs: seq<K>): (r: Counts<K>)
    ensures forall j :: Count(r, j) == Count(c, j) + multiset(xs)[j]
  {
    if xs == [] then c
    else
      var init := xs[..|xs| - 1];
      assert xs == init + [xs[|xs| - 1]];
      Inc(IncAll(c, init), xs[|xs| - 1])
  }

  /** `xs.forEach(item => { if (item) counter.remove(item) })`: each present entry releases one owner,
      absent entries are skipped; so a count falls by its number of occurrences, but not below 0. */
  function DecAll<K(!new)>(c: Counts<K>, xs: seq<Option<K>>): (r: Counts<K>)
    ensures forall j :: Count(r, j) == if Count(c, j) <= multiset(xs)[Some(j)] then 0
                                      else Count(c, j) - multiset(xs)[Some(j)]
  {
    if xs == [] then c
    else
      var init := xs[..|xs| - 1];
      assert xs == init + [xs[|xs| - 1]];
      match xs[|xs| - 1]
      case None => DecAll(c, init)
      case Some(x) => Dec(DecAll(c, init), x)
  }

  lemma IncAllSnoc<K(!new)>(c: Counts<K>, xs: seq<K>, i: nat)
    requires i < |xs|
    ensures IncAll(c, xs[..i + 1]) == Inc(IncAll(c, xs[..i]), xs[i])
  {
    assert xs[..i + 1][..i] == xs[..i];
  }

  lemma DecAllSnoc<K(!new)>(c: Counts<K>, xs: seq<Option<K>>, i: nat)
    requires i < |xs|
    ensures DecAll(c, xs[..i + 1]) == if xs[i].Some? then Dec(DecAll(c, xs[..i]), xs[i].value) else DecAll(c, xs[..i])
  {
    assert xs[..i + 1][..i] == xs[..i];
  }
}
