/** `LruStateMap`: the bounded, insertion-ordered state map every component keeps its per-entity
    state in. Oldest-touched entity is dropped when full. */
module LruMaps {
  import opened Common

  /** The abstract value of the map: keys from least to most recently touched. */
  datatype Lru<K, V> = Lru(capacity: nat, order: seq<K>, values: map<K, V>, evictions: nat)
  {
    ghost predicate Valid() {
      && capacity >= 1
      && Distinct(order)
      && (forall k :: k in order ==> k in values)
      && (forall k :: k in values ==> k in order)
      && |order| <= capacity
    }
  }

  function Empty<K, V>(capacity: nat): Lru<K, V> {
    Lru(capacity, [], map[], 0)
  }

  /** Look up `k`, inserting `initial` when absent; either way `k` becomes the most recent key. */
  function LruTouch<K(==), V>(m: Lru<K, V>, k: K, initial: V): Lru<K, V> {
    if k in m.values then m.(order := Without(m.order, k) + [k])
    else if |m.order| < m.capacity || m.order == [] then
      m.(order := m.order + [k], values := m.values[k := initial])
    else
      m.(order := m.order[1..] + [k],
         values := m.values[k := initial] - {m.order[0]},
         evictions := m.evictions + 1)
  }

  /** Overwrite the value of a key that is already present; the order does not change. */
  function LruPut<K(==), V>(m: Lru<K, V>, k: K, v: V): Lru<K, V>
    requires k in m.values
  {
    m.(values := m.values[k := v])
  }

  /** Rebuild the map with the entries that pass `keep`, in the same order; the rebuilt map starts
      its eviction count afresh. */
  function LruRetain<K(==), V>(m: Lru<K, V>, keep: V -> bool): Lru<K, V> {
    var kept := map k | k in m.values && keep(m.values[k]) :: m.values[k];
    Lru(m.capacity, Keep(m.order, kept.Keys), kept, 0)
  }

  /** The subsequence of `s` whose elements are in `ks`. */
  function Keep<K(==)>(s: seq<K>, ks: set<K>): seq<K> {
    if s == [] then []
    else Keep(s[..|s| - 1], ks) + (if s[|s| - 1] in ks then [s[|s| - 1]] else [])
  }

  lemma KeepElements<K(!new)>(s: seq<K>, ks: set<K>)
    ensures forall k :: k in Keep(s, ks) <==> k in s && k in ks
    ensures Distinct(s) ==> Distinct(Keep(s, ks))
    ensures |Keep(s, ks)| <= |s|
  {
    if s != [] {
      KeepElements(s[..|s| - 1], ks);
      assert s == s[..|s| - 1] + [s[|s| - 1]];
    }
  }

  lemma {:induction false} KeepOneMore<K(!new)>(s: seq<K>, i: nat, ks: set<K>)
    requires i < |s|
    ensures Keep(s[..i + 1], ks) == Keep(s[..i], ks) + (if s[i] in ks then [s[i]] else [])
  {
    assert s[..i + 1][..i] == s[..i];
  }

  lemma RetainValid<K(!new), V>(m: Lru<K, V>, keep: V -> bool)
    requires m.Valid()
    ensures LruRetain(m, keep).Valid()
  {
    var kept := LruRetain(m, keep);
    KeepElements(m.order, kept.values.Keys);
    forall k | k in kept.order ensures k in kept.values {
      assert k in kept.values.Keys;
    }
  }

  lemma {:induction false} TouchValid<K(!new), V>(m: Lru<K, V>, k: K, initial: V)
    requires m.Valid()
    ensures LruTouch(m, k, initial).Valid()
    ensures k in LruTouch(m, k, initial).values
    ensures LruTouch(m, k, initial).values[k] == if k in m.values then m.values[k] else initial
  {
    var m' := LruTouch(m, k, initial);
    if k in m.values {
      WithoutDistinct(m.order, k);
      WithoutElements(m.order, k);
      DistinctAppend(Without(m.order, k), k);
      forall x | x in m'.order ensures x in m'.values {
        assert x in Without(m.order, k) || x == k;
      }
      forall x | x in m'.values ensures x in m'.order {
        assert x in m.order;
      }
    } else if |m.order| < m.capacity {
      DistinctAppend(m.order, k);
      assert forall x :: x in m'.order <==> x in m.order || x == k;
    } else {
      var oldest, rest := m.order[0], m.order[1..];
      assert m.order == [oldest] + rest;
      assert oldest !in rest;
      assert forall x :: x in m.order <==> x == oldest || x in rest;
      DistinctAppend(rest, k);
      assert forall x :: x in m'.order <==> x in rest || x == k;
    }
  }

  /** The entries among the first `n` that pass. */
  function Passing<K(!new), V>(m: Lru<K, V>, keep: V -> bool, n: nat): map<K, V>
    requires n <= |m.order|
  {
    map k | k in m.order[..n] && k in m.values && keep(m.values[k]) :: m.values[k]
  }

  lemma {:induction false} PassingOneMore<K(!new), V>(m: Lru<K, V>, keep: V -> bool, i: nat)
    requires m.Valid() && i < |m.order|
    ensures var k := m.order[i];
            Passing(m, keep, i + 1) ==
            if keep(m.values[k]) then Passing(m, keep, i)[k := m.values[k]] else Passing(m, keep, i)
  {
    assert m.order[..i + 1] == m.order[..i] + [m.order[i]];
  }

  /** Copy the entries that pass `keep` into a new map, oldest first. */
  method Rebuild<K(==,!new), V>(m: Lru<K, V>, keep: V -> bool) returns (r: Lru<K, V>)
    requires m.Valid()
    ensures r == LruRetain(m, keep) && r.Valid()
  {
    RetainValid(m, keep);
    var order: seq<K>, values: map<K, V> := [], map[];
    ghost var kept := LruRetain(m, keep).values.Keys;
    for i := 0 to |m.order|
      invariant order == Keep(m.order[..i], kept)
      invariant values == Passing(m, keep, i)
    {
      var k := m.order[i];
      KeepOneMore(m.order, i, kept);
      PassingOneMore(m, keep, i);
      assert k in m.order;
      if keep(m.values[k]) {
        order := order + [k];
        values := values[k := m.values[k]];
      }
    }
    assert m.order[..|m.order|] == m.order;
    assert values == LruRetain(m, keep).values;
    r := Lru(m.capacity, order, values, 0);
  }

  /** The class itself: an ordered dictionary updated in place. */
  class LruStateMap<K(==,!new), V> {
    const capacity: nat
    var order: seq<K>
    var values: map<K, V>
    var evictions: nat

    ghost function Model(): Lru<K, V>
      reads this
    {
      Lru(capacity, order, values, evictions)
    }

    ghost predicate Valid()
      reads this
    {
      Model().Valid()
    }

    constructor (capacity: nat)
      requires capacity >= 1
      ensures Valid() && Model() == Empty(capacity)
    {
      this.capacity := capacity;
      order, values, evictions := [], map[], 0;
    }

    method Touch(key: K, initial: V) returns (value: V)
      requires Valid()
      modifies this
      ensures Valid() && Model() == LruTouch(old(Model()), key, initial)
      ensures key in values && value == values[key]
      ensures value == if key in old(values) then old(values)[key] else initial
    {
      ghost var was := Model();
      TouchValid(was, key, initial);
      if key in values {
        value := values[key];
        order := Without(order, key) + [key];
      } else {
        value := initial;
        values := values[key := value];
        order := order + [key];
        if |order| > capacity {
          var oldest := order[0];
          order := order[1..];
          values := values - {oldest};
          evictions := evictions + 1;
          assert order == was.order[1..] + [key];
        }
      }
      assert Model() == LruTouch(was, key, initial);
    }
  }

  // ---- What a run of touches leaves behind ----

  /** A run of touches from the empty map; each carries the value its factory would build. */
  function Run<K(==), V>(capacity: nat, touches: seq<(K, V)>): Lru<K, V> {
    if touches == [] then Empty(capacity)
    else
      var last := touches[|touches| - 1];
      LruTouch(Run(capacity, touches[..|touches| - 1]), last.0, last.1)
  }

  /** How many touches of the run found their key absent. */
  function Misses<K(==), V>(capacity: nat, touches: seq<(K, V)>): nat {
    if touches == [] then 0
    else
      var before := touches[..|touches| - 1];
      Misses(capacity, before) +
      (if touches[|touches| - 1].0 in Run(capacity, before).values then 0 else 1)
  }

  function Keys<K, V>(touches: seq<(K, V)>): (ks: seq<K>)
    ensures |ks| == |touches|
    ensures forall i :: 0 <= i < |ks| ==> ks[i] == touches[i].0
  {
    seq(|touches|, i requires 0 <= i < |touches| => touches[i].0)
  }

  /** Every key ever touched, once each, by time of last touch: what an unbounded map would hold. */
  function Recency<K(==)>(h: seq<K>): seq<K> {
    if h == [] then []
    else Without(Recency(h[..|h| - 1]), h[|h| - 1]) + [h[|h| - 1]]
  }

  lemma RecencyElements<K(!new)>(h: seq<K>)
    ensures Distinct(Recency(h))
    ensures forall k :: k in Recency(h) <==> k in h
  {
    if h != [] {
      var h', k := h[..|h| - 1], h[|h| - 1];
      RecencyElements(h');
      WithoutDistinct(Recency(h'), k);
      WithoutElements(Recency(h'), k);
      assert h == h' + [k];
    }
  }

  lemma SuffixOfAppend<T(!new)>(a: seq<T>, b: seq<T>, c: nat)
    requires |b| >= c || a == []
    ensures LastN(a + b, c) == LastN(b, c)
  {
    if a == [] {
      assert a + b == b;
    } else {
      assert (a + b)[|a + b| - c..] == b[|b| - c..];
    }
  }

  lemma DistinctParts<K(!new)>(a: seq<K>, b: seq<K>, k: K)
    requires Distinct(a + b) && k in b
    ensures k !in a && Distinct(b)
  {
    var j :| 0 <= j < |b| && b[j] == k;
    assert (a + b)[|a| + j] == k;
    assert forall i :: 0 <= i < |a| ==> (a + b)[i] == a[i];
    assert forall i :: 0 <= i < |b| ==> (a + b)[|a| + i] == b[i];
  }

  /** Touching a key that is held: it moves to the end. */
  lemma HitKeepsSuffix<K(!new)>(gone: seq<K>, kept: seq<K>, c: nat, k: K)
    requires Distinct(gone + kept) && k in kept && |kept| <= c && (|kept| == c || gone == [])
    ensures Without(kept, k) + [k] == LastN(Without(gone + kept, k) + [k], c)
  {
    WithoutAppend(gone, kept, k);
    DistinctParts(gone, kept, k);
    WithoutAbsent(gone, k);
    WithoutDistinct(kept, k);
    var back := Without(kept, k) + [k];
    assert Without(gone + kept, k) + [k] == gone + back;
    SuffixOfAppend(gone, back, c);
  }

  /** Touching a key that is not: the oldest makes way when there is no room. */
  lemma MissKeepsSuffix<K(!new)>(gone: seq<K>, kept: seq<K>, c: nat, k: K)
    requires k !in kept && |kept| <= c && (|kept| == c || gone == [])
    ensures LastN(kept + [k], c) == LastN(Without(gone + kept, k) + [k], c)
  {
    WithoutAppend(gone, kept, k);
    WithoutAbsent(kept, k);
    assert Without(gone + kept, k) + [k] == Without(gone, k) + (kept + [k]);
    SuffixOfAppend(Without(gone, k), kept + [k], c);
  }

  /** One bounded touch keeps the last `c` entries of the unbounded recency order. */
  lemma TouchKeepsSuffix<K(!new)>(r: seq<K>, c: nat, k: K)
    requires c >= 1 && Distinct(r)
    ensures k in LastN(r, c) ==> Without(LastN(r, c), k) + [k] == LastN(Without(r, k) + [k], c)
    ensures k !in LastN(r, c) ==> LastN(LastN(r, c) + [k], c) == LastN(Without(r, k) + [k], c)
  {
    var kept := LastN(r, c);
    var gone := r[..|r| - |kept|];
    assert r == gone + kept;
    if k in kept {
      HitKeepsSuffix(gone, kept, c, k);
    } else {
      MissKeepsSuffix(gone, kept, c, k);
    }
  }

  lemma LastNRolls<T>(s: seq<T>, x: T, c: nat)
    requires c >= 1 && |s| <= c
    ensures LastN(s + [x], c) == if |s| < c then s + [x] else s[1..] + [x]
  {
  }

  lemma {:induction false} TouchSuffix<K(!new), V>(m: Lru<K, V>, r: seq<K>, k: K, initial: V)
    requires m.Valid() && Distinct(r) && m.order == LastN(r, m.capacity)
    ensures LruTouch(m, k, initial).order == LastN(Without(r, k) + [k], m.capacity)
  {
    var kept := LastN(r, m.capacity);
    TouchKeepsSuffix(r, m.capacity, k);
    LastNRolls(kept, k, m.capacity);
    assert k in m.values <==> k in kept;
  }

  lemma RunCapacity<K(!new), V>(capacity: nat, touches: seq<(K, V)>)
    ensures Run(capacity, touches).capacity == capacity
  {
  }

  /** After any run, the map holds, in order, exactly the `capacity` most recently touched keys, and
      every miss is either still held or was evicted. */
  lemma {:induction false} LruExact<K(!new), V>(capacity: nat, touches: seq<(K, V)>)
    requires capacity >= 1
    ensures Run(capacity, touches).Valid()
    ensures Run(capacity, touches).order == LastN(Recency(Keys(touches)), capacity)
    ensures Run(capacity, touches).evictions + |Run(capacity, touches).order| == Misses(capacity, touches)
  {
    if touches != [] {
      var before, last := touches[..|touches| - 1], touches[|touches| - 1];
      LruExact(capacity, before);
      var m := Run(capacity, before);
      RunCapacity(capacity, before);
      TouchValid(m, last.0, last.1);
      RecencyElements(Keys(before));
      assert Keys(touches)[..|touches| - 1] == Keys(before);
      TouchSuffix(m, Recency(Keys(before)), last.0, last.1);
      WithoutDistinct(m.order, last.0);
    }
  }

  /** Removing another key from around `y` leaves `y` with the rest of what followed it. */
  lemma {:induction false} WithoutAround<K(!new)>(front: seq<K>, y: K, back: seq<K>, x: K)
    requires x != y
    ensures Without(front + ([y] + back), x) == Without(front, x) + ([y] + Without(back, x))
  {
    WithoutAppend(front, [y] + back, x);
    WithoutAppend([y], back, x);
    assert Without([y], x) == [y];
  }

  /** In recency order, the keys after `h[i]` are exactly those touched since. */
  lemma {:induction false} RecencyTail<K(!new)>(h: seq<K>, i: nat) returns (p: nat)
    requires i < |h| && h[i] !in h[i + 1..]
    ensures p < |Recency(h)| && Recency(h)[p] == h[i]
    ensures ToSet(Recency(h)[p + 1..]) == ToSet(h[i + 1..])
  {
    var h', x := h[..|h| - 1], h[|h| - 1];
    if i == |h| - 1 {
      p := |Recency(h)| - 1;
    } else {
      var tail := h'[i + 1..];
      assert h[i + 1..] == tail + [x] && h'[i] == h[i];
      var q := RecencyTail(h', i);
      p := TailAfter(Recency(h'), q, h[i], x, tail);
    }
  }

  /** The same for one more touch, of `x`, on a recency order that has `y` at `q`. */
  lemma {:induction false} TailAfter<K(!new)>(r: seq<K>, q: nat, y: K, x: K, tail: seq<K>) returns (p: nat)
    requires q < |r| && r[q] == y && y != x && ToSet(r[q + 1..]) == ToSet(tail)
    ensures var r' := Without(r, x) + [x];
            p < |r'| && r'[p] == y && ToSet(r'[p + 1..]) == ToSet(tail + [x])
  {
    var front, back := r[..q], r[q + 1..];
    assert r == front + ([y] + back);
    WithoutAround(front, y, back, x);
    p := |Without(front, x)|;
    WithoutElements(back, x);
    var rest := Without(back, x) + [x];
    assert (Without(r, x) + [x])[p + 1..] == rest;
    assert ToSet(rest) == ToSet(Without(back, x)) + {x};
    assert ToSet(tail + [x]) == ToSet(tail) + {x};
  }

  lemma SuffixMembership<T(!new)>(r: seq<T>, p: nat, c: nat)
    requires Distinct(r) && p < |r|
    ensures r[p] in LastN(r, c) <==> |r| - p <= c
  {
    var kept := LastN(r, c);
    assert forall j :: 0 <= j < |kept| ==> kept[j] == r[|r| - |kept| + j];
    if |r| - p <= c {
      assert kept[|kept| - (|r| - p)] == r[p];
    }
  }

  /** The residency rule: a key last touched at `i` is still held exactly when fewer than `capacity`
      distinct other keys have been touched since. */
  lemma Residency<K(!new), V>(capacity: nat, touches: seq<(K, V)>, i: nat)
    requires capacity >= 1 && i < |touches|
    requires Keys(touches)[i] !in Keys(touches)[i + 1..]
    ensures touches[i].0 in Run(capacity, touches).values <==>
            |ToSet(Keys(touches)[i + 1..])| < capacity
  {
    var h := Keys(touches);
    LruExact(capacity, touches);
    RecencyElements(h);
    var p := RecencyTail(h, i);
    var r := Recency(h);
    DistinctSize(r[p + 1..]);
    SuffixMembership(r, p, capacity);
    var m := Run(capacity, touches);
    assert h[i] in m.values <==> h[i] in m.order;
  }

  /** `FeatureEngine.process` touches host, destination and pair in turn and then uses all three: with
      room for three, none of the touches can have evicted another's state. */
  lemma ThreeTouchesStay<K(!new), V>(capacity: nat, before: seq<(K, V)>, host: (K, V), dest: (K, V), pair: (K, V))
    requires capacity >= 3
    requires host.0 != dest.0 && host.0 != pair.0 && dest.0 != pair.0
    ensures var m := Run(capacity, before + [host, dest, pair]);
            host.0 in m.values && dest.0 in m.values && pair.0 in m.values
  {
    var all := before + [host, dest, pair];
    var n := |before|;
    var h := Keys(all);
    assert h[n..] == [host.0, dest.0, pair.0];
    assert h[n + 1..] == [dest.0, pair.0] && h[n + 2..] == [pair.0] && h[n + 3..] == [];
    assert ToSet(h[n + 1..]) == {dest.0, pair.0};
    assert ToSet(h[n + 2..]) == {pair.0};
    assert ToSet(h[n + 3..]) == {};
    Residency(capacity, all, n);
    Residency(capacity, all, n + 1);
    Residency(capacity, all, n + 2);
  }
}
