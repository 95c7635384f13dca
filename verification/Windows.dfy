/** Time-bounded counters: the deques and running totals that every rate, cardinality and ratio is
    read from. */
module Windows {
  import opened Common

  datatype Entry<+T> = Entry(ts: real, item: T)

  /** The specification of a window: the entries younger than the cutoff, in order. */
  function Live<T>(history: seq<Entry<T>>, cutoff: real): seq<Entry<T>> {
    if history == [] then []
    else
      var last := history[|history| - 1];
      Live(history[..|history| - 1], cutoff) + (if last.ts > cutoff then [last] else [])
  }

  /** What `expire` does: pop from the left while the oldest entry is out of the window. */
  function PopExpired<T>(entries: seq<Entry<T>>, cutoff: real): seq<Entry<T>> {
    if entries != [] && entries[0].ts <= cutoff then PopExpired(entries[1..], cutoff) else entries
  }

  ghost predicate Ordered<T>(entries: seq<Entry<T>>) {
    forall i, j :: 0 <= i < j < |entries| ==> entries[i].ts <= entries[j].ts
  }

  lemma LiveAppend<T>(a: seq<Entry<T>>, b: seq<Entry<T>>, cutoff: real)
    ensures Live(a + b, cutoff) == Live(a, cutoff) + Live(b, cutoff)
  {
    if b == [] {
      assert a + b == a;
    } else {
      LiveAppend(a, b[..|b| - 1], cutoff);
      assert (a + b)[..|a + b| - 1] == a + b[..|b| - 1];
    }
  }

  lemma LiveElements<T(!new)>(h: seq<Entry<T>>, cutoff: real)
    ensures forall e :: e in Live(h, cutoff) <==> e in h && e.ts > cutoff
    ensures |Live(h, cutoff)| <= |h|
  {
    if h != [] {
      LiveElements(h[..|h| - 1], cutoff);
      assert h == h[..|h| - 1] + [h[|h| - 1]];
    }
  }

  lemma LiveAll<T>(h: seq<Entry<T>>, cutoff: real)
    requires forall e :: e in h ==> e.ts > cutoff
    ensures Live(h, cutoff) == h
  {
    if h != [] {
      assert h == h[..|h| - 1] + [h[|h| - 1]];
      LiveAll(h[..|h| - 1], cutoff);
    }
  }

  /** Raising the cutoff of an already filtered history is filtering the history once. */
  lemma {:induction false} LiveTwice<T>(h: seq<Entry<T>>, c: real, c': real)
    requires c <= c'
    ensures Live(Live(h, c), c') == Live(h, c')
  {
    if h != [] {
      var front, last := h[..|h| - 1], h[|h| - 1];
      LiveTwice(front, c, c');
      if last.ts > c {
        LiveAppend(Live(front, c), [last], c');
        assert [last][..0] == [];
      } else {
        assert Live(h, c) == Live(front, c);
      }
    }
  }

  /** No expired entry sits behind a live one. */
  ghost predicate NoneHidden<T>(entries: seq<Entry<T>>, cutoff: real) {
    forall i, j :: 0 <= i < j < |entries| && entries[i].ts > cutoff ==> entries[j].ts > cutoff
  }

  lemma {:induction false} PopFilters<T(!new)>(entries: seq<Entry<T>>, cutoff: real)
    requires NoneHidden(entries, cutoff)
    ensures PopExpired(entries, cutoff) == Live(entries, cutoff)
    decreases |entries|
  {
    if entries != [] && entries[0].ts <= cutoff {
      var rest := entries[1..];
      PopFilters(rest, cutoff);
      LiveAppend([entries[0]], rest, cutoff);
      assert [entries[0]] + rest == entries;
      assert [entries[0]][..0] == [];
    } else {
      forall e | e in entries ensures e.ts > cutoff {
        var j :| 0 <= j < |entries| && entries[j] == e;
        assert entries[0].ts > cutoff;
      }
      LiveAll(entries, cutoff);
    }
  }

  /** What is left after popping starts with a live entry and hides whatever was hidden before. */
  lemma {:induction false} PopLeaves<T(!new)>(entries: seq<Entry<T>>, cutoff: real, i: nat, j: nat)
    requires i < j < |entries| && entries[i].ts > cutoff && entries[j].ts <= cutoff
    ensures entries[j] in PopExpired(entries, cutoff)
    decreases |entries|
  {
    if entries[0].ts <= cutoff {
      var rest := entries[1..];
      assert rest[i - 1] == entries[i] && rest[j - 1] == entries[j];
      PopLeaves(rest, cutoff, i - 1, j - 1);
    }
  }

  /** Popping from the left leaves exactly the live entries if and only if no expired entry is hidden
      behind a live one, which an ordered deque never has. */
  lemma PopIsFilter<T(!new)>(entries: seq<Entry<T>>, cutoff: real)
    ensures PopExpired(entries, cutoff) == Live(entries, cutoff) <==> NoneHidden(entries, cutoff)
    ensures Ordered(entries) ==> PopExpired(entries, cutoff) == Live(entries, cutoff)
  {
    if NoneHidden(entries, cutoff) {
      PopFilters(entries, cutoff);
    } else {
      var i, j :| 0 <= i < j < |entries| && entries[i].ts > cutoff && entries[j].ts <= cutoff;
      PopLeaves(entries, cutoff, i, j);
      LiveElements(entries, cutoff);
    }
  }

  // ---- SlidingWindow ----

  function Sum(entries: seq<Entry<real>>): real {
    if entries == [] then 0.0 else Sum(entries[..|entries| - 1]) + entries[|entries| - 1].item
  }

  lemma SumAppend(a: seq<Entry<real>>, b: seq<Entry<real>>)
    ensures Sum(a + b) == Sum(a) + Sum(b)
  {
    if b == [] {
      assert a + b == a;
    } else {
      assert (a + b)[..|a + b| - 1] == a + b[..|b| - 1];
      SumAppend(a, b[..|b| - 1]);
    }
  }

  lemma SumNonNegative(a: seq<Entry<real>>)
    requires forall e :: e in a ==> e.item >= 0.0
    ensures Sum(a) >= 0.0
  {
  }

  /** The contents of a `SlidingWindow`: its deque and its running total. */
  datatype Summed = Summed(entries: seq<Entry<real>>, total: real)

  /** The only total that agrees with a deque. */
  function SummedOf(entries: seq<Entry<real>>): Summed {
    Summed(entries, Sum(entries))
  }

  function AddValue(s: Summed, e: Entry<real>): Summed {
    Summed(s.entries + [e], s.total + e.item)
  }

  /** Pop what has fallen out of the window, subtracting each value from the running total; the total
      is reset outright once nothing is left. */
  function ExpireValues(s: Summed, cutoff: real): Summed
    decreases |s.entries|
  {
    if s.entries == [] then Summed([], 0.0)
    else if s.entries[0].ts > cutoff then s
    else ExpireValues(Summed(s.entries[1..], s.total - s.entries[0].item), cutoff)
  }

  lemma AddValueExact(entries: seq<Entry<real>>, e: Entry<real>)
    ensures AddValue(SummedOf(entries), e) == SummedOf(entries + [e])
  {
    SumAppend(entries, [e]);
    assert [e][..0] == [];
  }

  /** Subtracting as entries leave keeps the total equal to a fresh sum of what is left. */
  lemma {:induction false} ExpireValuesExact(entries: seq<Entry<real>>, cutoff: real)
    ensures ExpireValues(SummedOf(entries), cutoff) == SummedOf(PopExpired(entries, cutoff))
    decreases |entries|
  {
    if entries != [] && entries[0].ts <= cutoff {
      assert entries == entries[..1] + entries[1..];
      SumAppend(entries[..1], entries[1..]);
      assert entries[..1][..0] == [];
      ExpireValuesExact(entries[1..], cutoff);
    }
  }

  /** Time-bounded sum and count of numeric observations. */
  class SlidingWindow {
    const size: real
    var entries: seq<Entry<real>>
    var sum: real
    var firstSeen: Option<real>

    ghost function Model(): Summed
      reads this
    {
      Summed(entries, sum)
    }

    ghost predicate Valid()
      reads this
    {
      Model() == SummedOf(entries)
    }

    constructor (size: real)
      requires size > 0.0
      ensures Valid() && this.size == size && entries == [] && firstSeen == None
    {
      this.size := size;
      entries, sum, firstSeen := [], 0.0, None;
    }

    method Add(ts: real, value: real)
      requires Valid()
      modifies this
      ensures Valid()
      ensures entries == old(entries) + [Entry(ts, value)]
      ensures firstSeen == if old(firstSeen).None? then Some(ts) else old(firstSeen)
    {
      AddValueExact(entries, Entry(ts, value));
      entries := entries + [Entry(ts, value)];
      sum := sum + value;
      if firstSeen.None? {
        firstSeen := Some(ts);
      }
    }

    method Expire(now: real)
      requires Valid()
      modifies this
      ensures Valid() && firstSeen == old(firstSeen)
      ensures Model() == ExpireValues(old(Model()), now - size)
      ensures entries == PopExpired(old(entries), now - size)
      ensures Ordered(old(entries)) ==> entries == Live(old(entries), now - size)
    {
      var cutoff := now - size;
      PopIsFilter(entries, cutoff);
      ExpireValuesExact(entries, cutoff);
      while entries != [] && entries[0].ts <= cutoff
        invariant firstSeen == old(firstSeen)
        invariant ExpireValues(Model(), cutoff) == ExpireValues(old(Model()), cutoff)
        decreases |entries|
      {
        sum := sum - entries[0].item;
        entries := entries[1..];
      }
      if entries == [] {
        sum := 0.0;
      }
    }

    function Count(): nat
      reads this
    {
      |entries|
    }

    /** Never negative, and the sum of the entries when that is not. */
    function Total(): (t: real)
      reads this
      ensures t >= 0.0
      ensures Valid() && Sum(entries) >= 0.0 ==> t == Sum(entries)
    {
      Max(0.0, sum)
    }

    /** The mean of the entries, when none is negative. */
    function Mean(): (m: real)
      requires Valid()
      reads this
      ensures entries == [] ==> m == 0.0
      ensures entries != [] && (forall e :: e in entries ==> e.item >= 0.0) ==> m * |entries| as real == Sum(entries)
    {
      ClampWhenPositive(entries);
      if entries == [] then 0.0 else Total() / Count() as real
    }
  }

  /** With non-negative observations the clamp at zero in `Total` never changes anything. */
  lemma ClampIsInert(entries: seq<Entry<real>>)
    requires forall e :: e in entries ==> e.item >= 0.0
    ensures Max(0.0, SummedOf(entries).total) == Sum(entries)
  {
    SumNonNegative(entries);
  }

  lemma ClampWhenPositive(entries: seq<Entry<real>>)
    ensures (forall e :: e in entries ==> e.item >= 0.0) ==> Max(0.0, SummedOf(entries).total) == Sum(entries)
  {
    if forall e :: e in entries ==> e.item >= 0.0 {
      ClampIsInert(entries);
    }
  }

  // ---- UniqueTracker ----

  /** How many entries carry key `k`. */
  function Occurrences<K(==)>(entries: seq<Entry<K>>, k: K): nat {
    if entries == [] then 0
    else (if entries[0].item == k then 1 else 0) + Occurrences(entries[1..], k)
  }

  /** The contents of a `UniqueTracker`: its deque and its key counts. */
  datatype Tallied<K> = Tallied(entries: seq<Entry<K>>, counts: map<K, nat>)
  {
    /** The counts are the multiset of the keys in the deque, without zero entries. */
    ghost predicate Exact() {
      && (forall k :: k in counts ==> counts[k] == Occurrences(entries, k) && counts[k] >= 1)
      && (forall e :: e in entries ==> e.item in counts)
    }
  }

  function AddKey<K(==)>(t: Tallied<K>, e: Entry<K>): Tallied<K> {
    Tallied(t.entries + [e], t.counts[e.item := (if e.item in t.counts then t.counts[e.item] else 0) + 1])
  }

  /** Take one occurrence of a key out of the counts, deleting the key with its last occurrence. */
  function Discount<K(==)>(counts: map<K, nat>, k: K): map<K, nat> {
    if k in counts && counts[k] > 1 then counts[k := counts[k] - 1] else counts - {k}
  }

  function ExpireKeys<K(==)>(t: Tallied<K>, cutoff: real): Tallied<K>
    decreases |t.entries|
  {
    if t.entries == [] || t.entries[0].ts > cutoff then t
    else ExpireKeys(Tallied(t.entries[1..], Discount(t.counts, t.entries[0].item)), cutoff)
  }

  lemma OccurrencesAppend<K>(a: seq<Entry<K>>, e: Entry<K>, k: K)
    ensures Occurrences(a + [e], k) == Occurrences(a, k) + (if e.item == k then 1 else 0)
  {
    if a != [] {
      assert (a + [e])[1..] == a[1..] + [e];
    }
  }

  lemma OccursIn<K(!new)>(entries: seq<Entry<K>>, k: K)
    ensures Occurrences(entries, k) > 0 <==> exists e :: e in entries && e.item == k
  {
    if entries != [] {
      OccursIn(entries[1..], k);
      assert entries[0] in entries;
      if e :| e in entries && e.item == k && e != entries[0] {
        assert e in entries[1..];
      }
    }
  }

  lemma AddKeyExact<K(!new)>(t: Tallied<K>, e: Entry<K>)
    requires t.Exact()
    ensures AddKey(t, e).Exact()
  {
    var t' := AddKey(t, e);
    OccursIn(t.entries, e.item);
    forall k | k in t'.counts ensures t'.counts[k] == Occurrences(t'.entries, k) && t'.counts[k] >= 1 {
      OccurrencesAppend(t.entries, e, k);
    }
  }

  lemma DiscountExact<K(!new)>(t: Tallied<K>)
    requires t.Exact() && t.entries != []
    ensures Tallied(t.entries[1..], Discount(t.counts, t.entries[0].item)).Exact()
  {
    var rest, k := t.entries[1..], t.entries[0].item;
    assert t.entries[0] in t.entries;
    OccursIn(rest, k);
    forall e | e in rest ensures e.item in Discount(t.counts, k) {
      assert e in t.entries;
    }
  }

  /** Decrementing and deleting as entries leave keeps the counts equal to a fresh count. */
  lemma {:induction false} ExpireKeysExact<K(!new)>(t: Tallied<K>, cutoff: real)
    requires t.Exact()
    ensures ExpireKeys(t, cutoff).Exact()
    ensures ExpireKeys(t, cutoff).entries == PopExpired(t.entries, cutoff)
    decreases |t.entries|
  {
    if t.entries != [] && t.entries[0].ts <= cutoff {
      DiscountExact(t);
      ExpireKeysExact(Tallied(t.entries[1..], Discount(t.counts, t.entries[0].item)), cutoff);
    }
  }

  function KeySet<K(==)>(entries: seq<Entry<K>>): set<K> {
    set e | e in entries :: e.item
  }

  /** The number of tracked keys is the number of distinct keys among the entries. */
  lemma CardinalityIsDistinct<K(!new)>(t: Tallied<K>)
    requires t.Exact()
    ensures t.counts.Keys == KeySet(t.entries)
    ensures |t.counts| == |KeySet(t.entries)| <= |t.entries|
  {
    forall k | k in t.counts ensures k in KeySet(t.entries) {
      OccursIn(t.entries, k);
    }
    assert t.counts.Keys == KeySet(t.entries);
    assert |t.counts| == |t.counts.Keys|;
    KeySetSmall(t.entries);
  }

  lemma KeySetSmall<K>(entries: seq<Entry<K>>)
    ensures |KeySet(entries)| <= |entries|
  {
    if entries != [] {
      var front, last := entries[..|entries| - 1], entries[|entries| - 1];
      KeySetSmall(front);
      assert entries == front + [last];
      assert KeySet(entries) == KeySet(front) + {last.item};
    }
  }

  /** Time-bounded multiset of keys. */
  class UniqueTracker<K(==,!new)> {
    const size: real
    var entries: seq<Entry<K>>
    var counts: map<K, nat>

    ghost predicate Valid()
      reads this
    {
      Model().Exact()
    }

    ghost function Model(): Tallied<K>
      reads this
    {
      Tallied(entries, counts)
    }

    constructor (size: real)
      requires size > 0.0
      ensures Valid() && this.size == size && entries == []
    {
      this.size := size;
      entries, counts := [], map[];
    }

    method Add(ts: real, key: K)
      requires Valid()
      modifies this
      ensures Valid()
      ensures entries == old(entries) + [Entry(ts, key)]
    {
      AddKeyExact(Model(), Entry(ts, key));
      entries := entries + [Entry(ts, key)];
      counts := counts[key := (if key in counts then counts[key] else 0) + 1];
    }

    method Expire(now: real)
      requires Valid()
      modifies this
      ensures Valid()
      ensures Model() == ExpireKeys(old(Model()), now - size)
      ensures entries == PopExpired(old(entries), now - size)
      ensures Ordered(old(entries)) ==> entries == Live(old(entries), now - size)
    {
      var cutoff := now - size;
      PopIsFilter(entries, cutoff);
      ExpireKeysExact(Model(), cutoff);
      while entries != [] && entries[0].ts <= cutoff
        invariant Valid()
        invariant ExpireKeys(Model(), cutoff) == ExpireKeys(old(Model()), cutoff)
        decreases |entries|
      {
        PopOldest();
      }
    }

    /** Take the oldest entry out of the deque and out of the counts. */
    method PopOldest()
      requires Valid() && entries != []
      modifies this
      ensures Valid() && entries == old(entries)[1..] && counts == Discount(old(counts), old(entries)[0].item)
    {
      DiscountExact(Model());
      assert entries[0] in entries;
      var key := entries[0].item;
      entries := entries[1..];
      if counts[key] <= 1 {
        counts := counts - {key};
      } else {
        counts := counts[key := counts[key] - 1];
      }
    }

    function Cardinality(): (n: nat)
      requires Valid()
      reads this
      ensures n == |KeySet(entries)|
    {
      CardinalityIsDistinct(Model());
      |counts|
    }
  }

  // ---- Any run of adds and expiries ----

  datatype Op<+T> = Add(ts: real, item: T) | Expire(now: real)

  function Clock<T>(op: Op<T>): real {
    match op case Add(ts, _) => ts case Expire(now) => now
  }

  /** Time never runs backwards over the run. */
  ghost predicate Clocked<T>(ops: seq<Op<T>>) {
    forall i, j :: 0 <= i < j < |ops| ==> Clock(ops[i]) <= Clock(ops[j])
  }

  /** The deque after the run, exactly as `Add` and `Expire` above leave it. */
  function Deque<T>(size: real, ops: seq<Op<T>>): seq<Entry<T>> {
    if ops == [] then []
    else
      var before := Deque(size, ops[..|ops| - 1]);
      match ops[|ops| - 1]
      case Add(ts, item) => before + [Entry(ts, item)]
      case Expire(now) => PopExpired(before, now - size)
  }

  /** Everything ever added. */
  function Added<T>(ops: seq<Op<T>>): seq<Entry<T>> {
    if ops == [] then []
    else
      match ops[|ops| - 1]
      case Add(ts, item) => Added(ops[..|ops| - 1]) + [Entry(ts, item)]
      case Expire(_) => Added(ops[..|ops| - 1])
  }

  /** The cutoff of the last expiry, if there was one. */
  function Horizon<T>(size: real, ops: seq<Op<T>>): Option<real> {
    if ops == [] then None
    else
      match ops[|ops| - 1]
      case Add(_, _) => Horizon(size, ops[..|ops| - 1])
      case Expire(now) => Some(now - size)
  }

  function Above<T>(history: seq<Entry<T>>, horizon: Option<real>): seq<Entry<T>> {
    match horizon
    case None => history
    case Some(c) => Live(history, c)
  }

  lemma LiveOrdered<T(!new)>(h: seq<Entry<T>>, c: real)
    requires Ordered(h)
    ensures Ordered(Live(h, c))
  {
    if h != [] {
      LiveOrdered(h[..|h| - 1], c);
      LiveElements(h[..|h| - 1], c);
      var l := Live(h[..|h| - 1], c);
      forall i | 0 <= i < |l| ensures l[i].ts <= h[|h| - 1].ts {
        assert l[i] in h[..|h| - 1];
      }
    }
  }

  lemma ClockedFront<T(!new)>(ops: seq<Op<T>>)
    requires ops != [] && Clocked(ops)
    ensures var before, last := ops[..|ops| - 1], ops[|ops| - 1];
            Clocked(before) && forall op :: op in before ==> Clock(op) <= Clock(last)
  {
    var before, last := ops[..|ops| - 1], ops[|ops| - 1];
    forall op | op in before ensures Clock(op) <= Clock(last) {
      var i :| 0 <= i < |before| && before[i] == op;
      assert ops[i] == op;
    }
  }

  lemma AddedBounded<T(!new)>(size: real, ops: seq<Op<T>>, clock: real)
    requires Clocked(ops) && forall op :: op in ops ==> Clock(op) <= clock
    ensures Ordered(Added(ops)) && forall e :: e in Added(ops) ==> e.ts <= clock
    ensures Horizon(size, ops).Some? ==> Horizon(size, ops).value <= clock - size
  {
    if ops != [] {
      var before, last := ops[..|ops| - 1], ops[|ops| - 1];
      assert last in ops;
      ClockedFront(ops);
      AddedBounded(size, before, Clock(last));
      var h := Added(before);
      assert forall i :: 0 <= i < |h| ==> h[i] in h;
    }
  }

  /** Over any run whose clock never goes backwards the deque is exactly the whole history filtered by
      the last cutoff: nothing is lost early and nothing lingers. */
  lemma {:induction false} DequeIsFilteredHistory<T(!new)>(size: real, ops: seq<Op<T>>)
    requires size > 0.0 && Clocked(ops)
    ensures Deque(size, ops) == Above(Added(ops), Horizon(size, ops))
  {
    if ops != [] {
      var before, last := ops[..|ops| - 1], ops[|ops| - 1];
      ClockedFront(ops);
      DequeIsFilteredHistory(size, before);
      AddedBounded(size, before, Clock(last));
      assert ops == before + [last];
      match last
      case Add(ts, item) => FilteredAdd(size, before, ts, item);
      case Expire(now) => FilteredExpire(size, before, now);
    }
  }

  lemma {:induction false} FilteredAdd<T(!new)>(size: real, ops: seq<Op<T>>, ts: real, item: T)
    requires size > 0.0 && Deque(size, ops) == Above(Added(ops), Horizon(size, ops))
    requires Horizon(size, ops).Some? ==> Horizon(size, ops).value <= ts - size
    ensures var more := ops + [Add(ts, item)]; Deque(size, more) == Above(Added(more), Horizon(size, more))
  {
    assert (ops + [Add(ts, item)])[..|ops|] == ops;
    AddKeeps(Added(ops), Horizon(size, ops), Entry(ts, item));
  }

  lemma {:induction false} FilteredExpire<T(!new)>(size: real, ops: seq<Op<T>>, now: real)
    requires size > 0.0 && Deque(size, ops) == Above(Added(ops), Horizon(size, ops)) && Ordered(Added(ops))
    requires Horizon(size, ops).Some? ==> Horizon(size, ops).value <= now - size
    ensures var more := ops + [Expire(now)]; Deque(size, more) == Above(Added(more), Horizon(size, more))
  {
    assert (ops + [Expire(now)])[..|ops|] == ops;
    ExpireKeeps(Added(ops), Horizon(size, ops), now - size);
  }

  lemma AddKeeps<T(!new)>(h: seq<Entry<T>>, horizon: Option<real>, e: Entry<T>)
    requires horizon.Some? ==> horizon.value < e.ts
    ensures Above(h, horizon) + [e] == Above(h + [e], horizon)
  {
    if horizon.Some? {
      LiveAppend(h, [e], horizon.value);
      assert [e][..0] == [];
    }
  }

  lemma ExpireKeeps<T(!new)>(h: seq<Entry<T>>, horizon: Option<real>, c: real)
    requires Ordered(h) && (horizon.Some? ==> horizon.value <= c)
    ensures PopExpired(Above(h, horizon), c) == Live(h, c)
  {
    PopIsFilter(Above(h, horizon), c);
    if horizon.Some? {
      LiveOrdered(h, horizon.value);
      LiveTwice(h, horizon.value, c);
    }
  }
}
