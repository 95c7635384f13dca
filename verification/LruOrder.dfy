/** The order of a bounded map over runs that also overwrite values and drop entries: the keys stand by the time they
    were last touched, so what overflows is the key touched longest ago. */
module LruOrder {
  import opened Common
  import opened LruMaps

  /** The keys stand in the order of their stamps, which are positive. */
  ghost predicate ByStamp<K(!new)>(order: seq<K>, stamp: K -> nat) {
    && (forall i, j :: 0 <= i < j < |order| ==> stamp(order[i]) < stamp(order[j]))
    && (forall k :: k in order ==> stamp(k) >= 1)
  }

  ghost predicate Precedes<K(!new)>(s: seq<K>, a: K, b: K) {
    exists i, j :: 0 <= i < j < |s| && s[i] == a && s[j] == b
  }

  lemma {:induction false} AppendByStamp<K(!new)>(order: seq<K>, k: K, stamp: K -> nat)
    requires ByStamp(order, stamp) && stamp(k) >= 1 && forall x :: x in order ==> stamp(x) < stamp(k)
    ensures ByStamp(order + [k], stamp)
  {
  }

  lemma {:induction false} KeepByStamp<K(!new)>(s: seq<K>, ks: set<K>, stamp: K -> nat)
    requires ByStamp(s, stamp)
    ensures ByStamp(Keep(s, ks), stamp)
  {
    if s != [] {
      var front, last := s[..|s| - 1], s[|s| - 1];
      KeepByStamp(front, ks, stamp);
      KeepElements(front, ks);
      if last in ks {
        forall x | x in Keep(front, ks) ensures stamp(x) < stamp(last) {
          var i :| 0 <= i < |front| && front[i] == x;
        }
        AppendByStamp(Keep(front, ks), last, stamp);
      } else {
        assert Keep(s, ks) == Keep(front, ks);
      }
    }
  }

  lemma {:induction false} PrependByStamp<K(!new)>(k: K, order: seq<K>, stamp: K -> nat)
    requires ByStamp(order, stamp) && stamp(k) >= 1 && forall x :: x in order ==> stamp(k) < stamp(x)
    ensures ByStamp([k] + order, stamp)
  {
    forall i, j | 0 <= i < j < |order| + 1 ensures stamp(([k] + order)[i]) < stamp(([k] + order)[j]) {
      assert ([k] + order)[j] == order[j - 1] && order[j - 1] in order;
    }
  }

  lemma {:induction false} RestByStamp<K(!new)>(s: seq<K>, stamp: K -> nat)
    requires s != [] && ByStamp(s, stamp)
    ensures ByStamp(s[1..], stamp) && forall x :: x in s[1..] ==> stamp(s[0]) < stamp(x)
  {
    var rest := s[1..];
    assert forall i :: 0 <= i < |rest| ==> rest[i] == s[i + 1];
  }

  lemma {:induction false} WithoutByStamp<K(!new)>(s: seq<K>, k: K, stamp: K -> nat)
    requires ByStamp(s, stamp)
    ensures ByStamp(Without(s, k), stamp)
  {
    if s != [] {
      RestByStamp(s, stamp);
      WithoutByStamp(s[1..], k, stamp);
      WithoutElements(s[1..], k);
      if s[0] != k {
        PrependByStamp(s[0], Without(s[1..], k), stamp);
      }
    }
  }

  /** The keys a touch leaves in front of the one touched. */
  function Others<K(==), V>(m: Lru<K, V>, k: K): seq<K> {
    if k in m.values then Without(m.order, k)
    else if |m.order| < m.capacity || m.order == [] then m.order
    else m.order[1..]
  }

  lemma {:induction false} OthersByStamp<K(!new), V>(m: Lru<K, V>, k: K, v: V, stamp: K -> nat)
    requires m.Valid() && ByStamp(m.order, stamp)
    ensures LruTouch(m, k, v).order == Others(m, k) + [k] && ByStamp(Others(m, k), stamp)
    ensures forall x :: x in Others(m, k) ==> x in m.order && x != k
  {
    if k in m.values {
      WithoutByStamp(m.order, k, stamp);
      WithoutElements(m.order, k);
    }
  }

  /** Touching a key with the latest stamp keeps the order by stamps. */
  lemma {:induction false} TouchByStamp<K(!new), V>(m: Lru<K, V>, k: K, v: V, stamp: K -> nat, stamp': K -> nat)
    requires m.Valid() && ByStamp(m.order, stamp)
    requires forall x :: x != k ==> stamp'(x) == stamp(x)
    requires stamp'(k) >= 1 && forall x :: x in m.order ==> stamp(x) < stamp'(k)
    ensures ByStamp(LruTouch(m, k, v).order, stamp')
  {
    OthersByStamp(m, k, v, stamp);
    SameStamps(Others(m, k), stamp, stamp');
    AppendByStamp(Others(m, k), k, stamp');
  }

  lemma {:induction false} SameStamps<K(!new)>(order: seq<K>, stamp: K -> nat, stamp': K -> nat)
    requires ByStamp(order, stamp) && forall x :: x in order ==> stamp'(x) == stamp(x)
    ensures ByStamp(order, stamp')
  {
    forall i, j | 0 <= i < j < |order| ensures stamp'(order[i]) < stamp'(order[j]) {
      assert order[i] in order && order[j] in order;
    }
  }

  lemma {:induction false} RetainByStamp<K(!new), V>(m: Lru<K, V>, keep: V -> bool, stamp: K -> nat)
    requires ByStamp(m.order, stamp)
    ensures ByStamp(LruRetain(m, keep).order, stamp)
  {
    KeepByStamp(m.order, LruRetain(m, keep).values.Keys, stamp);
  }

  /** An overflowing touch evicts the held key with the earliest stamp and no other. */
  lemma {:induction false} OverflowEvicts<K(!new), V>(m: Lru<K, V>, k: K, v: V, stamp: K -> nat) returns (out: K)
    requires m.Valid() && ByStamp(m.order, stamp) && LruTouch(m, k, v).evictions != m.evictions
    ensures out in m.values && out !in LruTouch(m, k, v).values
    ensures forall x :: x in m.values && x != out ==> x in LruTouch(m, k, v).values && stamp(out) < stamp(x)
  {
    out := m.order[0];
    assert out in m.order;
    forall x | x in m.values && x != out ensures stamp(out) < stamp(x) {
      var j :| 0 <= j < |m.order| && m.order[j] == x;
    }
  }

  // ---- Dropping entries keeps the order of the rest ----

  /** One more than the place of a key. */
  function Place<K(==)>(s: seq<K>, k: K): nat {
    if s == [] then 0 else if s[|s| - 1] == k then |s| else Place(s[..|s| - 1], k)
  }

  lemma {:induction false} PlaceIs<K(!new)>(s: seq<K>, k: K)
    requires Distinct(s)
    ensures Place(s, k) <= |s| && (Place(s, k) >= 1 <==> k in s)
    ensures forall i :: 0 <= i < |s| && s[i] == k ==> Place(s, k) == i + 1
  {
    if s != [] {
      PlaceIs(s[..|s| - 1], k);
    }
  }

  lemma {:induction false} ByPlace<K(!new)>(s: seq<K>)
    requires Distinct(s)
    ensures ByStamp(s, k => Place(s, k))
  {
    forall i | 0 <= i < |s| ensures Place(s, s[i]) == i + 1 {
      PlaceIs(s, s[i]);
    }
  }

  /** In an order by stamps, of two keys the one with the lower stamp stands first. */
  lemma {:induction false} PrecedesIff<K(!new)>(s: seq<K>, stamp: K -> nat, a: K, b: K)
    requires ByStamp(s, stamp) && a in s && b in s
    ensures Precedes(s, a, b) <==> stamp(a) < stamp(b)
  {
    var i :| 0 <= i < |s| && s[i] == a;
    var j :| 0 <= j < |s| && s[j] == b;
    assert i < j ==> stamp(a) < stamp(b);
    assert j < i ==> stamp(b) < stamp(a);
  }

  /** Of two entries that pass, one stands before the other in the retained map exactly if it did before. */
  lemma {:induction false} RetainOrder<K(!new), V>(m: Lru<K, V>, keep: V -> bool, a: K, b: K)
    requires m.Valid() && a in m.values && b in m.values && keep(m.values[a]) && keep(m.values[b])
    ensures Precedes(LruRetain(m, keep).order, a, b) <==> Precedes(m.order, a, b)
  {
    var stamp := (k: K) => Place(m.order, k);
    ByPlace(m.order);
    RetainByStamp(m, keep, stamp);
    KeepElements(m.order, LruRetain(m, keep).values.Keys);
    PrecedesIff(m.order, stamp, a, b);
    PrecedesIff(LruRetain(m, keep).order, stamp, a, b);
  }

  // ---- Runs of touches, overwritten values and dropped entries ----

  datatype Op<!K, !V> = TouchOp(k: K, v: V) | PutOp(k: K, v: V) | RetainOp(keep: V -> bool)

  function Do<K(==), V>(m: Lru<K, V>, op: Op<K, V>): Lru<K, V> {
    match op
    case TouchOp(k, v) => LruTouch(m, k, v)
    case PutOp(k, v) => if k in m.values then LruPut(m, k, v) else m
    case RetainOp(keep) => LruRetain(m, keep)
  }

  function Ops<K(==), V>(capacity: nat, ops: seq<Op<K, V>>): Lru<K, V> {
    if ops == [] then Empty(capacity) else Do(Ops(capacity, ops[..|ops| - 1]), ops[|ops| - 1])
  }

  /** When a key was last touched: the number of that operation, from one on. */
  function LastTouch<K(==), V>(ops: seq<Op<K, V>>, k: K): nat {
    if ops == [] then 0
    else
      var last := ops[|ops| - 1];
      if last.TouchOp? && last.k == k then |ops| else LastTouch(ops[..|ops| - 1], k)
  }

  lemma {:induction false} TouchedBefore<K(!new), V(!new)>(ops: seq<Op<K, V>>, k: K)
    ensures LastTouch(ops, k) <= |ops|
  {
    if ops != [] {
      TouchedBefore(ops[..|ops| - 1], k);
    }
  }

  /** After any run the map is valid and its keys stand by the time of their last touch. */
  lemma {:induction false} OpsExact<K(!new), V(!new)>(capacity: nat, ops: seq<Op<K, V>>)
    requires capacity >= 1
    ensures Ops(capacity, ops).Valid()
    ensures ByStamp(Ops(capacity, ops).order, k => LastTouch(ops, k))
  {
    if ops != [] {
      var front, op := ops[..|ops| - 1], ops[|ops| - 1];
      OpsExact(capacity, front);
      var m := Ops(capacity, front);
      var was, now := (k: K) => LastTouch(front, k), (k: K) => LastTouch(ops, k);
      match op
      case TouchOp(k, v) =>
        TouchValid(m, k, v);
        forall x | x in m.order ensures was(x) < now(k) {
          TouchedBefore(front, x);
        }
        TouchByStamp(m, k, v, was, now);
      case PutOp(k, v) => SameStamps(m.order, was, now);
      case RetainOp(keep) =>
        RetainValid(m, keep);
        RetainByStamp(m, keep, was);
        SameStamps(LruRetain(m, keep).order, was, now);
    }
  }

  /** What overflows over any run is the held key touched longest ago, and nothing else. */
  lemma {:induction false} OldestOverflows<K(!new), V(!new)>(capacity: nat, ops: seq<Op<K, V>>, k: K, v: V)
    returns (out: K)
    requires capacity >= 1 && LruTouch(Ops(capacity, ops), k, v).evictions != Ops(capacity, ops).evictions
    ensures var m := Ops(capacity, ops);
            && out in m.values && out !in LruTouch(m, k, v).values
            && forall x :: x in m.values && x != out ==>
                 x in LruTouch(m, k, v).values && LastTouch(ops, out) < LastTouch(ops, x)
  {
    OpsExact(capacity, ops);
    out := OverflowEvicts(Ops(capacity, ops), k, v, x => LastTouch(ops, x));
  }
}
