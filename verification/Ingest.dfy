/** The normalizer's bounded dedup memory and the event stream it lets through. */
module Ingest {
  import opened Common

  /** Remember a fresh id; on overflow the oldest quarter of the memory is dropped in one pass. */
  function Remember<K>(capacity: nat, seen: seq<K>, id: K): seq<K> {
    var grown := seen + [id];
    if |grown| > capacity then grown[capacity / 4..] else grown
  }

  /** The shortest the memory can be once it has been full: what one drop leaves. */
  function Floor(capacity: nat): nat { capacity + 1 - capacity / 4 }

  /** The memory after the fresh ids `fed`, oldest first. */
  function Memory<K>(capacity: nat, fed: seq<K>): seq<K> {
    if fed == [] then [] else Remember(capacity, Memory(capacity, fed[..|fed| - 1]), fed[|fed| - 1])
  }

  /** How many ids the memory holds after `n` fresh ones: all of them until the first overflow, then from what one drop
      leaves up to the capacity, over and over, in turns of a quarter. */
  function Held(capacity: nat, n: nat): nat {
    if capacity < 4 || n <= capacity then n else capacity + 1 - capacity / 4 + (n - capacity - 1) % (capacity / 4)
  }

  lemma ModNext(x: nat, q: nat)
    requires q > 0
    ensures 0 <= x % q < q && (x + 1) % q == if x % q == q - 1 then 0 else x % q + 1
  {
    DivMod(x, q);
    var d, r := x / q, x % q;
    if r == q - 1 {
      assert (d + 1) * q == d * q + q;
      ModOf(x + 1, q, d + 1, 0);
    } else {
      ModOf(x + 1, q, d, r + 1);
    }
  }

  lemma {:induction false} HeldNext(capacity: nat, n: nat)
    requires capacity >= 4
    ensures Held(capacity, n + 1) ==
            if Held(capacity, n) + 1 > capacity then Held(capacity, n) + 1 - capacity / 4 else Held(capacity, n) + 1
  {
    var q := capacity / 4;
    if n > capacity {
      ModNext(n - capacity - 1, q);
    } else if n == capacity {
      ModOf(0, q, 0, 0);
    }
  }

  /** The last `h` of a sequence. */
  function Last<K>(s: seq<K>, h: nat): seq<K>
    requires h <= |s|
  {
    s[|s| - h..]
  }

  lemma {:induction false} RememberLast<K>(capacity: nat, front: seq<K>, id: K, h: nat)
    requires h <= |front| && capacity >= 4
    ensures Remember(capacity, Last(front, h), id) ==
            Last(front + [id], if h + 1 > capacity then h + 1 - capacity / 4 else h + 1)
  {
    assert Last(front, h) + [id] == Last(front + [id], h + 1);
    if h + 1 > capacity {
      assert Last(front + [id], h + 1)[capacity / 4..] == Last(front + [id], h + 1 - capacity / 4);
    }
  }

  /** The memory is exactly the last `Held` fresh ids. */
  lemma {:induction false} MemoryIs<K>(capacity: nat, fed: seq<K>)
    ensures Held(capacity, |fed|) <= |fed|
    ensures Memory(capacity, fed) == Last(fed, Held(capacity, |fed|))
  {
    if capacity < 4 {
      TinyCapacityNeverForgets(capacity, fed);
    } else if fed != [] {
      var front, id := fed[..|fed| - 1], fed[|fed| - 1];
      MemoryIs(capacity, front);
      assert fed == front + [id];
      RememberHeld(capacity, front, id, Held(capacity, |front|), Held(capacity, |fed|));
    }
  }

  lemma {:induction false} RememberHeld<K>(capacity: nat, front: seq<K>, id: K, h: nat, h': nat)
    requires capacity >= 4 && h == Held(capacity, |front|) <= |front| && h' == Held(capacity, |front| + 1)
    ensures h' <= |front| + 1 && Remember(capacity, Last(front, h), id) == Last(front + [id], h')
  {
    HeldNext(capacity, |front|);
    RememberLast(capacity, front, id, h);
  }

  lemma {:induction false} HeldWithin(capacity: nat, n: nat)
    requires capacity >= 4
    ensures Held(capacity, n) <= capacity && Held(capacity, n) <= n
    ensures Held(capacity, n) == n || Held(capacity, n) >= Floor(capacity)
  {
    if n > capacity {
      ModNext(n - capacity - 1, capacity / 4);
    }
  }

  /** So the memory is always a suffix of the fresh ids, never longer than the capacity and never shorter
      than what one drop leaves (or everything, before that). */
  lemma {:induction false} MemoryIsSuffix<K>(capacity: nat, fed: seq<K>)
    requires capacity >= 4
    ensures var m := Memory(capacity, fed);
            && |m| <= capacity && |m| <= |fed| && m == fed[|fed| - |m|..]
            && (|m| == |fed| || |m| >= Floor(capacity))
  {
    MemoryIs(capacity, fed);
    HeldWithin(capacity, |fed|);
  }

  /** What makes an id a duplicate, whatever was fed: it is among the last `Held` fresh ids. */
  lemma {:induction false} DuplicateIff<K(!new)>(capacity: nat, fed: seq<K>, id: K)
    ensures id in Memory(capacity, fed) <==>
            exists p :: 0 <= p < |fed| && |fed| - p <= Held(capacity, |fed|) && fed[p] == id
  {
    MemoryIs(capacity, fed);
    var m, k := Memory(capacity, fed), |fed| - Held(capacity, |fed|);
    forall p | k <= p < |fed| ensures fed[p] in m {
      assert m[p - k] == fed[p];
    }
  }

  /** An id last let through at place `p` is a duplicate exactly while no more than `Held` ids have been let through
      from it on. */
  lemma {:induction false} ForgottenIff<K(!new)>(capacity: nat, fed: seq<K>, p: nat)
    requires p < |fed| && fed[p] !in fed[p + 1..]
    ensures fed[p] in Memory(capacity, fed) <==> |fed| - p <= Held(capacity, |fed|)
  {
    DuplicateIff(capacity, fed, fed[p]);
    forall q | p < q < |fed| ensures fed[q] != fed[p] {
      assert fed[p + 1..][q - p - 1] == fed[q];
    }
  }

  /** With a capacity under four a quarter rounds down to nothing, so nothing is ever dropped and the
      memory grows without bound. */
  lemma {:induction false} TinyCapacityNeverForgets<K>(capacity: nat, fed: seq<K>)
    requires capacity < 4
    ensures Memory(capacity, fed) == fed
  {
    if fed != [] {
      TinyCapacityNeverForgets(capacity, fed[..|fed| - 1]);
      assert fed == fed[..|fed| - 1] + [fed[|fed| - 1]];
    }
  }

  /** The memory is bounded by its capacity for every input exactly when the capacity is at least four. */
  lemma BoundedIffFour(capacity: nat)
    ensures capacity >= 4 <==> forall fed: seq<int> :: |Memory(capacity, fed)| <= capacity
  {
    if capacity >= 4 {
      forall fed: seq<int> ensures |Memory(capacity, fed)| <= capacity {
        MemoryIsSuffix(capacity, fed);
      }
    } else {
      var many := seq(capacity + 1, i => i);
      TinyCapacityNeverForgets(capacity, many);
      assert |Memory(capacity, many)| > capacity;
    }
  }

  /** A record after parsing: rejected, or an event with its deterministic id. */
  datatype Record<+K> = Rejected | Parsed(id: K)

  /** How many records were rejected. */
  function Rejects<K>(records: seq<Record<K>>): nat {
    if records == [] then 0
    else Rejects(records[..|records| - 1]) + (if records[|records| - 1].Rejected? then 1 else 0)
  }

  /** What one record lets through after the yields `fed`. */
  function Passed<K(==)>(capacity: nat, fed: seq<K>, record: Record<K>): seq<K> {
    match record
    case Rejected => []
    case Parsed(id) => if id in Memory(capacity, fed) then [] else [id]
  }

  /** The ids yielded from a batch of records by a normalizer whose earlier yields were `fed`. */
  function Yielded<K(==)>(capacity: nat, fed: seq<K>, records: seq<Record<K>>): seq<K> {
    if records == [] then []
    else
      var before := Yielded(capacity, fed, records[..|records| - 1]);
      before + Passed(capacity, fed + before, records[|records| - 1])
  }

  lemma Joined<K>(a: seq<K>, b: seq<K>, c: seq<K>)
    ensures a + (b + c) == a + b + c
  {
  }

  lemma {:induction false} OneMoreRecord<K>(capacity: nat, fed: seq<K>, records: seq<Record<K>>, i: nat)
    requires i < |records|
    ensures Rejects(records[..i + 1]) == Rejects(records[..i]) + (if records[i].Rejected? then 1 else 0)
    ensures var before := Yielded(capacity, fed, records[..i]);
            Yielded(capacity, fed, records[..i + 1]) == before + Passed(capacity, fed + before, records[i])
  {
    assert records[..i + 1][..i] == records[..i];
  }

  /** Every yield in `ids[from..]` was outside the memory of the yields before it. */
  ghost predicate FreshFrom<K(!new)>(capacity: nat, ids: seq<K>, from: nat) {
    forall j :: from <= j < |ids| ==> ids[j] !in Memory(capacity, ids[..j])
  }

  lemma {:induction false} YieldsAreFresh<K(!new)>(capacity: nat, fed: seq<K>, records: seq<Record<K>>)
    ensures FreshFrom(capacity, fed + Yielded(capacity, fed, records), |fed|)
  {
    if records != [] {
      YieldsAreFresh(capacity, fed, records[..|records| - 1]);
      var all := fed + Yielded(capacity, fed, records[..|records| - 1]);
      var now := fed + Yielded(capacity, fed, records);
      forall j | |fed| <= j < |now| ensures now[j] !in Memory(capacity, now[..j]) {
        if j < |all| {
          assert now[..j] == all[..j] && now[j] == all[j];
        } else {
          assert now[..j] == all;
        }
      }
    }
  }

  /** Two yields of one id are always separated by at least `Floor` other yields. */
  lemma {:induction false} RepeatsAreFar<K(!new)>(capacity: nat, ids: seq<K>, i: nat, j: nat)
    requires capacity >= 4 && FreshFrom(capacity, ids, 0)
    requires i < j < |ids| && ids[i] == ids[j]
    ensures j - i - 1 >= Floor(capacity)
  {
    var before := ids[..j];
    assert ids[j] !in Memory(capacity, before) && before[i] == ids[j];
    DuplicateIff(capacity, before, ids[j]);
    HeldWithin(capacity, j);
  }

  /** Nothing is dropped that was not yielded before: a duplicate is in the memory, and the memory only
      holds yields. */
  lemma {:induction false} DropsWereYielded<K(!new)>(capacity: nat, fed: seq<K>, id: K)
    requires id in Memory(capacity, fed)
    ensures id in fed
  {
    if fed != [] {
      var front, last := fed[..|fed| - 1], fed[|fed| - 1];
      assert fed == front + [last];
      if id in Memory(capacity, front) {
        DropsWereYielded(capacity, front, id);
      } else {
        var grown := Memory(capacity, front) + [last];
        assert id in grown;
      }
    }
  }

  /** The normalizer. `fed` is the ghost list of every id it ever let through. */
  class Normalizer<K(==,!new)> {
    const capacity: nat
    var seen: seq<K>
    var rejected: nat
    var duplicates: nat
    ghost var fed: seq<K>

    ghost predicate Valid()
      reads this
    {
      && seen == Memory(capacity, fed)
      && FreshFrom(capacity, fed, 0)
    }

    constructor (capacity: nat)
      ensures Valid() && fed == [] && this.capacity == capacity && rejected == 0 && duplicates == 0
    {
      this.capacity := capacity;
      seen, rejected, duplicates, fed := [], 0, 0, [];
    }

    method IsDuplicate(id: K) returns (duplicate: bool)
      requires Valid()
      modifies this`seen, this`fed
      ensures Valid()
      ensures duplicate <==> exists p :: 0 <= p < |old(fed)| && |old(fed)| - p <= Held(capacity, |old(fed)|) &&
                                         old(fed)[p] == id
      ensures duplicate <==> id in Memory(capacity, old(fed))
      ensures fed == if duplicate then old(fed) else old(fed) + [id]
    {
      DuplicateIff(capacity, fed, id);
      if id in seen {
        return true;
      }
      seen := seen + [id];
      if |seen| > capacity {
        seen := seen[capacity / 4..];
      }
      duplicate := false;
      ghost var before := fed;
      fed := fed + [id];
      assert fed[..|before|] == before;
      forall j | 0 <= j < |fed| ensures fed[j] !in Memory(capacity, fed[..j]) {
        if j < |before| {
          assert fed[..j] == before[..j];
        }
      }
    }

    /** One record: rejected, dropped as a duplicate, or let through. */
    method NormalizeOne(record: Record<K>) returns (out: seq<K>)
      requires Valid()
      modifies this
      ensures Valid() && fed == old(fed) + out && out == Passed(capacity, old(fed), record)
      ensures rejected == old(rejected) + (if record.Rejected? then 1 else 0)
      ensures duplicates == old(duplicates) + (if record.Parsed? && out == [] then 1 else 0)
    {
      out := [];
      match record {
        case Rejected =>
          rejected := rejected + 1;
          assert fed == old(fed) + [];
        case Parsed(id) =>
          var duplicate := IsDuplicate(id);
          if duplicate {
            duplicates := duplicates + 1;
            assert fed == old(fed) + [];
          } else {
            out := [id];
          }
      }
    }

    /** Every record is rejected, dropped as a duplicate, or yielded in order. */
    method NormalizeMany(records: seq<Record<K>>) returns (out: seq<K>)
      requires Valid()
      modifies this
      ensures Valid() && fed == old(fed) + out
      ensures out == Yielded(capacity, old(fed), records)
      ensures rejected == old(rejected) + Rejects(records)
      ensures rejected + duplicates + |out| == old(rejected) + old(duplicates) + |records|
    {
      out := [];
      for i := 0 to |records|
        invariant Valid() && fed == old(fed) + out
        invariant out == Yielded(capacity, old(fed), records[..i])
        invariant rejected == old(rejected) + Rejects(records[..i])
        invariant rejected + duplicates + |out| == old(rejected) + old(duplicates) + i
      {
        OneMoreRecord(capacity, old(fed), records, i);
        var one := NormalizeOne(records[i]);
        Joined(old(fed), out, one);
        out := out + one;
      }
      assert records[..|records|] == records;
    }
  }
}
