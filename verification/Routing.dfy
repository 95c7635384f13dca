/** The feature engine's routing: each event goes to the state of its source host, its destination and their pair, all
    kept in one bounded map. A state is its history here; `EntityState` turns it into windows. */
module Routing {
  import opened LruMaps
  import opened Windows
  import opened Features

  type Arrival = Entry<Flow>

  datatype Entity = Host(a: string) | Destination(a: string) | Pair(src: string, dst: string)

  type History = seq<Arrival>

  type States = Lru<Entity, History>

  function EntitiesOf(a: Arrival): seq<Entity> {
    [Host(a.item.srcIp), Destination(a.item.dstIp), Pair(a.item.srcIp, a.item.dstIp)]
  }

  /** The states of some entities are looked up in turn, created empty where missing. */
  function LookedUp(m: States, ks: seq<Entity>): States {
    if ks == [] then m else LruTouch(LookedUp(m, ks[..|ks| - 1]), ks[|ks| - 1], [])
  }

  /** Each of these entities' states, where still held, observes the event. */
  function Noted(m: States, ks: seq<Entity>, x: Arrival): States {
    m.(values := map k | k in m.values :: if k in ks then m.values[k] + [x] else m.values[k])
  }

  function Processed(m: States, a: Arrival): States {
    Noted(LookedUp(m, EntitiesOf(a)), EntitiesOf(a), a)
  }

  function Routed(capacity: nat, arrivals: seq<Arrival>): States {
    if arrivals == [] then Empty(capacity)
    else Processed(Routed(capacity, arrivals[..|arrivals| - 1]), arrivals[|arrivals| - 1])
  }

  /** The events that concern an entity, in order. */
  function About(arrivals: seq<Arrival>, k: Entity): History {
    if arrivals == [] then []
    else
      var last := arrivals[|arrivals| - 1];
      About(arrivals[..|arrivals| - 1], k) + (if k in EntitiesOf(last) then [last] else [])
  }

  /** An entity's state was not held when the event looked it up. The look-ups before it may have evicted it. */
  predicate Missed(m: States, ks: seq<Entity>, k: Entity) {
    exists i :: 0 <= i < |ks| && ks[i] == k && k !in LookedUp(m, ks[..i]).values
  }

  /** The index of the event that last created the entity's state. */
  function Created(capacity: nat, arrivals: seq<Arrival>, k: Entity): (i: nat)
    ensures i <= |arrivals|
  {
    if arrivals == [] then 0
    else
      var front, last := arrivals[..|arrivals| - 1], arrivals[|arrivals| - 1];
      if Missed(Routed(capacity, front), EntitiesOf(last), k) then |front| else Created(capacity, front, k)
  }

  // ---- One event ----

  /** Looking up other entities leaves a state as it was, or evicts it. */
  lemma {:induction false} OthersLookedUp(m: States, ks: seq<Entity>, k: Entity)
    requires k !in ks && k in LookedUp(m, ks).values
    ensures k in m.values && LookedUp(m, ks).values[k] == m.values[k]
  {
    if ks != [] {
      OthersLookedUp(m, ks[..|ks| - 1], k);
    }
  }

  lemma {:induction false} LookedUpAppend(m: States, a: seq<Entity>, b: seq<Entity>)
    ensures LookedUp(m, a + b) == LookedUp(LookedUp(m, a), b)
  {
    if b == [] {
      assert a + b == a;
    } else {
      LookedUpAppend(m, a, b[..|b| - 1]);
      assert (a + b)[..|a + b| - 1] == a + b[..|b| - 1];
    }
  }

  /** An entity looked up once, at `i`: its state afterwards is the one found, or a new one. */
  lemma {:induction false} LookedUpAt(m: States, ks: seq<Entity>, i: nat, k: Entity)
    requires i < |ks| && ks[i] == k && k !in ks[..i] && k !in ks[i + 1..] && k in LookedUp(m, ks).values
    ensures k in LookedUp(m, ks[..i]).values ==>
              k in m.values && LookedUp(m, ks).values[k] == m.values[k]
    ensures k !in LookedUp(m, ks[..i]).values ==> LookedUp(m, ks).values[k] == []
  {
    assert ks == ks[..i + 1] + ks[i + 1..] && ks[..i + 1][..i] == ks[..i];
    LookedUpAppend(m, ks[..i + 1], ks[i + 1..]);
    OthersLookedUp(LookedUp(m, ks[..i + 1]), ks[i + 1..], k);
    if k in LookedUp(m, ks[..i]).values {
      OthersLookedUp(m, ks[..i], k);
    }
  }

  /** The place of an entity among those of an event, which are all different. */
  lemma {:induction false} PlaceOf(a: Arrival, k: Entity) returns (i: nat)
    requires k in EntitiesOf(a)
    ensures i < 3 && EntitiesOf(a)[i] == k && k !in EntitiesOf(a)[..i] && k !in EntitiesOf(a)[i + 1..]
  {
    i := if k.Host? then 0 else if k.Destination? then 1 else 2;
  }

  /** What one event does to the state of an entity that is still held after it. */
  lemma {:induction false} ProcessedState(m: States, a: Arrival, k: Entity)
    requires k in Processed(m, a).values
    ensures var was := if Missed(m, EntitiesOf(a), k) then [] else if k in m.values then m.values[k] else [];
            Processed(m, a).values[k] == was + (if k in EntitiesOf(a) then [a] else [])
    ensures !Missed(m, EntitiesOf(a), k) ==> k in m.values
  {
    var ks := EntitiesOf(a);
    if k in ks {
      var i := PlaceOf(a, k);
      LookedUpAt(m, ks, i, k);
      assert Missed(m, ks, k) <==> k !in LookedUp(m, ks[..i]).values;
    } else {
      OthersLookedUp(m, ks, k);
      assert !Missed(m, ks, k);
      assert m.values[k] + [] == m.values[k];
    }
  }

  // ---- Every run ----

  lemma {:induction false} OneMoreAbout(arrivals: seq<Arrival>, a: Arrival, s: nat, k: Entity)
    requires s <= |arrivals|
    ensures About((arrivals + [a])[s..], k) ==
            About(arrivals[s..], k) + (if k in EntitiesOf(a) then [a] else [])
  {
    assert (arrivals + [a])[s..] == arrivals[s..] + [a];
    assert (arrivals[s..] + [a])[..|arrivals[s..]|] == arrivals[s..];
  }

  /** The state of an entity is the stream of events since it was last created, filtered to that entity. */
  lemma {:induction false} RoutedHistory(capacity: nat, arrivals: seq<Arrival>, k: Entity)
    requires k in Routed(capacity, arrivals).values
    ensures Routed(capacity, arrivals).values[k] == About(arrivals[Created(capacity, arrivals, k)..], k)
  {
    if arrivals != [] {
      var front, a := arrivals[..|arrivals| - 1], arrivals[|arrivals| - 1];
      assert arrivals == front + [a];
      var m := Routed(capacity, front);
      ProcessedState(m, a, k);
      OneMoreAbout(front, a, Created(capacity, arrivals, k), k);
      if Missed(m, EntitiesOf(a), k) {
        assert front[|front|..] == [];
      } else {
        RoutedHistory(capacity, front, k);
      }
    }
  }

  lemma {:induction false} AboutAppend(a: seq<Arrival>, b: seq<Arrival>, k: Entity)
    ensures About(a + b, k) == About(a, k) + About(b, k)
  {
    if b == [] {
      assert a + b == a;
    } else {
      var front, last := b[..|b| - 1], b[|b| - 1];
      AboutAppend(a, front, k);
      assert (a + b)[..|a + b| - 1] == a + front;
      var one := if k in EntitiesOf(last) then [last] else [];
      assert (About(a, k) + About(front, k)) + one == About(a, k) + (About(front, k) + one);
    }
  }

  /** It is the whole stream filtered to the entity exactly when no event about it came before its state was last
      created, that is, when it has not been evicted since its first event. */
  lemma {:induction false} WholeHistoryIff(capacity: nat, arrivals: seq<Arrival>, k: Entity)
    requires k in Routed(capacity, arrivals).values
    ensures Routed(capacity, arrivals).values[k] == About(arrivals, k) <==>
            About(arrivals[..Created(capacity, arrivals, k)], k) == []
  {
    var i := Created(capacity, arrivals, k);
    RoutedHistory(capacity, arrivals, k);
    assert arrivals == arrivals[..i] + arrivals[i..];
    AboutAppend(arrivals[..i], arrivals[i..], k);
  }

  // ---- By address ----

  /** The events with a property, in order. */
  function Those(arrivals: seq<Arrival>, p: Flow -> bool): History {
    if arrivals == [] then []
    else
      var last := arrivals[|arrivals| - 1];
      Those(arrivals[..|arrivals| - 1], p) + (if p(last.item) then [last] else [])
  }

  lemma {:induction false} AboutIsThose(arrivals: seq<Arrival>, k: Entity, p: Flow -> bool)
    requires forall a: Arrival :: k in EntitiesOf(a) <==> p(a.item)
    ensures About(arrivals, k) == Those(arrivals, p)
  {
    if arrivals != [] {
      AboutIsThose(arrivals[..|arrivals| - 1], k, p);
      assert k in EntitiesOf(arrivals[|arrivals| - 1]) <==> p(arrivals[|arrivals| - 1].item);
    }
  }

  /** A host's state is the events it sent, a destination's those it received, a pair's those from the one to the other,
      each since it was last created. */
  lemma {:induction false} RoutedByAddress(capacity: nat, arrivals: seq<Arrival>, x: string, y: string)
    ensures var (states, k) := (Routed(capacity, arrivals).values, Host(x));
            k in states ==>
              states[k] == Those(arrivals[Created(capacity, arrivals, k)..], (f: Flow) => f.srcIp == x)
    ensures var (states, k) := (Routed(capacity, arrivals).values, Destination(y));
            k in states ==>
              states[k] == Those(arrivals[Created(capacity, arrivals, k)..], (f: Flow) => f.dstIp == y)
    ensures var (states, k) := (Routed(capacity, arrivals).values, Pair(x, y));
            k in states ==>
              states[k] == Those(arrivals[Created(capacity, arrivals, k)..], (f: Flow) => f.srcIp == x && f.dstIp == y)
  {
    var states := Routed(capacity, arrivals).values;
    if Host(x) in states {
      RoutedHistory(capacity, arrivals, Host(x));
      AboutIsThose(arrivals[Created(capacity, arrivals, Host(x))..], Host(x), (f: Flow) => f.srcIp == x);
    }
    if Destination(y) in states {
      RoutedHistory(capacity, arrivals, Destination(y));
      AboutIsThose(arrivals[Created(capacity, arrivals, Destination(y))..], Destination(y), (f: Flow) => f.dstIp == y);
    }
    if Pair(x, y) in states {
      RoutedHistory(capacity, arrivals, Pair(x, y));
      AboutIsThose(arrivals[Created(capacity, arrivals, Pair(x, y))..], Pair(x, y),
                   (f: Flow) => f.srcIp == x && f.dstIp == y);
    }
  }

  // ---- The class ----

  /** The entities of an event differ, so each state observes it once. */
  lemma {:induction false} NotedOneMore(m: States, ks: seq<Entity>, i: nat, a: Arrival)
    requires ks == EntitiesOf(a) && i < |ks|
    ensures var was := Noted(m, ks[..i], a);
            Noted(m, ks[..i + 1], a) ==
            if ks[i] in was.values then LruPut(was, ks[i], was.values[ks[i]] + [a]) else was
  {
    assert ks[..i + 1] == ks[..i] + [ks[i]] && ks[i] !in ks[..i];
  }

  /** The entity states of one feature engine, updated in place. */
  class FeatureEngine {
    var states: States

    constructor (capacity: nat)
      ensures states == Routed(capacity, [])
    {
      states := Empty(capacity);
    }

    /** Fold one event into the states it concerns. A state that has been evicted since it was looked up observes the
        event to no effect. */
    method Process(a: Arrival)
      modifies this
      ensures states == Processed(old(states), a)
    {
      var ks := EntitiesOf(a);
      LookUp(ks);
      ghost var found := states;
      for i := 0 to |ks|
        invariant states == Noted(found, ks[..i], a)
      {
        NotedOneMore(found, ks, i, a);
        if ks[i] in states.values {
          states := LruPut(states, ks[i], states.values[ks[i]] + [a]);
        }
      }
      assert ks[..|ks|] == ks;
    }

    method LookUp(ks: seq<Entity>)
      modifies this
      ensures states == LookedUp(old(states), ks)
    {
      for i := 0 to |ks|
        invariant states == LookedUp(old(states), ks[..i])
      {
        assert ks[..i + 1][..i] == ks[..i];
        states := LruTouch(states, ks[i], []);
      }
      assert ks[..|ks|] == ks;
    }
  }
}
