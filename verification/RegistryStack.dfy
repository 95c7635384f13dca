/** Rollback as a stack pop: which promotion histories make repeated rollback walk back through the
    superseded champions, and which do not. */
module RegistryStack {
  import opened Common
  import opened Registry

  /** The bottom of the stack first, the sitting champion last. */
  type Stack = seq<Version>

  function Top(stack: Stack): Option<Version> {
    if stack == [] then None else Some(stack[|stack| - 1])
  }

  /** The log leads from every champion on the stack to the one below it, and from the bottom nowhere. */
  ghost predicate Faithful(log: seq<Entry>, stack: Stack) {
    && (stack != [] ==> Target(log, stack[0]) == None)
    && forall i :: 0 < i < |stack| ==> Target(log, stack[i]) == Some(stack[i - 1])
  }

  ghost predicate Tracks(r: State, stack: Stack) {
    && Valid(r)
    && Champion(r) == Top(stack)
    && (forall v :: v in stack ==> v in r.status)
    && Faithful(r.log, stack)
    && (stack == [] ==> forall v :: Target(r.log, v) == None)
  }

  /** A log that leads down the stack cannot come by the same version twice. */
  lemma {:induction false} FaithfulIsDistinct(log: seq<Entry>, stack: Stack, i: nat, j: nat)
    requires Faithful(log, stack) && i < j < |stack|
    ensures stack[i] != stack[j]
  {
    assert Target(log, stack[j]) == Some(stack[j - 1]);
    if i > 0 {
      assert Target(log, stack[i]) == Some(stack[i - 1]);
      FaithfulIsDistinct(log, stack, i - 1, j - 1);
    }
  }

  /** What each operation does to the stack of champions: a promotion of another version pushes it, a
      rollback pops unless there is nothing below. */
  function Move(r: State, stack: Stack, op: Op): Stack {
    match op
    case DoRegister(_) => stack
    case DoSetStatus(v, s) => if s == CHAMPION && v in r.status && Top(stack) != Some(v) then stack + [v] else stack
    case DoRollback => if |stack| >= 2 then stack[..|stack| - 1] else stack
  }

  /** Promotions do not name a superseded champion, and the sitting champion is not demoted by hand. */
  ghost predicate Disciplined(stack: Stack, op: Op) {
    op.DoSetStatus? ==>
      if op.s == CHAMPION then op.v in stack ==> Top(stack) == Some(op.v) else Top(stack) != Some(op.v)
  }

  lemma ChangeLog(r: State, v: Version, s: Status, w: Version)
    requires Listed(r) && v in r.status
    ensures Target(Changed(r, v, s).0.log, w) ==
            if s == CHAMPION && w == v && Champion(r).Some? && Champion(r).value != v then Champion(r)
            else Target(r.log, w)
    ensures Changed(r, v, s).0.status.Keys == r.status.Keys
  {
    ByStatusFinds(r.listing, r.status, CHAMPION);
    if s == CHAMPION && Champion(r).Some? && Champion(r).value != v {
      var c := Champion(r).value;
      var retired := Record(r, c, RETIRED, None);
      LogGrows(r.log, retired.log[|r.log|]);
      LogGrows(retired.log, Record(retired, v, CHAMPION, Some(c)).log[|retired.log|]);
    } else {
      LogGrows(r.log, Record(r, v, s, None).log[|r.log|]);
    }
  }

  /** The exact condition: promoting another version onto a faithful stack keeps it faithful if and only
      if that version is not already on the stack. */
  lemma PromotionFaithfulIff(r: State, stack: Stack, v: Version)
    requires Tracks(r, stack) && v in r.status && Top(stack) != Some(v)
    ensures Faithful(Changed(r, v, CHAMPION).0.log, stack + [v]) <==> v !in stack
  {
    var log' := Changed(r, v, CHAMPION).0.log;
    forall w ensures Target(log', w) == if w == v && stack != [] then Top(stack) else Target(r.log, w) {
      ChangeLog(r, v, CHAMPION, w);
    }
    var grown := stack + [v];
    if v in stack {
      var i :| 0 <= i < |stack| && stack[i] == v;
      assert grown[i] == v && grown[0] == stack[0] && Target(log', grown[i]) == Some(stack[|stack| - 1]);
      if i > 0 {
        FaithfulIsDistinct(r.log, stack, i - 1, |stack| - 1);
        assert grown[i - 1] == stack[i - 1];
      }
    } else {
      forall i | 0 < i < |grown| ensures Target(log', grown[i]) == Some(grown[i - 1]) {
        if i < |stack| {
          assert stack[i] != v && Target(r.log, stack[i]) == Some(stack[i - 1]);
        }
      }
    }
  }

  lemma PromotionTracks(r: State, stack: Stack, v: Version)
    requires Tracks(r, stack) && v in r.status && v !in stack
    ensures Tracks(Changed(r, v, CHAMPION).0, stack + [v])
  {
    SetStatusKeeps(r, v, CHAMPION);
    PromotionFaithfulIff(r, stack, v);
    ChangeLog(r, v, CHAMPION, v);
  }

  lemma OtherChangeTracks(r: State, stack: Stack, v: Version, s: Status)
    requires Tracks(r, stack) && v in r.status
    requires if s == CHAMPION then Top(stack) == Some(v) else Top(stack) != Some(v)
    ensures Tracks(Changed(r, v, s).0, stack)
  {
    SetStatusKeeps(r, v, s);
    forall w ensures Target(Changed(r, v, s).0.log, w) == Target(r.log, w) {
      ChangeLog(r, v, s, w);
    }
    ChangeLog(r, v, s, v);
  }

  /** Neither retiring one version nor promoting another while there is no champion names a predecessor. */
  lemma {:induction false} NamesNothing(r: State, c: Version, v: Version)
    requires Listed(r) && c in r.status && v in r.status && Champion(Record(r, c, RETIRED, None)).None?
    ensures var r' := Changed(Record(r, c, RETIRED, None), v, CHAMPION).0;
            r'.status.Keys == r.status.Keys && forall w :: Target(r'.log, w) == Target(r.log, w)
  {
    var retired := Record(r, c, RETIRED, None);
    LogGrows(r.log, retired.log[|r.log|]);
    forall w ensures Target(Changed(retired, v, CHAMPION).0.log, w) == Target(r.log, w) {
      ChangeLog(retired, v, CHAMPION, w);
    }
  }

  lemma {:induction false} RollbackTargets(r: State)
    requires Valid(r) && RolledBack(r).1.Done?
    ensures RolledBack(r).0.status.Keys == r.status.Keys
    ensures forall w :: Target(RolledBack(r).0.log, w) == Target(r.log, w)
  {
    var c := Champion(r).value;
    ByStatusFinds(r.listing, r.status, CHAMPION);
    TargetRegistered(r, c, |r.log|);
    assert r.log[..|r.log|] == r.log;
    PlainChangeKeeps(r, c, RETIRED);
    NamesNothing(r, c, Target(r.log, c).value);
  }

  /** Rollback retires the champion before promoting its predecessor, so it never changes which predecessor any
      version has: it only follows them. */
  lemma {:induction false} RollbackFollows(r: State)
    requires Valid(r)
    ensures Valid(RolledBack(r).0) && RolledBack(r).0.status.Keys == r.status.Keys
    ensures forall w :: Target(RolledBack(r).0.log, w) == Target(r.log, w)
    ensures Champion(r).Some? && Target(r.log, Champion(r).value).Some? ==>
              RolledBack(r).1.Done? && Champion(RolledBack(r).0) == Target(r.log, Champion(r).value)
  {
    RollbackKeeps(r);
    if RolledBack(r).1.Done? {
      RollbackTargets(r);
    }
  }

  lemma {:induction false} FaithfulBelow(log: seq<Entry>, log': seq<Entry>, stack: Stack, n: nat)
    requires Faithful(log, stack) && n <= |stack|
    requires forall w :: Target(log', w) == Target(log, w)
    ensures Faithful(log', stack[..n])
  {
    var below := stack[..n];
    forall i | 0 < i < |below| ensures Target(log', below[i]) == Some(below[i - 1]) {
      assert below[i] == stack[i] && below[i - 1] == stack[i - 1];
    }
  }

  /** Rolling back pops the stack; at the bottom it is refused and nothing changes. */
  lemma {:induction false} RollbackPops(r: State, stack: Stack)
    requires Tracks(r, stack)
    ensures Tracks(RolledBack(r).0, Move(r, stack, DoRollback))
    ensures RolledBack(r).1 == if stack == [] then NoChampion
                               else if |stack| == 1 then NothingToRollBackTo
                               else Done(stack[|stack| - 2])
    ensures |stack| <= 1 ==> RolledBack(r).0 == r
  {
    if |stack| >= 2 {
      var n := |stack| - 1;
      assert Target(r.log, stack[n]) == Some(stack[n - 1]);
      RollbackFollows(r);
      FaithfulBelow(r.log, RolledBack(r).0.log, stack, n);
      assert forall v :: v in stack[..n] ==> v in stack;
    }
  }

  lemma MoveTracks(r: State, stack: Stack, op: Op)
    requires Tracks(r, stack) && Disciplined(stack, op)
    ensures Tracks(Apply(r, op), Move(r, stack, op))
  {
    match op
    case DoRegister(v) =>
      RegisterKeeps(r, v);
      if v !in r.status {
        RegisterTracks(r, stack, v);
      }
    case DoSetStatus(v, s) =>
      if v in r.status {
        if s == CHAMPION && v !in stack {
          PromotionTracks(r, stack, v);
        } else {
          OtherChangeTracks(r, stack, v, s);
        }
      }
    case DoRollback =>
      RollbackPops(r, stack);
  }

  /** Demoting the champion by hand leaves its stack without a champion on top. */
  lemma {:induction false} DemotionBreaks(r: State, stack: Stack, v: Version, s: Status)
    requires Tracks(r, stack) && v in r.status && s != CHAMPION && Top(stack) == Some(v)
    ensures !Tracks(Changed(r, v, s).0, stack)
  {
    SetStatusKeeps(r, v, s);
  }

  /** The exact discipline: an operation keeps rollback a stack pop if and only if it is not a promotion of a
      superseded champion, nor a demotion of the champion by hand, or names an unknown version. */
  lemma {:induction false} MoveTracksIff(r: State, stack: Stack, op: Op)
    requires Tracks(r, stack)
    ensures Tracks(Apply(r, op), Move(r, stack, op)) <==>
            Disciplined(stack, op) || (op.DoSetStatus? && op.v !in r.status)
  {
    if Disciplined(stack, op) {
      MoveTracks(r, stack, op);
    } else if op.v in r.status {
      if op.s == CHAMPION {
        PromotionFaithfulIff(r, stack, op.v);
      } else {
        DemotionBreaks(r, stack, op.v, op.s);
      }
    }
  }

  lemma RegisterTracks(r: State, stack: Stack, v: Version)
    requires Tracks(r, stack) && v !in r.status
    ensures Tracks(Registered(r, v).0, stack)
  {
    var r' := Registered(r, v).0;
    RegisterKeeps(r, v);
    LogGrows(r.log, Entry(v, None, CANDIDATE, None));
    ByStatusFinds(r.listing, r.status, CHAMPION);
    ByStatusFinds(r'.listing, r'.status, CHAMPION);
    if stack != [] {
      ChampionIs(r, stack[|stack| - 1]);
      ChampionIs(r', stack[|stack| - 1]);
    }
  }

  /** The stacks of a run. */
  ghost predicate IsStackRun(states: seq<State>, stacks: seq<Stack>, ops: seq<Op>) {
    && IsRun(states, ops) && |stacks| == |states| && stacks[0] == []
    && forall i :: 0 <= i < |ops| ==>
         stacks[i + 1] == Move(states[i], stacks[i], ops[i]) && Disciplined(stacks[i], ops[i])
  }

  /** Over any disciplined mix of registrations, status changes, promotions and rollbacks the champion is
      the top of the push/pop stack, and the next rollback restores the version below it. */
  lemma {:induction false} RollbackIsStackPop(states: seq<State>, stacks: seq<Stack>, ops: seq<Op>, i: nat)
    requires IsStackRun(states, stacks, ops) && i < |states|
    ensures Tracks(states[i], stacks[i]) && Champion(states[i]) == Top(stacks[i])
  {
    if i > 0 {
      RollbackIsStackPop(states, stacks, ops, i - 1);
      MoveTracks(states[i - 1], stacks[i - 1], ops[i - 1]);
      assert states[i] == Apply(states[i - 1], ops[i - 1]);
      assert stacks[i] == Move(states[i - 1], stacks[i - 1], ops[i - 1]);
    }
  }

  // ---- The excluded case: promoting a superseded champion again ----

  ghost predicate IsRollback(states: seq<State>, i: nat)
    requires i < |states| - 1
  {
    Valid(states[i]) && states[i + 1] == RolledBack(states[i]).0
  }

  /** A sequence of states each the rollback of the one before. */
  ghost predicate IsRollbackRun(states: seq<State>) {
    forall i :: 0 <= i < |states| - 1 ==> IsRollback(states, i)
  }

  /** The log leads from each of these to the one before it, and from the first back to the last. */
  ghost predicate Cycle(log: seq<Entry>, ring: Stack) {
    && ring != []
    && Target(log, ring[0]) == Some(ring[|ring| - 1])
    && forall k :: 0 < k < |ring| ==> Target(log, ring[k]) == Some(ring[k - 1])
  }

  /** The place below `p` on a ring of `m`. */
  function Below(m: nat, p: nat): (q: nat)
    requires p < m
    ensures q < m
  {
    if p == 0 then m - 1 else p - 1
  }

  /** Where `k` steps back around a ring of `m` places lead from place `p`. */
  function Back(m: nat, p: nat, k: nat): (q: nat)
    requires p < m
    ensures q < m
  {
    if k == 0 then p else Below(m, Back(m, p, k - 1))
  }

  /** As many steps as there are places lead back to where they began. */
  lemma {:induction false} BackAround(m: nat, p: nat, k: nat)
    requires p < m
    ensures Back(m, p, k) == (p - k) % m && Back(m, p, k + m) == Back(m, p, k)
  {
    BackIs(m, p, k);
    BackIs(m, p, k + m);
    ModShift(p - k, m);
    assert p - (k + m) == p - k - m;
  }

  lemma {:induction false} BackAgain(m: nat, k: nat, k': nat)
    requires m > 0 && k' == k + m
    ensures Back(m, 0, k') == Back(m, 0, k)
  {
    BackAround(m, 0, k);
  }

  lemma ModShift(x: int, m: nat)
    requires m > 0
    ensures (x - m) % m == x % m
  {
    var q := x / m;
    DivMod(x, m);
    assert (q - 1) * m == q * m - m;
    ModOf(x - m, m, q - 1, x % m);
  }

  lemma {:induction false} BackIs(m: nat, p: nat, k: nat)
    requires p < m
    ensures Back(m, p, k) == (p - k) % m
  {
    if k == 0 {
      ModOf(p, m, 0, p);
    } else {
      BackIs(m, p, k - 1);
      StepBack(p - k + 1, m);
    }
  }

  lemma StepBack(p: int, m: nat)
    requires m > 0
    ensures (p - 1) % m == if p % m == 0 then m - 1 else p % m - 1
  {
    var q, r := p / m, p % m;
    DivMod(p, m);
    if r == 0 {
      StepBelow(p, m, q);
    } else {
      ModOf(p - 1, m, q, r - 1);
    }
  }

  lemma StepBelow(p: int, m: nat, q: int)
    requires m > 0 && p == q * m
    ensures (p - 1) % m == m - 1
  {
    assert (q - 1) * m == q * m - m;
    ModOf(p - 1, m, q - 1, m - 1);
  }

  lemma {:induction false} SameCycle(log: seq<Entry>, log': seq<Entry>, ring: Stack)
    requires Cycle(log, ring) && forall w :: Target(log', w) == Target(log, w)
    ensures Cycle(log', ring)
  {
    forall k | 0 < k < |ring| ensures Target(log', ring[k]) == Some(ring[k - 1]) {
      assert Target(log, ring[k]) == Some(ring[k - 1]);
    }
  }

  /** At place `p` of the ring. */
  ghost predicate At(r: State, ring: Stack, p: nat) {
    Valid(r) && Cycle(r.log, ring) && p < |ring| && Champion(r) == Some(ring[p])
  }

  lemma {:induction false} CycleStep(r: State, ring: Stack, p: nat)
    requires At(r, ring, p)
    ensures RolledBack(r).1.Done? && At(RolledBack(r).0, ring, Below(|ring|, p))
  {
    assert Target(r.log, ring[p]) == Some(ring[Below(|ring|, p)]);
    RollbackFollows(r);
    SameCycle(r.log, RolledBack(r).0.log, ring);
  }

  /** On a cycle rollback goes round for ever: it is never refused and reaches nothing else. */
  lemma {:induction false} CycleForever(states: seq<State>, ring: Stack, p: nat, k: nat)
    requires IsRollbackRun(states) && k < |states| && At(states[0], ring, p)
    ensures At(states[k], ring, Back(|ring|, p, k)) && RolledBack(states[k]).1.Done?
  {
    if k > 0 {
      CycleForever(states, ring, p, k - 1);
      assert IsRollback(states, k - 1);
      CycleStep(states[k - 1], ring, Back(|ring|, p, k - 1));
    }
    CycleStep(states[k], ring, Back(|ring|, p, k));
  }

  /** The target of each version above `stack[i]` is the one below it, and promoting `stack[i]` leaves it so. */
  lemma {:induction false} RingStays(r: State, stack: Stack, i: nat, j: nat)
    requires Tracks(r, stack) && i < j < |stack|
    ensures Target(Changed(r, stack[i], CHAMPION).0.log, stack[j]) == Some(stack[j - 1])
  {
    FaithfulIsDistinct(r.log, stack, i, j);
    FaithfulIsDistinct(r.log, stack, i, |stack| - 1);
    ChangeLog(r, stack[i], CHAMPION, stack[j]);
  }

  /** The promoted version names the champion it displaced. */
  lemma {:induction false} RingCloses(r: State, stack: Stack, i: nat)
    requires Tracks(r, stack) && i < |stack| - 1
    ensures var r' := Changed(r, stack[i], CHAMPION).0;
            Valid(r') && Champion(r') == Some(stack[i]) && Target(r'.log, stack[i]) == Some(stack[|stack| - 1])
  {
    FaithfulIsDistinct(r.log, stack, i, |stack| - 1);
    SetStatusKeeps(r, stack[i], CHAMPION);
    ChangeLog(r, stack[i], CHAMPION, stack[i]);
  }

  lemma {:induction false} CycleFrom(log: seq<Entry>, stack: Stack, i: nat)
    requires i < |stack| && Target(log, stack[i]) == Some(stack[|stack| - 1])
    requires forall j :: i < j < |stack| ==> Target(log, stack[j]) == Some(stack[j - 1])
    ensures Cycle(log, stack[i..])
  {
    var ring := stack[i..];
    forall k | 0 < k < |ring| ensures Target(log, ring[k]) == Some(ring[k - 1]) {
      assert ring[k] == stack[i + k] && ring[k - 1] == stack[i + k - 1];
    }
  }

  /** Promoting a superseded champion closes a cycle through it and everything above it. */
  lemma {:induction false} RepromotionCycles(r: State, stack: Stack, i: nat)
    requires Tracks(r, stack) && i < |stack| - 1
    ensures var r' := Changed(r, stack[i], CHAMPION).0;
            Valid(r') && Champion(r') == Some(stack[i]) && Cycle(r'.log, stack[i..])
  {
    var log := Changed(r, stack[i], CHAMPION).0.log;
    RingCloses(r, stack, i);
    forall j | i < j < |stack| ensures Target(log, stack[j]) == Some(stack[j - 1]) {
      RingStays(r, stack, i, j);
    }
    CycleFrom(log, stack, i);
  }

  /** What promoting `stack[i]` again does to rollback, for every `i` below the top: from then on it goes round
      `stack[i..]`, is never refused, and never reaches anything older. */
  lemma {:induction false} RepromotionForever(r: State, stack: Stack, i: nat, ring: Stack, states: seq<State>, k: nat)
    requires Tracks(r, stack) && i < |stack| - 1 && ring == stack[i..]
    requires IsRollbackRun(states) && k < |states| && states[0] == Changed(r, stack[i], CHAMPION).0
    ensures Valid(states[k]) && RolledBack(states[k]).1.Done?
    ensures Champion(states[k]) == Some(ring[Back(|ring|, 0, k)])
  {
    RepromotionCycles(r, stack, i);
    CycleForever(states, ring, 0, k);
  }

  /** The period is the number of champions from `stack[i]` up. */
  lemma {:induction false} RepromotionPeriod(r: State, stack: Stack, i: nat, ring: Stack, states: seq<State>, k: nat,
                                             k': nat)
    requires Tracks(r, stack) && i < |stack| - 1 && ring == stack[i..]
    requires IsRollbackRun(states) && k < k' < |states| && states[0] == Changed(r, stack[i], CHAMPION).0
    requires k' == k + |ring|
    ensures Valid(states[k]) && Valid(states[k']) && Champion(states[k']) == Champion(states[k])
  {
    RepromotionForever(r, stack, i, ring, states, k);
    RepromotionForever(r, stack, i, ring, states, k');
    BackAgain(|ring|, k, k');
  }

  /** Two champions that each name the other. */
  ghost predicate Entangled(r: State, a: Version, b: Version) {
    && Valid(r) && a != b
    && Target(r.log, a) == Some(b) && Target(r.log, b) == Some(a)
    && (Champion(r) == Some(a) || Champion(r) == Some(b))
  }

  lemma {:induction false} Swap(r: State, a: Version, b: Version)
    requires Entangled(r, a, b)
    ensures var (r', outcome) := RolledBack(r);
            outcome.Done? && Entangled(r', a, b) && Champion(r') != Champion(r)
  {
    RollbackFollows(r);
  }

  /** The shortest cycle: once two champions name each other, rollback swaps them for ever. */
  lemma {:induction false} EntangledForever(states: seq<State>, a: Version, b: Version, i: nat)
    requires IsRollbackRun(states) && i < |states| && Entangled(states[0], a, b)
    ensures Entangled(states[i], a, b) && RolledBack(states[i]).1.Done?
    ensures i > 0 ==> Entangled(states[i - 1], a, b) && Champion(states[i]) != Champion(states[i - 1])
  {
    if i > 0 {
      EntangledForever(states, a, b, i - 1);
      assert IsRollback(states, i - 1);
      Swap(states[i - 1], a, b);
    }
    Swap(states[i], a, b);
  }

  /** Promoting the version directly below the champion again entangles the two. */
  lemma RepromotionEntangles(r: State, stack: Stack)
    requires Tracks(r, stack) && |stack| >= 2
    ensures var a, b := stack[|stack| - 2], stack[|stack| - 1];
            Entangled(Changed(r, a, CHAMPION).0, a, b)
  {
    FaithfulIsDistinct(r.log, stack, |stack| - 2, |stack| - 1);
    RepromotionCycles(r, stack, |stack| - 2);
  }

  lemma TwoCandidates(a: Version, b: Version) returns (r: State)
    requires a != b
    ensures r == Registered(Registered(EMPTY, a).0, b).0
    ensures Tracks(r, []) && a in r.status && b in r.status
  {
    RegisterTracks(EMPTY, [], a);
    r := Registered(EMPTY, a).0;
    RegisterTracks(r, [], b);
    r := Registered(r, b).0;
  }

  lemma Promote(r: State, stack: Stack, v: Version) returns (r': State)
    requires Tracks(r, stack) && v in r.status && v !in stack
    ensures r' == Changed(r, v, CHAMPION).0
    ensures Tracks(r', stack + [v]) && r'.status.Keys == r.status.Keys
  {
    PromotionTracks(r, stack, v);
    ChangeLog(r, v, CHAMPION, v);
    r' := Changed(r, v, CHAMPION).0;
  }

  /** The shortest such history: register two versions, promote `a`, promote `b`, promote `a` again. Only
      the last promotion names a superseded champion. */
  lemma PingPongExample(a: Version, b: Version) returns (r2: State, r3: State, r4: State, r5: State)
    requires a != b
    ensures r2 == Registered(Registered(EMPTY, a).0, b).0
    ensures Valid(r2) && r3 == Changed(r2, a, CHAMPION).0
    ensures Valid(r3) && r4 == Changed(r3, b, CHAMPION).0
    ensures Valid(r4) && r5 == Changed(r4, a, CHAMPION).0
    ensures Tracks(r4, [a, b]) && Entangled(r5, a, b)
  {
    r2 := TwoCandidates(a, b);
    r3, r4 := TwoPromoted(r2, a, b);
    RepromotionEntangles(r4, [a, b]);
    r5 := Changed(r4, a, CHAMPION).0;
  }

  lemma {:induction false} TwoPromoted(r2: State, a: Version, b: Version) returns (r3: State, r4: State)
    requires a != b && Tracks(r2, []) && a in r2.status && b in r2.status
    ensures Valid(r2) && r3 == Changed(r2, a, CHAMPION).0
    ensures Valid(r3) && r4 == Changed(r3, b, CHAMPION).0
    ensures Tracks(r4, [a, b])
  {
    r3 := Promote(r2, [], a);
    assert [] + [a] == [a];
    r4 := Promote(r3, [a], b);
    assert [a] + [b] == [a, b];
  }

  // ---- When rollback is refused, over any run ----

  /** The operation promotes `v` over another champion. */
  ghost predicate Displaces(r: State, op: Op, v: Version)
    requires Listed(r)
  {
    && op == DoSetStatus(v, CHAMPION) && v in r.status
    && Champion(r).Some? && Champion(r).value != v
  }

  /** A version has a recorded predecessor once it has been promoted over one, and keeps having one. */
  lemma {:induction false} PredecessorAfter(r: State, op: Op, v: Version)
    requires Valid(r)
    ensures Target(Apply(r, op).log, v).Some? <==> Target(r.log, v).Some? || Displaces(r, op, v)
  {
    match op
    case DoRegister(u) =>
      if u !in r.status {
        LogGrows(r.log, Entry(u, None, CANDIDATE, None));
      }
    case DoSetStatus(u, s) =>
      if u in r.status {
        ChangeLog(r, u, s, v);
      }
    case DoRollback =>
      RollbackFollows(r);
      RollbackKeeps(r);
  }

  ghost predicate DisplacedAt(states: seq<State>, ops: seq<Op>, k: nat, v: Version)
    requires k < |ops| && k < |states|
  {
    Listed(states[k]) && Displaces(states[k], ops[k], v)
  }

  lemma {:induction false} PredecessorIff(states: seq<State>, ops: seq<Op>, i: nat, v: Version)
    requires IsRun(states, ops) && i < |states|
    ensures Target(states[i].log, v).Some? <==> exists k :: 0 <= k < i && DisplacedAt(states, ops, k, v)
  {
    if i > 0 {
      PredecessorIff(states, ops, i - 1, v);
      EveryRunIsValid(states, ops, i - 1);
      PredecessorAfter(states[i - 1], ops[i - 1], v);
      assert states[i] == Apply(states[i - 1], ops[i - 1]);
      assert DisplacedAt(states, ops, i - 1, v) <==> Displaces(states[i - 1], ops[i - 1], v);
    }
  }

  /** Over any run of registrations, status changes and rollbacks, rollback is refused exactly when there is no champion
      or the champion has never been promoted over another. */
  lemma {:induction false} RefusedIff(states: seq<State>, ops: seq<Op>, i: nat)
    requires IsRun(states, ops) && i < |states|
    ensures Valid(states[i])
    ensures RolledBack(states[i]).1.Done? <==>
            Champion(states[i]).Some? &&
            exists k :: 0 <= k < i && DisplacedAt(states, ops, k, Champion(states[i]).value)
  {
    EveryRunIsValid(states, ops, i);
    RollbackKeeps(states[i]);
    if Champion(states[i]).Some? {
      PredecessorIff(states, ops, i, Champion(states[i]).value);
    }
  }

  /** So once a version has been promoted over another it can always be rolled back from, whatever happens between. */
  lemma {:induction false} NeverRefusedAgain(states: seq<State>, ops: seq<Op>, k: nat, j: nat, v: Version)
    requires IsRun(states, ops) && k < j < |states| && DisplacedAt(states, ops, k, v)
    ensures Valid(states[j]) && (Champion(states[j]) == Some(v) ==> RolledBack(states[j]).1.Done?)
  {
    RefusedIff(states, ops, j);
  }
}
