/**
 The gcd-stepping weighted round-robin scheduler shared by the TCP and the UDP
 load balancers, as a function of the scheduler state (index, current weight).

 One iteration of the pick loop is a `Tick`; a tick is a `Hit` when the loop
 returns the server it lands on; `Next` is the state after one whole pick.
 */
module RoundRobin {
  import opened Divisibility

  /** What one pick depends on: weights, which servers are up, the gcd and the maximum. */
  datatype Wheel = Wheel(weights: seq<nat>, up: seq<bool>, step: nat, top: nat) {
    ghost predicate Valid() {
      && |weights| == |up| > 0
      && step > 0 && top > 0 && Multiple(top, step)
      && forall i :: 0 <= i < |weights| ==> weights[i] <= top && Multiple(weights[i], step)
    }

    /** Some server is up and has a positive weight. */
    ghost predicate CanPick() {
      |weights| == |up| && exists i :: 0 <= i < |weights| && up[i] && weights[i] > 0
    }

    /** The number of loop iterations after which the scheduler state repeats. */
    ghost function Cycle(): nat
      requires step > 0 && Multiple(top, step)
    {
      |weights| * Quotient(top, step)
    }
  }

  datatype State = State(index: int, current: int)

  const INITIAL := State(-1, 0)

  /** The states the pick loop leaves behind, and the initial one. */
  ghost predicate Aligned(w: Wheel, s: State)
    requires w.step > 0
  {
    || s == INITIAL
    || (0 <= s.index < |w.weights| && 0 < s.current <= w.top && Multiple(s.current, w.step))
  }

  function Tick(w: Wheel, s: State): State
    requires |w.weights| > 0
  {
    if 0 < s.index + 1 < |w.weights| then State(s.index + 1, s.current)
    else if s.current - w.step <= 0 then State(0, w.top)
    else State(0, s.current - w.step)
  }

  predicate Hit(w: Wheel, s: State)
    requires |w.weights| == |w.up|
  {
    0 <= s.index < |w.weights| && w.up[s.index] && w.weights[s.index] >= s.current
  }

  ghost function FirstUpFrom(w: Wheel, from: nat): (i: nat)
    requires |w.weights| == |w.up|
    requires exists i :: from <= i < |w.weights| && w.up[i] && w.weights[i] > 0
    ensures from <= i < |w.weights| && w.up[i] && w.weights[i] > 0
    decreases |w.weights| - from
  {
    if w.up[from] && w.weights[from] > 0 then from else FirstUpFrom(w, from + 1)
  }

  /** How many times the loop may still wrap round before it must hit. */
  ghost function Laps(w: Wheel, s: State): nat
    requires w.CanPick()
  {
    if s.index < 0 then 2
    else if s.current <= w.step && s.index >= FirstUpFrom(w, 0) then 1
    else 0
  }

  /** A tick keeps the state aligned, and a tick that misses gets closer to a hit. */
  lemma TickAligned(w: Wheel, s: State)
    requires w.Valid() && Aligned(w, s)
    ensures var t := Tick(w, s); Aligned(w, t) && 0 <= t.index
    ensures var t := Tick(w, s);
            w.CanPick() && !Hit(w, t) ==>
              Laps(w, t) < Laps(w, s)
              || (Laps(w, t) == Laps(w, s) && t.current < s.current)
              || (Laps(w, t) == Laps(w, s) && t.current == s.current && t.index > s.index)
  {
  }

  /** The state after one pick: tick until a hit. */
  ghost function Next(w: Wheel, s: State): (t: State)
    requires w.Valid() && w.CanPick() && Aligned(w, s)
    ensures Aligned(w, t) && Hit(w, t)
    decreases Laps(w, s), s.current, |w.weights| - s.index
  {
    TickAligned(w, s);
    var t := Tick(w, s);
    if Hit(w, t) then t else Next(w, t)
  }

  /** The number of iterations one pick takes. */
  ghost function Wait(w: Wheel, s: State): (k: nat)
    requires w.Valid() && w.CanPick() && Aligned(w, s)
    ensures k > 0
    decreases Laps(w, s), s.current, |w.weights| - s.index
  {
    TickAligned(w, s);
    var t := Tick(w, s);
    if Hit(w, t) then 1 else 1 + Wait(w, t)
  }

  /** The pick loop has run `done` iterations from `start`, without a hit, and stands at `s`. */
  ghost predicate Searching(w: Wheel, start: State, s: State, done: nat)
    requires w.Valid() && w.CanPick() && Aligned(w, start)
  {
    && Aligned(w, s)
    && Next(w, s) == Next(w, start)
    && done + Wait(w, s) == Wait(w, start)
  }

  /** One more iteration either finds the pick or keeps searching. */
  lemma SearchStep(w: Wheel, start: State, s: State, done: nat)
    requires w.Valid() && w.CanPick() && Aligned(w, start) && Searching(w, start, s, done)
    ensures var t := Tick(w, s);
            && 0 <= t.index < |w.weights|
            && (Hit(w, t) ==> t == Next(w, start) && done + 1 == Wait(w, start))
            && (!Hit(w, t) ==> Searching(w, start, t, done + 1))
    ensures var t := Tick(w, s);
            !Hit(w, t) ==>
              Laps(w, t) < Laps(w, s)
              || (Laps(w, t) == Laps(w, s) && t.current < s.current)
              || (Laps(w, t) == Laps(w, s) && t.current == s.current && t.index > s.index)
  {
    TickAligned(w, s);
  }

  /** A tick, written the way the loop computes it. */
  lemma TickByRemainder(w: Wheel, s: State)
    requires |w.weights| > 0 && -1 <= s.index < |w.weights|
    ensures var i := (s.index + 1) % |w.weights|;
            && (i != 0 ==> Tick(w, s) == State(i, s.current))
            && (i == 0 ==> Tick(w, s) == State(0, if s.current - w.step <= 0 then w.top else s.current - w.step))
  {
  }

  /** The servers returned by `m` consecutive picks. */
  ghost function Picks(w: Wheel, s: State, m: nat): seq<int>
    requires w.Valid() && w.CanPick() && Aligned(w, s)
    decreases m
  {
    if m == 0 then [] else var t := Next(w, s); [t.index] + Picks(w, t, m - 1)
  }

  /** The state after `m` consecutive picks. */
  ghost function After(w: Wheel, s: State, m: nat): (t: State)
    requires w.Valid() && w.CanPick() && Aligned(w, s)
    ensures Aligned(w, t)
    decreases m
  {
    if m == 0 then s else After(w, Next(w, s), m - 1)
  }

  ghost function TickN(w: Wheel, s: State, k: nat): State
    requires |w.weights| > 0
    decreases k
  {
    if k == 0 then s else TickN(w, Tick(w, s), k - 1)
  }

  /** The servers hit during `k` ticks, in order. */
  ghost function Trace(w: Wheel, s: State, k: nat): seq<int>
    requires |w.weights| == |w.up| > 0
    decreases k
  {
    if k == 0 then []
    else
      var t := Tick(w, s);
      (if Hit(w, t) then [t.index] else []) + Trace(w, t, k - 1)
  }

  /** How many of the next `k` ticks hit server `j`. */
  ghost function Hits(w: Wheel, s: State, k: nat, j: int): nat
    requires |w.weights| == |w.up| > 0
    decreases k
  {
    if k == 0 then 0
    else
      var t := Tick(w, s);
      (if Hit(w, t) && t.index == j then 1 else 0) + Hits(w, t, k - 1, j)
  }

  /** Sum of the weights of the up servers among the first `k`. */
  ghost function UpWeight(w: Wheel, k: nat): nat
    requires |w.weights| == |w.up| && k <= |w.weights|
  {
    if k == 0 then 0 else UpWeight(w, k - 1) + Share(w, k - 1)
  }

  ghost function Share(w: Wheel, j: nat): nat
    requires |w.weights| == |w.up| && j < |w.weights|
  {
    if w.up[j] then w.weights[j] else 0
  }

  // ---------------------------------------------------------------------------
  // Ticks and traces compose
  // ---------------------------------------------------------------------------

  lemma {:induction false} TicksCompose(w: Wheel, s: State, a: nat, b: nat)
    requires |w.weights| == |w.up| > 0
    ensures TickN(w, s, a + b) == TickN(w, TickN(w, s, a), b)
    ensures Trace(w, s, a + b) == Trace(w, s, a) + Trace(w, TickN(w, s, a), b)
    ensures forall j :: Hits(w, s, a + b, j) == Hits(w, s, a, j) + Hits(w, TickN(w, s, a), b, j)
    decreases a
  {
    if a > 0 {
      TicksCompose(w, Tick(w, s), a - 1, b);
    }
  }

  lemma {:induction false} HitsCountTrace(w: Wheel, s: State, k: nat, j: int)
    requires |w.weights| == |w.up| > 0
    ensures multiset(Trace(w, s, k))[j] == Hits(w, s, k, j)
    decreases k
  {
    if k > 0 {
      var t := Tick(w, s);
      HitsCountTrace(w, t, k - 1, j);
      assert multiset([t.index] + Trace(w, t, k - 1)) == multiset{t.index} + multiset(Trace(w, t, k - 1));
    }
  }

  lemma {:induction false} TicksAligned(w: Wheel, s: State, k: nat)
    requires w.Valid() && Aligned(w, s)
    ensures Aligned(w, TickN(w, s, k))
    ensures forall x :: x in Trace(w, s, k) ==> 0 <= x < |w.weights|
    decreases k
  {
    if k > 0 {
      TickAligned(w, s);
      TicksAligned(w, Tick(w, s), k - 1);
    }
  }

  // ---------------------------------------------------------------------------
  // One cycle of a wheel whose step is 1
  // ---------------------------------------------------------------------------

  /** From (i, c) to the end of the row, every later up server of weight >= c is hit once. */
  lemma {:induction false} RestOfRow(w: Wheel, i: nat, c: int, j: nat)
    requires w.Valid() && i < |w.weights| && j < |w.weights|
    ensures var k := |w.weights| - 1 - i;
            && TickN(w, State(i, c), k) == State(|w.weights| - 1, c)
            && Hits(w, State(i, c), k, j) == if j > i && w.up[j] && w.weights[j] >= c then 1 else 0
    decreases |w.weights| - i
  {
    if i + 1 < |w.weights| {
      assert Tick(w, State(i, c)) == State(i + 1, c);
      RestOfRow(w, i + 1, c, j);
    }
  }

  /** A whole row at level c. */
  lemma Row(w: Wheel, c: nat, j: nat)
    requires w.Valid() && w.step == 1 && 0 < c && j < |w.weights|
    ensures TickN(w, State(|w.weights| - 1, c + 1), |w.weights|) == State(|w.weights| - 1, c)
    ensures Hits(w, State(|w.weights| - 1, c + 1), |w.weights|, j)
         == if w.up[j] && w.weights[j] >= c then 1 else 0
  {
    assert Tick(w, State(|w.weights| - 1, c + 1)) == State(0, c);
    RestOfRow(w, 0, c, j);
  }

  /** The last `c` rows of a cycle hit an up server once for each level not above its weight. */
  lemma {:induction false} Rows(w: Wheel, c: nat, d: nat, j: nat)
    requires w.Valid() && w.step == 1 && d <= c && j < |w.weights|
    ensures TickN(w, State(|w.weights| - 1, c + 1), |w.weights| * d) == State(|w.weights| - 1, c + 1 - d)
    ensures d == c ==>
      Hits(w, State(|w.weights| - 1, c + 1), |w.weights| * d, j)
      == if !w.up[j] then 0 else if w.weights[j] < c then w.weights[j] else c
    decreases d
  {
    var n := |w.weights|;
    if d > 0 {
      Row(w, c, j);
      assert n * d == n + n * (d - 1);
      TicksCompose(w, State(n - 1, c + 1), n, n * (d - 1));
      Rows(w, c - 1, d - 1, j);
    } else {
      assert n * d == 0;
    }
  }

  /** Every state of a unit wheel is reached from the end of a cycle. */
  lemma Reach(w: Wheel, s: State) returns (p: nat)
    requires w.Valid() && w.step == 1 && Aligned(w, s) && s.index >= 0
    ensures TickN(w, State(|w.weights| - 1, w.top + 1), p) == s
    ensures p > 0
  {
    var n := |w.weights|;
    var end := State(n - 1, w.top + 1);
    var rows := n * (w.top - s.current);
    Rows(w, w.top, w.top - s.current, 0);
    TicksCompose(w, end, rows, 1 + s.index);
    assert Tick(w, State(n - 1, s.current + 1)) == State(0, s.current);
    ColumnReach(w, s.current, 0, s.index);
    p := rows + (1 + s.index);
  }

  lemma {:induction false} ColumnReach(w: Wheel, c: int, from: nat, i: nat)
    requires w.Valid() && from <= i < |w.weights|
    ensures TickN(w, State(from, c), i - from) == State(i, c)
    decreases i - from
  {
    if from < i {
      assert Tick(w, State(from, c)) == State(from + 1, c);
      ColumnReach(w, c, from + 1, i);
    }
  }

  /** The state before the first row of a cycle may be written in three ways. */
  lemma EndOfCycle(w: Wheel, s: State, k: nat)
    requires w.Valid() && w.step == 1 && k > 0
    requires s == INITIAL || s == State(|w.weights| - 1, 1)
    ensures TickN(w, s, k) == TickN(w, State(|w.weights| - 1, w.top + 1), k)
    ensures forall j :: Hits(w, s, k, j) == Hits(w, State(|w.weights| - 1, w.top + 1), k, j)
  {
  }

  /** A full cycle of a unit wheel hits each up server exactly weight times, from any state. */
  lemma UnitCycle(w: Wheel, s: State, j: nat)
    requires w.Valid() && w.step == 1 && Aligned(w, s) && j < |w.weights|
    ensures Hits(w, s, |w.weights| * w.top, j) == Share(w, j)
    ensures s.index >= 0 ==> TickN(w, s, |w.weights| * w.top) == s
  {
    var cycle := |w.weights| * w.top;
    assert cycle > 0;
    Rows(w, w.top, w.top, j);
    if s.index < 0 {
      EndOfCycle(w, s, cycle);
    } else {
      var p := Reach(w, s);
      Rotate(w, s, p, cycle, j);
    }
  }

  /** A stretch that returns to its start may be cut anywhere without changing what it hits. */
  lemma Rotate(w: Wheel, s: State, p: nat, cycle: nat, j: nat)
    requires w.Valid() && w.step == 1 && p > 0
    requires TickN(w, State(|w.weights| - 1, w.top + 1), p) == s
    requires TickN(w, State(|w.weights| - 1, w.top + 1), cycle) == State(|w.weights| - 1, 1)
    ensures TickN(w, s, cycle) == s
    ensures Hits(w, s, cycle, j) == Hits(w, State(|w.weights| - 1, w.top + 1), cycle, j)
  {
    var end := State(|w.weights| - 1, w.top + 1);
    TicksCompose(w, end, p, cycle);
    TicksCompose(w, end, cycle, p);
    EndOfCycle(w, State(|w.weights| - 1, 1), p);
  }

  // ---------------------------------------------------------------------------
  // Dividing every weight by the step
  // ---------------------------------------------------------------------------

  ghost function Unit(w: Wheel): Wheel
    requires w.Valid()
  {
    Wheel(seq(|w.weights|, i requires 0 <= i < |w.weights| => Quotient(w.weights[i], w.step)), w.up, 1, Quotient(w.top, w.step))
  }

  ghost function UnitState(w: Wheel, s: State): State
    requires w.Valid() && Aligned(w, s)
  {
    State(s.index, Quotient(s.current, w.step))
  }

  lemma UnitValid(w: Wheel, s: State)
    requires w.Valid() && Aligned(w, s)
    ensures Unit(w).Valid() && Aligned(Unit(w), UnitState(w, s))
    ensures Unit(w).CanPick() <==> w.CanPick()
  {
    var u := Unit(w);
    forall i | 0 <= i < |w.weights|
      ensures u.weights[i] <= u.top && Multiple(u.weights[i], 1)
    {
      QuotientOrder(w.top, w.weights[i], w.step);
      OnesAreMultiples(u.weights[i]);
    }
    OnesAreMultiples(u.top);
    QuotientOrder(w.top, s.current, w.step);
    OnesAreMultiples(Quotient(s.current, w.step));
    if w.CanPick() {
      var i :| 0 <= i < |w.weights| && w.up[i] && w.weights[i] > 0;
      assert u.up[i] && u.weights[i] > 0;
    }
    if u.CanPick() {
      var i :| 0 <= i < |u.weights| && u.up[i] && u.weights[i] > 0;
      assert w.up[i] && w.weights[i] > 0;
    }
  }

  lemma UnitTick(w: Wheel, s: State)
    requires w.Valid() && Aligned(w, s)
    ensures Aligned(w, Tick(w, s))
    ensures Tick(Unit(w), UnitState(w, s)) == UnitState(w, Tick(w, s))
    ensures Hit(Unit(w), UnitState(w, Tick(w, s))) == Hit(w, Tick(w, s))
  {
    var t := Tick(w, s);
    TickAligned(w, s);
    QuotientOrder(w.weights[t.index], t.current, w.step);
  }

  lemma {:induction false} UnitTrace(w: Wheel, s: State, k: nat)
    requires w.Valid() && Aligned(w, s)
    ensures Trace(Unit(w), UnitState(w, s), k) == Trace(w, s, k)
    ensures Aligned(w, TickN(w, s, k))
    ensures TickN(Unit(w), UnitState(w, s), k) == UnitState(w, TickN(w, s, k))
    decreases k
  {
    if k > 0 {
      UnitTick(w, s);
      TickAligned(w, s);
      UnitTrace(w, Tick(w, s), k - 1);
    }
  }

  /** A full cycle of any wheel hits each up server weight/step times, from any aligned state. */
  lemma CycleShares(w: Wheel, s: State, j: nat)
    requires w.Valid() && Aligned(w, s) && j < |w.weights|
    ensures multiset(Trace(w, s, w.Cycle()))[j] == Share(Unit(w), j)
  {
    var u, v := Unit(w), UnitState(w, s);
    UnitValid(w, s);
    UnitTrace(w, s, w.Cycle());
    UnitCycle(u, v, j);
    HitsCountTrace(u, v, w.Cycle(), j);
  }

  lemma UnitShare(w: Wheel, j: nat)
    requires w.Valid() && j < |w.weights|
    ensures Share(Unit(w), j) * w.step == Share(w, j)
  {
    QuotientTimes(w.weights[j], w.step);
  }

  /** After a full cycle the scheduler state is back. */
  lemma CycleRepeats(w: Wheel, s: State)
    requires w.Valid() && Aligned(w, s) && s.index >= 0
    ensures TickN(w, s, w.Cycle()) == s
  {
    UnitValid(w, s);
    UnitTrace(w, s, w.Cycle());
    UnitCycle(Unit(w), UnitState(w, s), 0);
    QuotientTimes(s.current, w.step);
    QuotientTimes(TickN(w, s, w.Cycle()).current, w.step);
  }

  // ---------------------------------------------------------------------------
  // From ticks to picks
  // ---------------------------------------------------------------------------

  /** Consecutive picks return exactly the hits of the tick sequence, in order. */
  lemma {:induction false} PicksAreHits(w: Wheel, s: State, k: nat)
    requires w.Valid() && w.CanPick() && Aligned(w, s)
    ensures Picks(w, s, |Trace(w, s, k)|) == Trace(w, s, k)
    ensures k > 0 && Hit(w, TickN(w, s, k)) ==> After(w, s, |Trace(w, s, k)|) == TickN(w, s, k)
    decreases k
  {
    if k > 0 {
      var t := Tick(w, s);
      TickAligned(w, s);
      PicksAreHits(w, t, k - 1);
      if !Hit(w, t) {
        assert Next(w, s) == Next(w, t);
        if k > 1 && Hit(w, TickN(w, s, k)) {
          LastHit(w, t, k - 1);
        }
      }
    }
  }

  lemma {:induction false} LastHit(w: Wheel, s: State, k: nat)
    requires |w.weights| == |w.up| > 0 && k > 0
    requires Hit(w, TickN(w, s, k))
    ensures |Trace(w, s, k)| > 0
    decreases k
  {
    if k == 1 {
      assert TickN(w, s, 1) == TickN(w, Tick(w, s), 0) == Tick(w, s);
      assert Trace(w, s, 1) == [Tick(w, s).index] + Trace(w, Tick(w, s), 0);
    } else {
      LastHit(w, Tick(w, s), k - 1);
    }
  }

  ghost function CountSum(tr: seq<int>, n: nat): nat {
    if n == 0 then 0 else CountSum(tr, n - 1) + multiset(tr)[n - 1]
  }

  lemma {:induction false} CountSumStep(x: int, tr: seq<int>, n: nat)
    ensures CountSum([x] + tr, n) == CountSum(tr, n) + if 0 <= x < n then 1 else 0
    decreases n
  {
    if n > 0 {
      CountSumStep(x, tr, n - 1);
      assert multiset([x] + tr) == multiset{x} + multiset(tr);
    }
  }

  lemma {:induction false} LengthIsCountSum(tr: seq<int>, n: nat)
    requires forall x :: x in tr ==> 0 <= x < n
    ensures |tr| == CountSum(tr, n)
    decreases |tr|
  {
    if tr == [] {
      EmptyCountSum(n);
    } else {
      assert tr == [tr[0]] + tr[1..];
      forall x | x in tr[1..] ensures 0 <= x < n { assert x in tr; }
      LengthIsCountSum(tr[1..], n);
      assert tr[0] in tr;
      CountSumStep(tr[0], tr[1..], n);
    }
  }

  lemma {:induction false} EmptyCountSum(n: nat)
    ensures CountSum([], n) == 0
  {
    if n > 0 { EmptyCountSum(n - 1); }
  }

  lemma {:induction false} SharesSum(w: Wheel, tr: seq<int>, k: nat)
    requires w.Valid() && k <= |w.weights|
    requires forall j :: 0 <= j < |w.weights| ==> multiset(tr)[j] * w.step == Share(w, j)
    ensures CountSum(tr, k) * w.step == UpWeight(w, k)
    decreases k
  {
    if k > 0 {
      SharesSum(w, tr, k - 1);
      Distribute(CountSum(tr, k - 1), multiset(tr)[k - 1], w.step);
    }
  }

  /** The number of picks in one fair window. */
  ghost function Window(w: Wheel): nat
    requires w.Valid()
  {
    UpWeight(Unit(w), |w.weights|)
  }

  lemma {:induction false} UnitWeights(w: Wheel, k: nat)
    requires w.Valid() && k <= |w.weights|
    ensures UpWeight(Unit(w), k) * w.step == UpWeight(w, k)
  {
    if k > 0 {
      UnitWeights(w, k - 1);
      UnitShare(w, k - 1);
      Distribute(UpWeight(Unit(w), k - 1), Share(Unit(w), k - 1), w.step);
    }
  }

  /** A full cycle of ticks holds exactly one window of picks. */
  lemma CycleIsWindow(w: Wheel, s: State)
    requires w.Valid() && Aligned(w, s)
    ensures |Trace(w, s, w.Cycle())| == Window(w)
    ensures Window(w) * w.step == UpWeight(w, |w.weights|)
    ensures forall j :: 0 <= j < |w.weights| ==> multiset(Trace(w, s, w.Cycle()))[j] * w.step == Share(w, j)
  {
    var tr := Trace(w, s, w.Cycle());
    forall j | 0 <= j < |w.weights|
      ensures multiset(tr)[j] * w.step == Share(w, j)
    {
      CycleShares(w, s, j);
      UnitShare(w, j);
    }
    TicksAligned(w, s, w.Cycle());
    LengthIsCountSum(tr, |w.weights|);
    SharesSum(w, tr, |w.weights|);
    UnitWeights(w, |w.weights|);
    Cancel(|tr|, Window(w), w.step);
  }

  lemma {:induction false} AfterCompose(w: Wheel, s: State, m: nat, n: nat)
    requires w.Valid() && w.CanPick() && Aligned(w, s)
    ensures After(w, s, m + n) == After(w, After(w, s, m), n)
    decreases m
  {
    if m > 0 {
      AfterCompose(w, Next(w, s), m - 1, n);
    }
  }

  lemma {:induction false} AfterHits(w: Wheel, s: State, m: nat)
    requires w.Valid() && w.CanPick() && Aligned(w, s) && m > 0
    ensures Hit(w, After(w, s, m))
    decreases m
  {
    if m > 1 {
      AfterHits(w, Next(w, s), m - 1);
    } else {
      assert After(w, s, 1) == After(w, Next(w, s), 0);
    }
  }

  /** A state that a pick left comes back after one window of picks. */
  lemma WindowRepeats(w: Wheel, s: State)
    requires w.Valid() && w.CanPick() && Aligned(w, s) && Hit(w, s)
    ensures After(w, s, Window(w)) == s
  {
    CycleIsWindow(w, s);
    PicksAreHits(w, s, w.Cycle());
    CycleRepeats(w, s);
    assert w.Cycle() > 0;
  }

  /** The scheduler is periodic: from the first pick on, its state repeats with every window. */
  lemma Periodic(w: Wheel, s: State, m: nat)
    requires w.Valid() && w.CanPick() && Aligned(w, s) && m > 0
    ensures After(w, s, m + Window(w)) == After(w, s, m)
  {
    AfterHits(w, s, m);
    WindowRepeats(w, After(w, s, m));
    AfterCompose(w, s, m, Window(w));
  }

  /**
   Exact weighted fairness. From any aligned state, with servers and up-set fixed, the next
   (sum of up weights)/gcd picks return each up server exactly weight/gcd times and no down
   server, and from the first pick on the state repeats with this period.
   */
  lemma FairWindow(w: Wheel, s: State)
    requires w.Valid() && w.CanPick() && Aligned(w, s)
    ensures Window(w) * w.step == UpWeight(w, |w.weights|)
    ensures forall j :: 0 <= j < |w.weights| ==>
              multiset(Picks(w, s, Window(w)))[j] * w.step == if w.up[j] then w.weights[j] else 0
    ensures forall m: nat :: m > 0 ==> After(w, s, m + Window(w)) == After(w, s, m)
  {
    CycleIsWindow(w, s);
    PicksAreHits(w, s, w.Cycle());
    forall m: nat | m > 0 ensures After(w, s, m + Window(w)) == After(w, s, m) {
      Periodic(w, s, m);
    }
  }

  lemma PositiveFactor(n: nat, step: nat, v: nat)
    requires n * step == v && step > 0
    ensures n > 0 <==> v > 0
  {
  }

  /** A window of picks returns exactly the servers that are up with a positive weight. */
  lemma WindowReturns(w: Wheel, s: State, j: int)
    requires w.Valid() && w.CanPick() && Aligned(w, s)
    ensures j in Picks(w, s, Window(w)) <==> 0 <= j < |w.weights| && w.up[j] && w.weights[j] > 0
  {
    var picks := Picks(w, s, Window(w));
    CycleIsWindow(w, s);
    PicksAreHits(w, s, w.Cycle());
    TicksAligned(w, s, w.Cycle());
    assert j in picks <==> multiset(picks)[j] > 0;
    if 0 <= j < |w.weights| {
      PositiveFactor(multiset(picks)[j], w.step, Share(w, j));
    }
  }

  // ---------------------------------------------------------------------------
  // Termination of the pick loop
  // ---------------------------------------------------------------------------

  lemma {:induction false} WaitIsFirstHit(w: Wheel, s: State)
    requires w.Valid() && w.CanPick() && Aligned(w, s)
    ensures Next(w, s) == TickN(w, s, Wait(w, s))
    ensures |Trace(w, s, Wait(w, s) - 1)| == 0
    decreases Wait(w, s)
  {
    var t := Tick(w, s);
    TickAligned(w, s);
    if !Hit(w, t) {
      WaitIsFirstHit(w, t);
    }
  }

  lemma {:induction false} MissesWithoutUp(w: Wheel, s: State, k: nat)
    requires w.Valid() && Aligned(w, s) && !w.CanPick()
    ensures |Trace(w, s, k)| == 0
    decreases k
  {
    if k > 0 {
      TickAligned(w, s);
      MissesWithoutUp(w, Tick(w, s), k - 1);
    }
  }

  /** A prefix of the ticks with no hit is shorter than any stretch of ticks that has one. */
  lemma WaitBounded(w: Wheel, s: State, k: nat)
    requires w.Valid() && w.CanPick() && Aligned(w, s)
    requires |Trace(w, s, k)| > 0
    ensures Wait(w, s) <= k
  {
    WaitIsFirstHit(w, s);
    if k < Wait(w, s) {
      TicksCompose(w, s, k, Wait(w, s) - 1 - k);
    }
  }

  /** The pick loop exits if and only if some up server has positive weight, and then within n * (max/gcd) iterations. */
  lemma LoopExits(w: Wheel, s: State)
    requires w.Valid() && Aligned(w, s)
    ensures (exists k: nat :: |Trace(w, s, k)| > 0) <==> w.CanPick()
    ensures w.CanPick() ==> 0 < Wait(w, s) <= |w.weights| * Quotient(w.top, w.step)
  {
    if w.CanPick() {
      CycleIsWindow(w, s);
      var f := FirstUpFrom(w, 0);
      assert multiset(Trace(w, s, w.Cycle()))[f] > 0;
      assert f in multiset(Trace(w, s, w.Cycle()));
      assert |Trace(w, s, w.Cycle())| > 0;
      WaitBounded(w, s, w.Cycle());
    } else {
      forall k: nat ensures |Trace(w, s, k)| == 0 { MissesWithoutUp(w, s, k); }
    }
  }

  /** With a server of maximal weight up, the loop exits within n iterations. */
  lemma LoopExitsInOneLap(w: Wheel, s: State, m: nat)
    requires w.Valid() && Aligned(w, s)
    requires m < |w.weights| && w.up[m] && w.weights[m] == w.top
    ensures w.CanPick() && Wait(w, s) <= |w.weights|
  {
    var i := if s.index < m then m - s.index else m - s.index + |w.weights|;
    OneLap(w, s, i, m);
    WaitBounded(w, s, i);
  }

  lemma {:induction false} OneLap(w: Wheel, s: State, k: nat, m: nat)
    requires w.Valid() && Aligned(w, s) && 0 < k <= |w.weights|
    requires m < |w.weights| && w.up[m] && w.weights[m] == w.top
    requires s.index + k == m || s.index + k == m + |w.weights|
    ensures |Trace(w, s, k)| > 0
    decreases k
  {
    var t := Tick(w, s);
    TickAligned(w, s);
    if k == 1 {
      assert Hit(w, t);
    } else {
      assert s.index + 1 < |w.weights| ==> t.index == s.index + 1;
      OneLap(w, t, k - 1, m);
    }
  }
}
