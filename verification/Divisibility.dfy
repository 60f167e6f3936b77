/**
 Multiples, quotients and greatest common divisors of natural numbers, and the
 loops with which both load balancers compute the maximum and the gcd of their
 weights.
 */
module Divisibility {

  /** `x` is a multiple of `step`, by repeated subtraction. */
  ghost predicate Multiple(x: int, step: nat)
    requires step > 0
    decreases x
  {
    x == 0 || (x >= step && Multiple(x - step, step))
  }

  ghost function Quotient(x: int, step: nat): (q: nat)
    requires step > 0 && Multiple(x, step)
    ensures x >= 0 && (q > 0 <==> x > 0)
    decreases x
  {
    if x == 0 then 0 else 1 + Quotient(x - step, step)
  }

  lemma {:induction false} QuotientTimes(x: int, step: nat)
    requires step > 0 && Multiple(x, step)
    ensures Quotient(x, step) * step == x
    decreases x
  {
    if x != 0 {
      QuotientTimes(x - step, step);
      assert (1 + Quotient(x - step, step)) * step == step + Quotient(x - step, step) * step;
    }
  }

  lemma {:induction false} QuotientOrder(a: int, b: int, step: nat)
    requires step > 0 && Multiple(a, step) && Multiple(b, step)
    ensures a >= b <==> Quotient(a, step) >= Quotient(b, step)
    decreases a
  {
    if a != 0 && b != 0 {
      QuotientOrder(a - step, b - step, step);
    }
  }

  lemma {:induction false} MultipleTimes(q: nat, step: nat)
    requires step > 0
    ensures Multiple(q * step, step) && Quotient(q * step, step) == q
  {
    if q > 0 {
      assert q * step == (q - 1) * step + step;
      MultipleTimes(q - 1, step);
    }
  }

  lemma {:induction false} OnesAreMultiples(x: nat)
    ensures Multiple(x, 1) && Quotient(x, 1) == x
  {
    if x > 0 { OnesAreMultiples(x - 1); }
  }

  lemma Distribute(a: nat, b: nat, step: nat)
    ensures (a + b) * step == a * step + b * step
  {
  }

  lemma Cancel(a: nat, b: nat, step: nat)
    requires step > 0 && a * step == b * step
    ensures a == b
  {
    assert (a - b) * step == 0;
  }

  lemma {:induction false} MultipleSum(x: nat, y: nat, d: nat)
    requires d > 0 && Multiple(x, d)
    ensures Multiple(y, d) <==> Multiple(x + y, d)
    decreases x
  {
    if x != 0 {
      MultipleSum(x - d, y, d);
    }
  }

  lemma {:induction false} MultipleTransitive(x: nat, y: nat, d: nat)
    requires d > 0 && y > 0 && Multiple(y, d) && Multiple(x, y)
    ensures Multiple(x, d)
    decreases x
  {
    if x != 0 {
      MultipleTransitive(x - y, y, d);
      MultipleSum(y, x - y, d);
    }
  }

  /** Euclid's algorithm. */
  function Gcd(a: nat, b: nat): nat
    decreases b
  {
    if b == 0 then a else Gcd(b, a % b)
  }

  /** The remainder has the same common divisors with `b` as `a` has. */
  lemma RemainderDivisors(a: nat, b: nat, d: nat)
    requires b > 0 && d > 0 && Multiple(b, d)
    ensures Multiple(a, d) <==> Multiple(a % b, d)
  {
    var q, r := a / b, a % b;
    assert a == q * b + r;
    MultipleTimes(q, b);
    MultipleTransitive(q * b, b, d);
    MultipleSum(q * b, r, d);
  }

  /** The result divides both arguments, and every common divisor divides the result. */
  lemma {:induction false} GcdGreatest(a: nat, b: nat)
    requires a > 0 || b > 0
    ensures Gcd(a, b) > 0 && Multiple(a, Gcd(a, b)) && Multiple(b, Gcd(a, b))
    ensures forall d: nat :: d > 0 && Multiple(a, d) && Multiple(b, d) ==> Multiple(Gcd(a, b), d)
    decreases b
  {
    if b == 0 {
      assert Multiple(a - a, a);
    } else {
      GcdGreatest(b, a % b);
      RemainderDivisors(a, b, Gcd(a, b));
      forall d: nat | d > 0 && Multiple(a, d) && Multiple(b, d)
        ensures Multiple(Gcd(a, b), d)
      {
        RemainderDivisors(a, b, d);
      }
    }
  }

  /** The maximum of a list, -1 for the empty one. */
  ghost function MaxOf(ws: seq<nat>): (m: int)
    ensures m >= -1 && (ws != [] ==> m >= 0)
  {
    if ws == [] then -1
    else
      var m := MaxOf(ws[..|ws| - 1]);
      if ws[|ws| - 1] > m then ws[|ws| - 1] else m
  }

  /** The gcd of a list, -1 for the empty one. */
  ghost function GcdOf(ws: seq<nat>): (g: int)
    ensures g >= -1 && (ws != [] ==> g >= 0)
  {
    if ws == [] then -1
    else if |ws| == 1 then ws[0]
    else Gcd(GcdOf(ws[..|ws| - 1]), ws[|ws| - 1])
  }

  lemma {:induction false} MaxOfIsMax(ws: seq<nat>)
    requires ws != []
    ensures MaxOf(ws) in ws
    ensures forall i :: 0 <= i < |ws| ==> ws[i] <= MaxOf(ws)
  {
    var rest := ws[..|ws| - 1];
    assert ws == rest + [ws[|ws| - 1]];
    if rest != [] {
      MaxOfIsMax(rest);
      forall i | 0 <= i < |ws| ensures ws[i] <= MaxOf(ws) {
        if i < |rest| { assert ws[i] == rest[i]; }
      }
    }
  }

  /** The gcd of a list with a positive maximum divides every element, and is the greatest to do so. */
  lemma {:induction false} GcdOfIsGcd(ws: seq<nat>)
    requires MaxOf(ws) > 0
    ensures GcdOf(ws) > 0
    ensures forall i :: 0 <= i < |ws| ==> Multiple(ws[i], GcdOf(ws))
    ensures forall d: nat :: d > 0 && (forall i :: 0 <= i < |ws| ==> Multiple(ws[i], d)) ==> Multiple(GcdOf(ws), d)
    decreases |ws|
  {
    var last := ws[|ws| - 1];
    var rest := ws[..|ws| - 1];
    if |ws| == 1 {
      assert Multiple(last - last, last);
    } else if MaxOf(rest) > 0 {
      GcdOfIsGcd(rest);
      var g := GcdOf(rest);
      GcdGreatest(g, last);
      forall i | 0 <= i < |ws| ensures Multiple(ws[i], GcdOf(ws)) {
        if i < |rest| {
          assert ws[i] == rest[i];
          MultipleTransitive(ws[i], g, GcdOf(ws));
        }
      }
      forall d: nat | d > 0 && forall i :: 0 <= i < |ws| ==> Multiple(ws[i], d)
        ensures Multiple(GcdOf(ws), d)
      {
        assert forall i :: 0 <= i < |rest| ==> rest[i] == ws[i];
        assert Multiple(last, d);
      }
    } else {
      MaxOfIsMax(rest);
      ZeroGcd(rest);
      GcdGreatest(0, last);
      forall i | 0 <= i < |ws| ensures Multiple(ws[i], GcdOf(ws)) {
        if i < |rest| { assert ws[i] == rest[i]; }
      }
      forall d: nat | d > 0 && forall i :: 0 <= i < |ws| ==> Multiple(ws[i], d)
        ensures Multiple(GcdOf(ws), d)
      {
        assert Multiple(last, d) && Multiple(0, d);
      }
    }
  }

  lemma {:induction false} ZeroGcd(ws: seq<nat>)
    requires ws != [] && forall i :: 0 <= i < |ws| ==> ws[i] == 0
    ensures GcdOf(ws) == 0
    decreases |ws|
  {
    if |ws| > 1 {
      var rest := ws[..|ws| - 1];
      assert forall i :: 0 <= i < |rest| ==> rest[i] == ws[i];
      ZeroGcd(rest);
    }
  }

  method ComputeGcd(x: nat, y: nat) returns (a: nat)
    ensures a == Gcd(x, y)
  {
    a := x;
    var b: nat := y;
    while b != 0
      invariant Gcd(a, b) == Gcd(x, y)
    {
      a, b := b, a % b;
    }
  }

  method ComputeMax(ws: seq<nat>) returns (maximum: int)
    ensures maximum == MaxOf(ws)
  {
    maximum := -1;
    for i := 0 to |ws|
      invariant maximum == MaxOf(ws[..i])
    {
      assert ws[..i + 1][..i] == ws[..i];
      if ws[i] > maximum {
        maximum := ws[i];
      }
    }
    assert ws[..|ws|] == ws;
  }

  method ComputeGcdOf(ws: seq<nat>) returns (divisor: int)
    ensures divisor == GcdOf(ws)
  {
    divisor := -1;
    for i := 0 to |ws|
      invariant divisor == GcdOf(ws[..i])
    {
      assert ws[..i + 1][..i] == ws[..i];
      if divisor == -1 {
        divisor := ws[i];
      } else {
        divisor := ComputeGcd(divisor, ws[i]);
      }
    }
    assert ws[..|ws|] == ws;
  }
}
