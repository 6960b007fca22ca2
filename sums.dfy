/** Finite sums as the constraint rules write them: `sum(f(x) for x in s)` over an
    ordered index set, and sums over the ordered time periods `0..n`. */
module Sums {

  /** Sum of `f(x)` for `x` in the ordered set `xs`. */
  function Sum<T>(xs: seq<T>, f: T -> int): int
    decreases |xs|
  {
    if |xs| == 0 then 0 else f(xs[0]) + Sum(xs[1..], f)
  }

  /** Sum of `f(t)` for the periods `t` in `0..n`. */
  function SumTo(n: nat, f: nat -> int): int
    decreases n
  {
    if n == 0 then f(0) else SumTo(n - 1, f) + f(n)
  }

  /** Elements of a sequence are pairwise distinct (an ordered set). */
  predicate Distinct<T(==)>(xs: seq<T>)
  {
    forall p, q :: 0 <= p < q < |xs| ==> xs[p] != xs[q]
  }

  /** A sum whose every term is zero is zero. */
  lemma {:induction false} SumOfZeros<T>(xs: seq<T>, f: T -> int)
    requires forall k :: 0 <= k < |xs| ==> f(xs[k]) == 0
    ensures Sum(xs, f) == 0
    decreases |xs|
  {
    if |xs| > 0 {
      SumOfZeros(xs[1..], f);
    }
  }

  /** Two summands that agree on every element give the same sum. */
  lemma {:induction false} SumCongruent<T>(xs: seq<T>, f: T -> int, g: T -> int)
    requires forall k :: 0 <= k < |xs| ==> f(xs[k]) == g(xs[k])
    ensures Sum(xs, f) == Sum(xs, g)
    decreases |xs|
  {
    if |xs| > 0 {
      SumCongruent(xs[1..], f, g);
    }
  }

  /** Summands that add up term by term give sums that add up. */
  lemma {:induction false} SumSplit<T>(xs: seq<T>, f: T -> int, g: T -> int, h: T -> int)
    requires forall k :: 0 <= k < |xs| ==> f(xs[k]) + g(xs[k]) == h(xs[k])
    ensures Sum(xs, f) + Sum(xs, g) == Sum(xs, h)
    decreases |xs|
  {
    if |xs| > 0 {
      SumSplit(xs[1..], f, g, h);
    }
  }

  /** A sum of non-negative terms is at least each of its terms. */
  lemma {:induction false} SumAtLeastTerm<T>(xs: seq<T>, f: T -> int, p: nat)
    requires forall k :: 0 <= k < |xs| ==> f(xs[k]) >= 0
    requires p < |xs|
    ensures Sum(xs, f) >= f(xs[p])
    decreases |xs|
  {
    if p == 0 {
      SumNonNegative(xs[1..], f);
    } else {
      SumAtLeastTerm(xs[1..], f, p - 1);
    }
  }

  /** A sum of non-negative terms is non-negative. */
  lemma {:induction false} SumNonNegative<T>(xs: seq<T>, f: T -> int)
    requires forall k :: 0 <= k < |xs| ==> f(xs[k]) >= 0
    ensures Sum(xs, f) >= 0
    decreases |xs|
  {
    if |xs| > 0 {
      SumNonNegative(xs[1..], f);
    }
  }

  /** A sum of non-negative terms is at least the sum of two terms at distinct positions. */
  lemma {:induction false} SumAtLeastTwoTerms<T>(xs: seq<T>, f: T -> int, p: nat, q: nat)
    requires forall k :: 0 <= k < |xs| ==> f(xs[k]) >= 0
    requires p < q < |xs|
    ensures Sum(xs, f) >= f(xs[p]) + f(xs[q])
    decreases |xs|
  {
    if p == 0 {
      SumAtLeastTerm(xs[1..], f, q - 1);
    } else {
      SumAtLeastTwoTerms(xs[1..], f, p - 1, q - 1);
    }
  }

  /** A sum over an ordered set whose terms vanish everywhere except at `d` is the term
      at `d` when `d` is a member, and zero otherwise. */
  lemma {:induction false} SumSelect<T>(xs: seq<T>, d: T, f: T -> int)
    requires Distinct(xs)
    requires forall k :: 0 <= k < |xs| && xs[k] != d ==> f(xs[k]) == 0
    ensures Sum(xs, f) == if d in xs then f(d) else 0
    decreases |xs|
  {
    if |xs| > 0 {
      SumSelect(xs[1..], d, f);
      assert d in xs <==> d == xs[0] || d in xs[1..];
      if d == xs[0] {
        assert d !in xs[1..] by {
          forall k | 0 <= k < |xs[1..]| ensures xs[1..][k] != d {
            assert xs[1..][k] == xs[k + 1];
          }
        }
      }
    }
  }

  /** Two period summands that agree on `0..n` give the same sum. */
  lemma {:induction false} SumToCongruent(n: nat, f: nat -> int, g: nat -> int)
    requires forall u :: 0 <= u <= n ==> f(u) == g(u)
    ensures SumTo(n, f) == SumTo(n, g)
    decreases n
  {
    if n > 0 {
      SumToCongruent(n - 1, f, g);
    }
  }

  /** A period sum of non-negative terms is non-negative. */
  lemma {:induction false} SumToNonNegative(n: nat, f: nat -> int)
    requires forall u :: 0 <= u <= n ==> f(u) >= 0
    ensures SumTo(n, f) >= 0
    decreases n
  {
    if n > 0 {
      SumToNonNegative(n - 1, f);
    }
  }

  /** A stock that starts at `init + delta(0)` and changes by `delta(u)` in each later
      period holds `init` plus the accumulated changes: the balance equations unrolled. */
  lemma {:induction false} Telescope(stock: nat -> int, init: int, delta: nat -> int, t: nat)
    requires stock(0) == init + delta(0)
    requires forall u :: 0 < u <= t ==> stock(u) == stock(u - 1) + delta(u)
    ensures stock(t) == init + SumTo(t, delta)
    decreases t
  {
    if t > 0 {
      Telescope(stock, init, delta, t - 1);
    }
  }

  /** The stock a period starts from: `init` in period 0, else the previous period's. */
  function Previous(stock: nat -> int, init: int, u: nat): int
  {
    if u == 0 then init else stock(u - 1)
  }

  /** The balance equations hold in every period up to `t` (period 0 starting from
      `init`) exactly when the stock in each of those periods is `init` plus the changes
      accumulated so far. */
  lemma {:induction false} TelescopeIff(stock: nat -> int, init: int, delta: nat -> int, t: nat)
    ensures (forall u: nat :: u <= t ==> stock(u) == Previous(stock, init, u) + delta(u))
        <==> (forall u: nat :: u <= t ==> stock(u) == init + SumTo(u, delta))
  {
    if forall u: nat :: u <= t ==> stock(u) == Previous(stock, init, u) + delta(u) {
      forall u: nat | u <= t ensures stock(u) == init + SumTo(u, delta) {
        assert stock(0) == Previous(stock, init, 0) + delta(0);
        forall v: nat | 0 < v <= u ensures stock(v) == stock(v - 1) + delta(v) {
          assert stock(v) == Previous(stock, init, v) + delta(v);
        }
        Telescope(stock, init, delta, u);
      }
    }
    if forall u: nat :: u <= t ==> stock(u) == init + SumTo(u, delta) {
      forall u: nat | u <= t ensures stock(u) == Previous(stock, init, u) + delta(u) {
        assert stock(u) == init + SumTo(u, delta);
        if u > 0 {
          assert stock(u - 1) == init + SumTo(u - 1, delta);
        }
      }
    }
  }

  /** A period sum whose every term is zero is zero. */
  lemma {:induction false} SumToOfZeros(n: nat, f: nat -> int)
    requires forall u :: 0 <= u <= n ==> f(u) == 0
    ensures SumTo(n, f) == 0
    decreases n
  {
    if n > 0 {
      SumToOfZeros(n - 1, f);
    }
  }
}
