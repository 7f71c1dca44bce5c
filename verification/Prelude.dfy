/** Small notions shared by the models: optional values, C strings, and sums over threads. */
module Prelude {

  datatype Option<+T> = None | Some(value: T)

  const NUL: char := '\0'

  /** The C string at the beginning of s: everything before its first NUL. */
  function UpToNul(s: string): string {
    if s == [] || s[0] == NUL then [] else [s[0]] + UpToNul(s[1..])
  }

  /** What follows the first NUL does not matter. */
  lemma {:induction false} CutAtNul(s: string, k: nat)
    requires k < |s| && s[k] == NUL
    ensures UpToNul(s) == UpToNul(s[..k])
  {
    if k > 0 {
      assert s[..k][1..] == s[1..][..k - 1];
      CutAtNul(s[1..], k - 1);
    }
  }

  lemma {:induction false} WithoutNul(s: string)
    requires NUL !in s
    ensures UpToNul(s) == s
  {
    if s != [] { WithoutNul(s[1..]); }
  }

  /** The sum of f over all elements of xs. */
  function Sum<T>(xs: seq<T>, f: T -> int): int {
    if xs == [] then 0 else f(xs[0]) + Sum(xs[1..], f)
  }

  /** Replacing one element changes the sum by the difference of its two values. */
  lemma {:induction false} SumUpdate<T>(xs: seq<T>, i: nat, x: T, f: T -> int)
    requires i < |xs|
    ensures Sum(xs[i := x], f) == Sum(xs, f) - f(xs[i]) + f(x)
  {
    if i == 0 {
      assert xs[0 := x][1..] == xs[1..];
    } else {
      assert xs[i := x][1..] == xs[1..][i - 1 := x];
      SumUpdate(xs[1..], i - 1, x, f);
    }
  }

  /** A sum of non-negative values is at least any one of them. */
  lemma {:induction false} SumAtLeast<T>(xs: seq<T>, i: nat, f: T -> int)
    requires i < |xs|
    requires forall k | 0 <= k < |xs| :: 0 <= f(xs[k])
    ensures f(xs[i]) <= Sum(xs, f)
  {
    SumNonNegative(xs[1..], f);
    if i > 0 {
      SumAtLeast(xs[1..], i - 1, f);
    }
  }

  lemma {:induction false} SumNonNegative<T>(xs: seq<T>, f: T -> int)
    requires forall k | 0 <= k < |xs| :: 0 <= f(xs[k])
    ensures 0 <= Sum(xs, f)
  {
    if xs != [] {
      SumNonNegative(xs[1..], f);
    }
  }

  /** Pointwise f <= g + h carries over to sums. */
  lemma {:induction false} SumDominated<T>(xs: seq<T>, f: T -> int, g: T -> int, h: T -> int)
    requires forall k | 0 <= k < |xs| :: f(xs[k]) <= g(xs[k]) + h(xs[k])
    ensures Sum(xs, f) <= Sum(xs, g) + Sum(xs, h)
  {
    if xs != [] {
      SumDominated(xs[1..], f, g, h);
    }
  }

  /** A pointwise linear relation carries over to sums. */
  lemma {:induction false} SumScaled<T>(xs: seq<T>, f: T -> int, g: T -> int, n: int)
    requires forall k | 0 <= k < |xs| :: f(xs[k]) == n * g(xs[k])
    ensures Sum(xs, f) == n * Sum(xs, g)
  {
    if xs != [] {
      SumScaled(xs[1..], f, g, n);
    }
  }

  lemma {:induction false} SumZero<T>(xs: seq<T>, f: T -> int)
    requires forall k | 0 <= k < |xs| :: f(xs[k]) == 0
    ensures Sum(xs, f) == 0
  {
    if xs != [] {
      SumZero(xs[1..], f);
    }
  }
}
