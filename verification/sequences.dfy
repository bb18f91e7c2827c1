/** Python list slicing and the sums used to count tokens. */
module Sequences {

  /** `s[:n]`: never raises, even when `n` is past the end. */
  function Take<T>(s: seq<T>, n: nat): (r: seq<T>) {
    if n <= |s| then s[..n] else s
  }

  /** `s[n:]` for a non-negative `n`. */
  function Drop<T>(s: seq<T>, n: nat): (r: seq<T>) {
    if n <= |s| then s[n..] else []
  }

  /** `s[k:]` for any `k`; a negative `k` counts from the end and is clamped at 0. */
  function SliceFrom<T>(s: seq<T>, k: int): seq<T> {
    if k >= 0 then Drop(s, k)
    else if -k <= |s| then s[|s| + k..]
    else s
  }

  predicate EndsWith<T(==)>(s: seq<T>, suffix: seq<T>) {
    |suffix| <= |s| && s[|s| - |suffix|..] == suffix
  }

  /** The code's suffix test, with its possibly negative slice start, accepts exactly
      the sequences that end with the suffix. */
  lemma SliceFromTestsSuffix<T>(s: seq<T>, suffix: seq<T>)
    ensures SliceFrom(s, |s| - |suffix|) == suffix <==> EndsWith(s, suffix)
  {
    if |s| < |suffix| {
      var r := SliceFrom(s, |s| - |suffix|);
      assert |r| < |suffix|;
    }
  }

  /** A sequence that passes the code's suffix test is what is cut off plus the suffix. */
  lemma CutSuffix<T>(s: seq<T>, suffix: seq<T>)
    requires SliceFrom(s, |s| - |suffix|) == suffix
    ensures |suffix| <= |s|
    ensures Take(s, |s| - |suffix|) + suffix == s
  {
    SliceFromTestsSuffix(s, suffix);
  }

  lemma EndsWithAppend<T>(s: seq<T>, t: seq<T>, suffix: seq<T>)
    requires EndsWith(t, suffix)
    ensures EndsWith(s + t, suffix)
  {
    assert (s + t)[|s + t| - |suffix|..] == t[|t| - |suffix|..];
  }

  function RemoveAt<T>(s: seq<T>, i: nat): (r: seq<T>)
    requires i < |s|
  {
    s[..i] + s[i + 1..]
  }

  function Max(a: int, b: int): int {
    if a >= b then a else b
  }

  function Min(a: int, b: int): int {
    if a <= b then a else b
  }

  /** Python's `sum`. */
  function Sum(s: seq<nat>): nat {
    if s == [] then 0 else s[0] + Sum(s[1..])
  }

  function Repeat(x: nat, n: nat): (r: seq<nat>)
    ensures |r| == n
    ensures forall i | 0 <= i < n :: r[i] == x
  {
    seq(n, i => x)
  }

  function Zeros(n: nat): (r: seq<real>)
    ensures |r| == n
    ensures forall i | 0 <= i < n :: r[i] == 0.0
  {
    seq(n, i => 0.0)
  }

  lemma {:induction false} SumAppend(a: seq<nat>, b: seq<nat>)
    ensures Sum(a + b) == Sum(a) + Sum(b)
  {
    if a == [] {
      assert a + b == b;
    } else {
      SumAppend(a[1..], b);
      assert (a + b)[1..] == a[1..] + b;
    }
  }

  lemma SumSplit(a: seq<nat>, k: nat)
    requires k <= |a|
    ensures Sum(a) == Sum(a[..k]) + Sum(a[k..])
  {
    SumAppend(a[..k], a[k..]);
    assert a[..k] + a[k..] == a;
  }

  lemma {:induction false} SumRepeat(x: nat, n: nat)
    ensures Sum(Repeat(x, n)) == x * n
    decreases n
  {
    if n > 0 {
      SumRepeat(x, n - 1);
      assert Repeat(x, n)[1..] == Repeat(x, n - 1);
    }
  }
}
