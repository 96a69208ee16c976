/** Shared vocabulary of the model: optional values, sums of counts, the
    "first maximum" rule both trainers use, Java's remainder, and the
    decomposition of a sequence into runs of equal neighbours that the
    numeric trainer uses twice (runs of equal attribute values in the scan,
    runs of equal classes in the merge). */
module Basics {

  datatype Option<T> = None | Some(value: T)

  /** Sum of a sequence of counts, taken from the back so that it grows
      with a loop that walks the sequence from the front. */
  function Sum(s: seq<int>): int
  {
    if s == [] then 0 else Sum(s[..|s| - 1]) + s[|s| - 1]
  }

  /** Sum of the same quantity over reals (weights, pooled ratios). */
  function RealSum(s: seq<real>): real
  {
    if s == [] then 0.0 else RealSum(s[..|s| - 1]) + s[|s| - 1]
  }

  predicate NonNegative(s: seq<int>)
  {
    forall i :: 0 <= i < |s| ==> s[i] >= 0
  }

  lemma {:induction false} SumOfNonNegative(s: seq<int>)
    requires NonNegative(s)
    ensures Sum(s) >= 0
    ensures forall i :: 0 <= i < |s| ==> s[i] <= Sum(s)
  {
    if s != [] {
      var p := s[..|s| - 1];
      assert NonNegative(p) by {
        forall i | 0 <= i < |p| ensures p[i] >= 0 { assert p[i] == s[i]; }
      }
      SumOfNonNegative(p);
      forall i | 0 <= i < |s| ensures s[i] <= Sum(s) {
        if i < |p| { assert s[i] == p[i]; }
      }
    }
  }

  lemma {:induction false} SumAppend(s: seq<int>, t: seq<int>)
    ensures Sum(s + t) == Sum(s) + Sum(t)
  {
    if t != [] {
      assert (s + t)[..|s + t| - 1] == s + t[..|t| - 1];
      SumAppend(s, t[..|t| - 1]);
    } else {
      assert s + t == s;
    }
  }

  /** Number of entries of s equal to v. */
  function Count(s: seq<int>, v: int): nat
  {
    if s == [] then 0 else Count(s[..|s| - 1], v) + (if s[|s| - 1] == v then 1 else 0)
  }

  /** Each count is at most the number of entries. */
  lemma {:induction false} CountAtMost(s: seq<int>, v: int)
    ensures Count(s, v) <= |s|
  {
    if s != [] {
      CountAtMost(s[..|s| - 1], v);
    }
  }

  lemma {:induction false} CountAppend(s: seq<int>, t: seq<int>, v: int)
    ensures Count(s + t, v) == Count(s, v) + Count(t, v)
    decreases |t|
  {
    if t == [] {
      assert s + t == s;
    } else {
      var n := |t| - 1;
      CountAppend(s, t[..n], v);
      assert (s + t)[..|s| + n] == s + t[..n];
    }
  }

  /** Count agrees with the multiplicity in the multiset of entries. */
  lemma {:induction false} CountIsMultiplicity(s: seq<int>, v: int)
    ensures Count(s, v) == multiset(s)[v]
  {
    if s != [] {
      CountIsMultiplicity(s[..|s| - 1], v);
      assert s == s[..|s| - 1] + [s[|s| - 1]];
    }
  }

  /** All classes are indices of the class attribute's domain. */
  predicate ClassesInRange(classes: seq<int>, numClasses: nat)
  {
    forall i :: 0 <= i < |classes| ==> 0 <= classes[i] < numClasses
  }

  /** The all-zero count vector sums to 0. */
  lemma {:induction false} ZeroRowSum(n: nat)
    ensures Sum(seq(n, _ => 0)) == 0
  {
    if n > 0 {
      assert seq(n, _ => 0)[..n - 1] == seq(n - 1, _ => 0);
      ZeroRowSum(n - 1);
    }
  }

  /** Adding d to one entry adds d to the sum. */
  lemma {:induction false} SumUpdate(s: seq<int>, k: nat, d: int)
    requires k < |s|
    ensures Sum(s[k := s[k] + d]) == Sum(s) + d
  {
    var u := s[k := s[k] + d];
    if k == |s| - 1 {
      assert u[..|u| - 1] == s[..|s| - 1];
    } else {
      assert u[..|u| - 1] == s[..|s| - 1][k := s[k] + d];
      SumUpdate(s[..|s| - 1], k, d);
    }
  }

  /** A positive count over a total at least as large is a ratio in (0, 1]. */
  lemma RatioInUnitInterval(a: int, b: int)
    requires 0 < a <= b
    ensures 0.0 < a as real / b as real <= 1.0
  {
    assert a as real / b as real * b as real == a as real;
  }

  /** k is the lowest index holding the largest value of s: the rule a scan
      produces when it keeps its first candidate and replaces it only on a
      strictly larger value. */
  predicate IsFirstMax(s: seq<int>, k: int)
  {
    0 <= k < |s| &&
    (forall i :: 0 <= i < |s| ==> s[i] <= s[k]) &&
    (forall i :: 0 <= i < k ==> s[i] < s[k])
  }

  lemma FirstMaxUnique(s: seq<int>, k1: int, k2: int)
    requires IsFirstMax(s, k1) && IsFirstMax(s, k2)
    ensures k1 == k2
  {
    assert s[k1] == s[k2];
  }

  /** The first maximum of a non-empty sequence, as a value. */
  function FirstMax(s: seq<int>): (k: nat)
    requires |s| > 0
    ensures IsFirstMax(s, k)
  {
    if |s| == 1 then 0
    else
      var m := FirstMax(s[..|s| - 1]);
      assert IsFirstMax(s[..|s| - 1], m);
      if s[m] < s[|s| - 1] then |s| - 1 else m
  }

  /** One pass over a row of class counts: the first class with the largest
      count, that count, and the row's total. Both trainers run this scan,
      starting from entry 0 and replacing the candidate only on a strictly
      larger count. */
  method ScanCounts(row: seq<int>) returns (maxIndex: nat, maxCount: int, total: int)
    requires |row| > 0
    ensures IsFirstMax(row, maxIndex) && maxCount == row[maxIndex]
    ensures total == Sum(row)
  {
    maxIndex, maxCount, total := 0, row[0], row[0];
    assert row[..1] == [row[0]];
    for k := 1 to |row|
      invariant maxIndex < k && maxCount == row[maxIndex]
      invariant IsFirstMax(row[..k], maxIndex)
      invariant total == Sum(row[..k])
    {
      assert row[..k + 1][..k] == row[..k];
      total := total + row[k];
      if maxCount < row[k] {
        maxIndex, maxCount := k, row[k];
      }
    }
    assert row[..|row|] == row;
  }

  /** Java's `a % b` for b > 0: the remainder truncates toward zero, so it
      takes the sign of the dividend. */
  function JavaRem(a: int, b: int): (r: int)
    requires b > 0
    ensures a >= 0 ==> 0 <= r < b
    ensures a < 0 ==> -b < r <= 0
    ensures a - r == b * (if a >= 0 then a / b else -((-a) / b))
  {
    if a >= 0 then a % b else -((-a) % b)
  }

  /** Positions 0 < i < |s| at which s changes value (s[i] != s[i-1]), in
      ascending order. They cut s into |Cuts(s)| + 1 maximal runs of equal
      neighbours. */
  function Cuts<T(==)>(s: seq<T>): (cs: seq<nat>)
    ensures forall k :: 0 <= k < |cs| ==> 0 < cs[k] < |s|
    ensures forall k, l :: 0 <= k < l < |cs| ==> cs[k] < cs[l]
  {
    if |s| <= 1 then []
    else
      var p := Cuts(s[..|s| - 1]);
      if s[|s| - 1] != s[|s| - 2] then p + [|s| - 1] else p
  }

  /** Cuts(s) holds exactly the positions where s changes value. */
  lemma {:induction false} CutsAt<T>(s: seq<T>, i: nat)
    requires 0 < i < |s|
    ensures i in Cuts(s) <==> s[i] != s[i - 1]
  {
    var front := s[..|s| - 1];
    if i < |s| - 1 {
      CutsAt(front, i);
      assert front[i] == s[i] && front[i - 1] == s[i - 1];
    }
  }

  /** First position of run k, for cut positions cs. */
  function RunLo(cs: seq<nat>, k: nat): nat
    requires k <= |cs|
  {
    if k == 0 then 0 else cs[k - 1]
  }

  /** One past the last position of run k, for cut positions cs of a
      sequence of length n. */
  function RunHi(cs: seq<nat>, n: nat, k: nat): nat
    requires k <= |cs|
  {
    if k < |cs| then cs[k] else n
  }

  /** Every run is non-empty and lies inside s; consecutive runs abut. */
  lemma RunBounds<T>(s: seq<T>, k: nat)
    requires |s| > 0 && k <= |Cuts(s)|
    ensures 0 <= RunLo(Cuts(s), k) < RunHi(Cuts(s), |s|, k) <= |s|
    ensures k < |Cuts(s)| ==> RunHi(Cuts(s), |s|, k) == RunLo(Cuts(s), k + 1)
  {
  }

  /** All elements of a run equal its first element. */
  lemma {:induction false} RunUniform<T>(s: seq<T>, k: nat, i: nat)
    requires |s| > 0 && k <= |Cuts(s)|
    requires RunLo(Cuts(s), k) <= i < RunHi(Cuts(s), |s|, k)
    ensures s[i] == s[RunLo(Cuts(s), k)]
    decreases i
  {
    var cs := Cuts(s);
    if i > RunLo(cs, k) {
      RunUniform(s, k, i - 1);
      forall m | 0 <= m < |cs| ensures cs[m] != i {
        if m < k {
          assert cs[m] <= cs[k - 1] == RunLo(cs, k);
        } else {
          assert k < |cs| && cs[k] <= cs[m];
        }
      }
      assert i !in cs;
      CutsAt(s, i);
    }
  }

  /** Neighbouring runs hold different values. */
  lemma RunsDiffer<T>(s: seq<T>, k: nat)
    requires |s| > 0 && k < |Cuts(s)|
    ensures s[RunLo(Cuts(s), k + 1)] != s[RunLo(Cuts(s), k)]
  {
    var cs := Cuts(s);
    RunBounds(s, k);
    RunUniform(s, k, cs[k] - 1);
    assert cs[k] in cs;
    CutsAt(s, cs[k]);
  }

  /** Every position belongs to exactly one run. */
  lemma {:induction false} RunOf<T>(s: seq<T>, i: nat) returns (k: nat)
    requires i < |s|
    ensures k <= |Cuts(s)| && RunLo(Cuts(s), k) <= i < RunHi(Cuts(s), |s|, k)
    ensures forall l :: 0 <= l <= |Cuts(s)| && RunLo(Cuts(s), l) <= i < RunHi(Cuts(s), |s|, l) ==> l == k
  {
    var cs := Cuts(s);
    k := 0;
    while k < |cs| && cs[k] <= i
      invariant k <= |cs| && RunLo(cs, k) <= i
    {
      k := k + 1;
    }
    forall l | 0 <= l <= |cs| && RunLo(cs, l) <= i < RunHi(cs, |s|, l) ensures l == k {
      RunsInOrder(cs, |s|, l, k);
      RunsInOrder(cs, |s|, k, l);
    }
  }

  /** An earlier run ends no later than a later run starts. */
  lemma RunsInOrder(cs: seq<nat>, n: nat, l: nat, k: nat)
    requires l <= |cs| && k <= |cs|
    requires forall a, b :: 0 <= a < b < |cs| ==> cs[a] < cs[b]
    ensures l < k ==> RunHi(cs, n, l) <= RunLo(cs, k)
  {
    if l < k && l < k - 1 {
      assert cs[l] < cs[k - 1];
    }
  }

  /** The cuts of a prefix are the cuts of the whole that fall inside it. */
  lemma {:induction false} CutsPrefix<T>(s: seq<T>, n: nat)
    requires 0 < n < |s|
    ensures Cuts(s[..n + 1]) == Cuts(s[..n]) + (if s[n] != s[n - 1] then [n] else [])
  {
    assert s[..n + 1][..n] == s[..n];
  }
}
