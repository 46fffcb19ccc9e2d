/** Longest common subsequences of token lists, by the two-row dynamic program, and the similarity
    score built on them. */
module Lcs {
  import opened Basics

  /** `s` is read off `a` at the strictly increasing positions `at`. */
  ghost predicate Embeds<T>(s: seq<T>, a: seq<T>, at: seq<nat>) {
    && |at| == |s|
    && (forall k :: 0 <= k < |at| ==> at[k] < |a| && a[at[k]] == s[k])
    && (forall k, m :: 0 <= k < m < |at| ==> at[k] < at[m])
  }

  ghost predicate Subsequence<T>(s: seq<T>, a: seq<T>) {
    exists at: seq<nat> :: Embeds(s, a, at)
  }

  ghost predicate Common<T>(s: seq<T>, a: seq<T>, b: seq<T>) {
    Subsequence(s, a) && Subsequence(s, b)
  }

  /** `n` is the greatest length of a common subsequence. */
  ghost predicate IsLcsLength<T(!new)>(a: seq<T>, b: seq<T>, n: nat) {
    && (exists s: seq<T> :: Common(s, a, b) && |s| == n)
    && (forall s: seq<T> :: Common(s, a, b) ==> |s| <= n)
  }

  /** The recurrence of the dynamic program, over prefixes. */
  function Length<T(==)>(a: seq<T>, b: seq<T>): nat
    decreases |a| + |b|
  {
    if a == [] || b == [] then 0
    else
      var a', b' := a[..|a| - 1], b[..|b| - 1];
      if a[|a| - 1] == b[|b| - 1] then Length(a', b') + 1
      else Max(Length(a', b), Length(a, b'))
  }

  /** One row of the table is filled from the row above it. */
  method LcsLength<T(==)>(a: seq<T>, b: seq<T>) returns (n: nat)
    ensures n == Length(a, b)
  {
    if |a| == 0 || |b| == 0 {
      return 0;
    }
    var prev := new nat[|b| + 1](_ => 0);
    for i := 0 to |a|
      invariant prev.Length == |b| + 1
      invariant forall k :: 0 <= k <= |b| ==> prev[k] == Length(a[..i], b[..k])
    {
      var cur := new nat[|b| + 1](_ => 0);
      assert a[..i + 1][..i] == a[..i];
      for j := 0 to |b|
        invariant cur.Length == |b| + 1 && prev.Length == |b| + 1 && cur != prev
        invariant forall k :: 0 <= k <= |b| ==> prev[k] == Length(a[..i], b[..k])
        invariant forall k :: 0 <= k <= j ==> cur[k] == Length(a[..i + 1], b[..k])
      {
        assert b[..j + 1][..j] == b[..j];
        cur[j + 1] := if a[i] == b[j] then prev[j] + 1 else Max(prev[j + 1], cur[j]);
      }
      prev := cur;
    }
    assert a[..|a|] == a && b[..|b|] == b;
    return prev[|b|];
  }

  /** A common subsequence of the computed length, with where it sits in both lists. */
  lemma {:induction false} Achievable<T>(a: seq<T>, b: seq<T>) returns (s: seq<T>, ia: seq<nat>, ib: seq<nat>)
    ensures Embeds(s, a, ia) && Embeds(s, b, ib) && |s| == Length(a, b)
    decreases |a| + |b|
  {
    if a == [] || b == [] {
      s, ia, ib := [], [], [];
    } else {
      var a', b' := a[..|a| - 1], b[..|b| - 1];
      if a[|a| - 1] == b[|b| - 1] {
        s, ia, ib := Achievable(a', b');
        s, ia, ib := s + [a[|a| - 1]], ia + [|a| - 1], ib + [|b| - 1];
      } else if Length(a', b) >= Length(a, b') {
        s, ia, ib := Achievable(a', b);
      } else {
        s, ia, ib := Achievable(a, b');
      }
    }
  }

  /** A subsequence whose last position is not the last of `a` sits in `a` without its last element. */
  lemma {:induction false} EmbedsShorter<T>(s: seq<T>, a: seq<T>, at: seq<nat>)
    requires Embeds(s, a, at) && s != [] && at[|at| - 1] < |a| - 1
    ensures Embeds(s, a[..|a| - 1], at)
  {
    assert forall k :: 0 <= k < |at| - 1 ==> at[k] < at[|at| - 1];
  }

  lemma {:induction false} EmbedsInit<T>(s: seq<T>, a: seq<T>, at: seq<nat>)
    requires Embeds(s, a, at) && s != []
    ensures a != [] && Embeds(s[..|s| - 1], a[..|a| - 1], at[..|at| - 1])
  {
    assert forall k :: 0 <= k < |at| - 1 ==> at[k] < at[|at| - 1];
    assert at[|at| - 1] < |a|;
  }

  /** No common subsequence is longer than the computed length. */
  lemma {:induction false} Optimal<T>(a: seq<T>, b: seq<T>, s: seq<T>, ia: seq<nat>, ib: seq<nat>)
    requires Embeds(s, a, ia) && Embeds(s, b, ib)
    ensures |s| <= Length(a, b)
    decreases |a| + |b|
  {
    if s != [] {
      EmbedsInit(s, a, ia);
      EmbedsInit(s, b, ib);
      var a', b' := a[..|a| - 1], b[..|b| - 1];
      var n := |s| - 1;
      if a[|a| - 1] == b[|b| - 1] {
        Optimal(a', b', s[..n], ia[..n], ib[..n]);
      } else if ia[n] < |a| - 1 {
        EmbedsShorter(s, a, ia);
        Optimal(a', b, s, ia, ib);
      } else {
        assert ia[n] == |a| - 1 && s[n] == a[|a| - 1];
        EmbedsShorter(s, b, ib);
        Optimal(a, b', s, ia, ib);
      }
    }
  }

  /** The rolling-row program computes the greatest length over all common subsequences. */
  lemma {:induction false} LengthIsLcsLength<T(!new)>(a: seq<T>, b: seq<T>)
    ensures IsLcsLength(a, b, Length(a, b))
  {
    var s, ia, ib := Achievable(a, b);
    assert Common(s, a, b);
    forall t: seq<T> | Common(t, a, b)
      ensures |t| <= Length(a, b)
    {
      var ja: seq<nat> :| Embeds(t, a, ja);
      var jb: seq<nat> :| Embeds(t, b, jb);
      Optimal(a, b, t, ja, jb);
    }
  }

  // ---------- similarity ----------

  function Similarity<T(==)>(a: seq<T>, b: seq<T>): real {
    if a == [] && b == [] then 1.0
    else if a == [] || b == [] then 0.0
    else (2.0 * Length(a, b) as real) / ((|a| + |b|) as real)
  }

  method RepeatAdSimilarity<T(==)>(a: seq<T>, b: seq<T>) returns (r: real)
    ensures r == Similarity(a, b)
  {
    if |a| == 0 && |b| == 0 {
      return 1.0;
    }
    if |a| == 0 || |b| == 0 {
      return 0.0;
    }
    var lcs := LcsLength(a, b);
    r := (2.0 * lcs as real) / ((|a| + |b|) as real);
  }

  lemma {:induction false} LengthSymmetric<T>(a: seq<T>, b: seq<T>)
    ensures Length(a, b) == Length(b, a)
    decreases |a| + |b|
  {
    if a != [] && b != [] {
      var a', b' := a[..|a| - 1], b[..|b| - 1];
      LengthSymmetric(a', b');
      LengthSymmetric(a', b);
      LengthSymmetric(a, b');
    }
  }

  lemma {:induction false} EmbedsGrows<T>(s: seq<T>, a: seq<T>, at: seq<nat>, k: nat)
    requires Embeds(s, a, at) && k < |at|
    ensures k <= at[k]
  {
    if k > 0 {
      EmbedsGrows(s, a, at, k - 1);
      assert at[k - 1] < at[k];
    }
  }

  lemma {:induction false} EmbedsBelow<T>(s: seq<T>, a: seq<T>, at: seq<nat>, k: nat)
    requires Embeds(s, a, at) && k < |at|
    ensures at[k] + (|at| - k) <= |a|
    decreases |at| - k
  {
    if k + 1 < |at| {
      EmbedsBelow(s, a, at, k + 1);
      assert at[k] < at[k + 1];
    }
  }

  /** A subsequence is no longer than the list, and is the list when it is as long. */
  lemma {:induction false} SubsequenceLength<T>(s: seq<T>, a: seq<T>, at: seq<nat>)
    requires Embeds(s, a, at)
    ensures |s| <= |a|
    ensures |s| == |a| ==> s == a
  {
    if s != [] {
      EmbedsBelow(s, a, at, 0);
      EmbedsGrows(s, a, at, 0);
    }
    if |s| == |a| {
      forall k | 0 <= k < |s|
        ensures s[k] == a[k]
      {
        EmbedsGrows(s, a, at, k);
        EmbedsBelow(s, a, at, k);
        assert at[k] == k;
      }
    }
  }

  lemma {:induction false} LengthOfSame<T>(a: seq<T>)
    ensures Length(a, a) == |a|
  {
    if a != [] {
      LengthOfSame(a[..|a| - 1]);
    }
  }

  lemma {:induction false} QuotientTimes(p: real, d: real)
    requires 0.0 < d
    ensures (p / d) * d == p
  {
  }

  lemma {:induction false} ScaleStrict(x: real, y: real, d: real)
    requires x < y && 0.0 < d
    ensures x * d < y * d
  {
  }

  /** The sign of p - q * d decides how p / d compares with q. */
  lemma {:induction false} QuotientCompare(p: real, d: real, q: real)
    requires 0.0 < d
    ensures p / d < q <==> p < q * d
    ensures p / d == q <==> p == q * d
  {
    QuotientTimes(p, d);
    var r := p / d;
    if r < q {
      ScaleStrict(r, q, d);
    }
    if q < r {
      ScaleStrict(q, r, d);
    }
  }

  lemma {:induction false} RatioBounds(n: nat, x: nat, y: nat)
    requires n <= x && n <= y && 0 < x + y
    ensures 0.0 <= (2.0 * n as real) / ((x + y) as real) <= 1.0
    ensures (2.0 * n as real) / ((x + y) as real) == 1.0 <==> n == x && n == y
  {
    var p, d := 2.0 * n as real, (x + y) as real;
    QuotientCompare(p, d, 0.0);
    QuotientCompare(p, d, 1.0);
  }

  /** Similarity is symmetric, lies in [0, 1], and is 1 exactly for equal token lists. */
  lemma {:induction false} SimilarityLaws<T>(a: seq<T>, b: seq<T>)
    ensures Similarity(a, b) == Similarity(b, a)
    ensures 0.0 <= Similarity(a, b) <= 1.0
    ensures Similarity(a, b) == 1.0 <==> a == b
  {
    LengthSymmetric(a, b);
    if a != [] && b != [] {
      var s, ia, ib := Achievable(a, b);
      SubsequenceLength(s, a, ia);
      SubsequenceLength(s, b, ib);
      RatioBounds(Length(a, b), |a|, |b|);
      if a == b {
        LengthOfSame(a);
      }
    }
  }

  /** The score is twice the greatest length of a common subsequence over the sum of the lengths, for any list that is
      not empty beside one that is not; an empty list is like an empty one alone. */
  lemma {:induction false} SimilarityIs<T(!new)>(a: seq<T>, b: seq<T>, n: nat)
    requires IsLcsLength(a, b, n)
    ensures a != [] && b != [] ==> Similarity(a, b) * (|a| + |b|) as real == 2.0 * n as real
    ensures a == [] || b == [] ==> Similarity(a, b) == if a == b then 1.0 else 0.0
  {
    hide Length;
    LengthIsLcsLength(a, b);
    OneLcsLength(a, b, n, Length(a, b));
    if a != [] && b != [] {
      QuotientTimes(2.0 * n as real, (|a| + |b|) as real);
    }
  }

  lemma {:induction false} OneLcsLength<T(!new)>(a: seq<T>, b: seq<T>, n: nat, m: nat)
    requires IsLcsLength(a, b, n) && IsLcsLength(a, b, m)
    ensures n == m
  {
    hide Common;
    var s: seq<T> :| Common(s, a, b) && |s| == n;
    var t: seq<T> :| Common(t, a, b) && |t| == m;
  }
}
