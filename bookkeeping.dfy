/** Index bookkeeping shared by the hard-edge splitter and the cylindrical
    generator: counting marked indices, duplicating marked elements in place,
    and listing the unmarked ones. A set of marked indices is a sequence, as
    the source keeps it in a List<int> and asks Contains. */
module Bookkeeping {

  predicate StrictlyIncreasing(d: seq<int>) {
    forall i, j :: 0 <= i < j < |d| ==> d[i] < d[j]
  }

  predicate Within(d: seq<int>, lo: int, hi: int) {
    forall i :: 0 <= i < |d| ==> lo <= d[i] < hi
  }

  /** Appending k, or nothing, to a sorted list below k keeps it sorted, and
      the list then holds k exactly when it was appended. */
  lemma AppendAbove(d: seq<int>, k: int, b: bool)
    requires k >= 0 && StrictlyIncreasing(d) && Within(d, 0, k)
    ensures var t := d + (if b then [k] else []);
      StrictlyIncreasing(t) && Within(t, 0, k + 1) && (k in t <==> b) &&
      forall i :: i in t && i != k ==> i in d
  {
    var t := d + (if b then [k] else []);
    assert forall i :: 0 <= i < |d| ==> t[i] == d[i];
    if b {
      assert t[|d|] == k;
    } else {
      assert t == d;
    }
  }

  /** A sorted index list that holds 0 starts with it. */
  lemma ZeroFirst(d: seq<int>, n: int)
    requires StrictlyIncreasing(d) && Within(d, 0, n) && 0 in d
    ensures d[0] == 0
  {
    var j :| 0 <= j < |d| && d[j] == 0;
    assert d[0] >= 0;
  }

  /** Putting 0 in front of a sorted list of positive indices keeps it
      sorted and adds no other index. */
  lemma PrependZero(d: seq<int>, n: int)
    requires StrictlyIncreasing(d) && Within(d, 0, n) && 0 !in d && n > 0
    ensures StrictlyIncreasing([0] + d) && Within([0] + d, 0, n)
    ensures forall i :: i != 0 ==> (i in [0] + d <==> i in d)
  {
    assert forall j :: 0 <= j < |d| ==> d[j] > 0;
    assert forall j :: 0 < j < |d| + 1 ==> ([0] + d)[j] == d[j - 1];
  }

  /** How many of the indices lo, lo+1, ..., hi-1 are marked in d. */
  function CountIn(d: seq<int>, lo: int, hi: int): nat
    decreases hi - lo
  {
    if lo >= hi then 0 else (if lo in d then 1 else 0) + CountIn(d, lo + 1, hi)
  }

  lemma {:induction false} CountInSplit(d: seq<int>, lo: int, mid: int, hi: int)
    requires lo <= mid <= hi
    ensures CountIn(d, lo, hi) == CountIn(d, lo, mid) + CountIn(d, mid, hi)
    decreases mid - lo
  {
    if lo < mid {
      CountInSplit(d, lo + 1, mid, hi);
    }
  }

  /** Counting up to hi + 1 adds one exactly when hi is marked. */
  lemma CountInStep(d: seq<int>, lo: int, hi: int)
    requires lo <= hi
    ensures CountIn(d, lo, hi + 1) == CountIn(d, lo, hi) + (if hi in d then 1 else 0)
  {
    CountInSplit(d, lo, hi, hi + 1);
  }

  /** The count only depends on which indices of the range are marked. */
  lemma {:induction false} CountInCongruent(d: seq<int>, e: seq<int>, lo: int, hi: int)
    requires forall k :: lo <= k < hi ==> (k in d <==> k in e)
    ensures CountIn(d, lo, hi) == CountIn(e, lo, hi)
    decreases hi - lo
  {
    if lo < hi {
      CountInCongruent(d, e, lo + 1, hi);
    }
  }

  lemma CountInAtMost(d: seq<int>, lo: int, hi: int)
    requires lo <= hi
    ensures CountIn(d, lo, hi) <= hi - lo
    decreases hi - lo
  {
  }

  /** A strictly increasing list of indices inside [lo, hi) marks exactly
      its own length of them. */
  lemma {:induction false} CountInAll(d: seq<int>, lo: int, hi: int)
    requires StrictlyIncreasing(d) && Within(d, lo, hi)
    ensures CountIn(d, lo, hi) == |d|
    decreases hi - lo
  {
    if |d| == 0 {
      CountInNone(d, lo, hi);
    } else if d[0] == lo {
      var rest := d[1..];
      assert StrictlyIncreasing(rest);
      assert Within(rest, lo + 1, hi) by {
        forall i | 0 <= i < |rest| ensures lo + 1 <= rest[i] < hi {
          assert rest[i] == d[i + 1] && d[0] < d[i + 1];
        }
      }
      forall k | lo + 1 <= k < hi ensures k in d <==> k in rest {
        if k in d {
          var j :| 0 <= j < |d| && d[j] == k;
          assert j != 0;
          assert rest[j - 1] == k;
        }
      }
      CountInCongruent(d, rest, lo + 1, hi);
      CountInAll(rest, lo + 1, hi);
    } else {
      assert forall j :: 0 <= j < |d| ==> d[0] <= d[j];
      assert lo !in d;
      assert Within(d, lo + 1, hi) by {
        forall i | 0 <= i < |d| ensures lo + 1 <= d[i] < hi {
          assert d[0] <= d[i];
        }
      }
      CountInAll(d, lo + 1, hi);
    }
  }

  /** Nothing marked in the range counts zero. */
  lemma {:induction false} CountInNone(d: seq<int>, lo: int, hi: int)
    requires forall k :: lo <= k < hi ==> k !in d
    ensures CountIn(d, lo, hi) == 0
    decreases hi - lo
  {
    if lo < hi {
      CountInNone(d, lo + 1, hi);
    }
  }

  /** In a strictly increasing list of non-negative indices, exactly j marked
      indices lie below d[j]. */
  lemma CountBelowNth(d: seq<int>, j: int)
    requires StrictlyIncreasing(d) && 0 <= j < |d|
    requires forall i :: 0 <= i < |d| ==> 0 <= d[i]
    ensures CountIn(d, 0, d[j]) == j
  {
    var front := d[..j];
    forall k | 0 <= k < d[j] ensures k in d <==> k in front {
      if k in d {
        var i :| 0 <= i < |d| && d[i] == k;
        assert i < j;
        assert front[i] == k;
      }
    }
    CountInCongruent(d, front, 0, d[j]);
    assert Within(front, 0, d[j]) by {
      forall i | 0 <= i < |front| ensures 0 <= front[i] < d[j] {
        assert front[i] == d[i];
      }
    }
    CountInAll(front, 0, d[j]);
  }

  /** s[lo..] with every marked element duplicated in place: a marked element
      is followed by a copy of itself, the others keep their order. */
  function ExpandFrom<T>(s: seq<T>, d: seq<int>, lo: nat): (r: seq<T>)
    requires lo <= |s|
    ensures |s| - lo <= |r| <= 2 * (|s| - lo)
    decreases |s| - lo
  {
    if lo == |s| then []
    else (if lo in d then [s[lo], s[lo]] else [s[lo]]) + ExpandFrom(s, d, lo + 1)
  }

  function Expand<T>(s: seq<T>, d: seq<int>): seq<T> {
    ExpandFrom(s, d, 0)
  }

  /** Each marked element adds one entry. */
  lemma {:induction false} ExpandFromLength<T>(s: seq<T>, d: seq<int>, lo: nat)
    requires lo <= |s|
    ensures |ExpandFrom(s, d, lo)| == |s| - lo + CountIn(d, lo, |s|)
    decreases |s| - lo
  {
    if lo < |s| {
      ExpandFromLength(s, d, lo + 1);
    }
  }

  /** Element k of s lands at k - lo plus the number of marked indices before
      it; a marked element's copy comes right after it. */
  lemma {:induction false} ExpandFromAt<T>(s: seq<T>, d: seq<int>, lo: nat, k: int)
    requires lo <= k < |s|
    ensures k - lo + CountIn(d, lo, k) < |ExpandFrom(s, d, lo)|
    ensures ExpandFrom(s, d, lo)[k - lo + CountIn(d, lo, k)] == s[k]
    ensures k in d ==>
              k - lo + CountIn(d, lo, k) + 1 < |ExpandFrom(s, d, lo)| &&
              ExpandFrom(s, d, lo)[k - lo + CountIn(d, lo, k) + 1] == s[k]
    decreases k - lo
  {
    if lo < k {
      ExpandFromAt(s, d, lo + 1, k);
    }
    ExpandFromLength(s, d, lo + 1);
  }

  /** Expansion only depends on which indices of the range are marked. */
  lemma {:induction false} ExpandFromCongruent<T>(s: seq<T>, d: seq<int>, e: seq<int>, lo: nat)
    requires lo <= |s|
    requires forall k :: lo <= k < |s| ==> (k in d <==> k in e)
    ensures ExpandFrom(s, d, lo) == ExpandFrom(s, e, lo)
    decreases |s| - lo
  {
    if lo < |s| {
      ExpandFromCongruent(s, d, e, lo + 1);
    }
  }

  /** With nothing marked the expansion is the suffix itself. */
  lemma {:induction false} ExpandFromNothing<T>(s: seq<T>, d: seq<int>, lo: nat)
    requires lo <= |s|
    requires forall k :: lo <= k < |s| ==> k !in d
    ensures ExpandFrom(s, d, lo) == s[lo..]
    decreases |s| - lo
  {
    if lo < |s| {
      ExpandFromNothing(s, d, lo + 1);
      assert s[lo..] == [s[lo]] + s[lo + 1..];
    }
  }

  /** Marking index 0 as well only duplicates the first element. */
  lemma ExpandMarkFirst<T>(s: seq<T>, d: seq<int>)
    requires |s| > 0 && 0 !in d
    ensures Expand(s, [0] + d) == [s[0]] + Expand(s, d)
  {
    ExpandFromCongruent(s, [0] + d, d, 1);
  }

  /** Expansion keeps the first element in front. */
  lemma ExpandFirst<T>(s: seq<T>, d: seq<int>)
    requires |s| > 0
    ensures |Expand(s, d)| > 0 && Expand(s, d)[0] == s[0]
  {
  }

  /** Duplicating a strictly increasing list of in-range indices adds exactly
      as many elements as there are indices, and the j-th marked element
      (index d[j]) sits at d[j] + j followed by its copy. */
  lemma ExpandSorted<T>(s: seq<T>, d: seq<int>)
    requires StrictlyIncreasing(d) && Within(d, 0, |s|)
    ensures |Expand(s, d)| == |s| + |d|
    ensures forall j :: 0 <= j < |d| ==>
              d[j] + j + 1 < |Expand(s, d)| &&
              Expand(s, d)[d[j] + j] == s[d[j]] && Expand(s, d)[d[j] + j + 1] == s[d[j]]
  {
    ExpandFromLength(s, d, 0);
    CountInAll(d, 0, |s|);
    forall j | 0 <= j < |d|
      ensures d[j] + j + 1 < |Expand(s, d)|
      ensures Expand(s, d)[d[j] + j] == s[d[j]] && Expand(s, d)[d[j] + j + 1] == s[d[j]]
    {
      CountBelowNth(d, j);
      assert d[j] in d;
      ExpandFromAt(s, d, 0, d[j]);
    }
  }

  /** The indices below c that are not marked, in increasing order. */
  function Kept(d: seq<int>, c: nat): (r: seq<int>)
    ensures |r| <= c
  {
    if c == 0 then [] else Kept(d, c - 1) + (if c - 1 in d then [] else [c - 1])
  }

  lemma {:induction false} KeptLength(d: seq<int>, c: nat)
    ensures |Kept(d, c)| == c - CountIn(d, 0, c)
  {
    if c > 0 {
      KeptLength(d, c - 1);
      CountInStep(d, 0, c - 1);
    }
  }

  /** Kept(d, a) is a prefix of Kept(d, b) for a <= b. */
  lemma {:induction false} KeptPrefix(d: seq<int>, a: nat, b: nat)
    requires a <= b
    ensures |Kept(d, a)| <= |Kept(d, b)| && Kept(d, b)[..|Kept(d, a)|] == Kept(d, a)
    decreases b - a
  {
    if a < b {
      KeptPrefix(d, a, b - 1);
    }
  }

  /** An unmarked index c sits in Kept right after the unmarked ones below it. */
  lemma KeptAt(d: seq<int>, c: nat, n: nat)
    requires c < n && c !in d
    ensures |Kept(d, c)| < |Kept(d, n)| && Kept(d, n)[|Kept(d, c)|] == c
  {
    KeptPrefix(d, c + 1, n);
    assert Kept(d, c + 1) == Kept(d, c) + [c];
  }

  /** One more index below c: an unmarked one is the next entry of Kept. */
  lemma KeptStep(d: seq<int>, x: nat, c: nat)
    requires x < c
    ensures |Kept(d, x + 1)| <= |Kept(d, c)|
    ensures x in d ==> |Kept(d, x + 1)| == |Kept(d, x)|
    ensures x !in d ==> |Kept(d, x + 1)| == |Kept(d, x)| + 1 && Kept(d, c)[|Kept(d, x)|] == x
  {
    KeptPrefix(d, x + 1, c);
    if x !in d {
      KeptAt(d, x, c);
    }
  }

  /** Kept lists exactly the unmarked indices below c, in increasing order. */
  lemma {:induction false} KeptSpec(d: seq<int>, c: nat)
    ensures StrictlyIncreasing(Kept(d, c)) && Within(Kept(d, c), 0, c)
    ensures forall k :: 0 <= k < c ==> (k in Kept(d, c) <==> k !in d)
  {
    if c > 0 {
      KeptSpec(d, c - 1);
    }
  }

  /** Where the marked indices land after expansion: d[j] + j. */
  function Shifted(d: seq<int>): (r: seq<int>)
    ensures |r| == |d|
  {
    seq(|d|, j requires 0 <= j < |d| => d[j] + j)
  }

  /** After expansion, the shifted marks are sorted and each is the first of
      two copies of its element; the entries they leave unmarked are as many
      as s has. */
  lemma ShiftedLayout<T>(s: seq<T>, d: seq<int>)
    requires StrictlyIncreasing(d) && Within(d, 0, |s|)
    ensures var x, t := Expand(s, d), Shifted(d);
      |x| == |s| + |d| &&
      StrictlyIncreasing(t) && Within(t, 0, |x| - 1) &&
      (forall j :: 0 <= j < |t| ==>
         0 <= d[j] < |s| && 0 <= t[j] && t[j] + 1 < |x| && x[t[j]] == s[d[j]] && x[t[j] + 1] == s[d[j]]) &&
      |Kept(t, |x|)| == |s| &&
      forall k :: 0 <= k < |x| ==> (k in Kept(t, |x|) <==> k !in t)
  {
    var x, t := Expand(s, d), Shifted(d);
    ExpandSorted(s, d);
    ShiftedSorted(d, |s|);
    KeptComplement(t, |x|);
  }

  /** Shifting a sorted list below n by position keeps it sorted, below
      n + |d| - 1. */
  lemma ShiftedSorted(d: seq<int>, n: int)
    requires StrictlyIncreasing(d) && Within(d, 0, n)
    ensures StrictlyIncreasing(Shifted(d)) && Within(Shifted(d), 0, n + |d| - 1)
  {
    var t := Shifted(d);
    forall i, j | 0 <= i < j < |t| ensures t[i] < t[j] {
      assert d[i] < d[j];
    }
  }

  /** The indices below c that a sorted list leaves unmarked: as many as c
      less its length, and exactly the ones it does not hold. */
  lemma KeptComplement(d: seq<int>, c: nat)
    requires StrictlyIncreasing(d) && Within(d, 0, c)
    ensures |Kept(d, c)| == c - |d|
    ensures forall k :: 0 <= k < c ==> (k in Kept(d, c) <==> k !in d)
  {
    KeptLength(d, c);
    CountInAll(d, 0, c);
    KeptSpec(d, c);
  }

  // ---------------------------------------------------------------------------
  // Index arithmetic

  lemma MulAtLeast(n: int, t: int)
    requires n > 0 && t >= 1
    ensures n * t >= n
  {
    if t > 1 {
      MulAtLeast(n, t - 1);
      assert n * t == n * (t - 1) + n;
    }
  }

  lemma MulDist(n: int, a: int, b: int)
    ensures n * (a - b) == n * a - n * b
  {
  }

  lemma MulMono(a: int, b: int, w: int)
    requires 0 <= a <= b && 0 <= w
    ensures a * w <= b * w
  {
    MulDist(w, b, a);
    assert (b - a) * w >= 0;
  }

  /** Euclidean division of q * n + r by n recovers q and r. */
  lemma DivMod(q: int, r: int, n: int)
    requires n > 0 && 0 <= r < n
    ensures (q * n + r) / n == q && (q * n + r) % n == r
  {
    var a := q * n + r;
    var q' := a / n;
    var r' := a % n;
    assert a == n * q' + r';
    MulDist(n, q, q');
    assert n * (q - q') == r' - r;
    if q > q' {
      MulAtLeast(n, q - q');
    } else if q < q' {
      MulAtLeast(n, q' - q);
      MulDist(n, q', q);
    }
  }
}
