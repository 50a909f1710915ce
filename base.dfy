/** Generic sequence helpers shared by the bill tables and the dashboard:
    the Option wrapper, JavaScript's Array.prototype.filter, the index find
    stops at, a
    numeric reduce, and the subsequence relation used to state that a filter
    preserves order. */
module Base {

  datatype Option<T> = None | Some(value: T)

  /** The outcome of a call to the bill store: a value or an error message. */
  datatype Result<T> = Success(value: T) | Failure(error: string)

  /** r can be obtained from s by deleting elements, keeping the order of the rest. */
  predicate IsSubsequence<T(==)>(r: seq<T>, s: seq<T>)
    decreases |s|
  {
    if |r| == 0 then true
    else if |s| == 0 then false
    else (r[0] == s[0] && IsSubsequence(r[1..], s[1..])) || IsSubsequence(r, s[1..])
  }

  /** Array.prototype.filter: the elements of s satisfying p, in order. */
  function Filter<T(==)>(s: seq<T>, p: T -> bool): (r: seq<T>)
    ensures |r| <= |s|
    ensures forall i :: 0 <= i < |r| ==> p(r[i]) && r[i] in s
    ensures forall i :: 0 <= i < |s| && p(s[i]) ==> s[i] in r
    ensures IsSubsequence(r, s)
  {
    if |s| == 0 then []
    else if p(s[0]) then [s[0]] + Filter(s[1..], p)
    else Filter(s[1..], p)
  }

  /** Filter keeps every copy of an element it keeps: each element of s
      occurs in the result as often as in s when p holds of it, else never. */
  lemma {:induction false} FilterCounts<T>(s: seq<T>, p: T -> bool)
    ensures forall i :: 0 <= i < |s| ==>
              multiset(Filter(s, p))[s[i]] == if p(s[i]) then multiset(s)[s[i]] else 0
  {
    if |s| > 0 {
      FilterCounts(s[1..], p);
      assert s == [s[0]] + s[1..];
      forall i | 0 <= i < |s|
        ensures multiset(Filter(s, p))[s[i]] == if p(s[i]) then multiset(s)[s[i]] else 0
      {
        var x := s[i];
        if x !in s[1..] {
          assert multiset(s[1..])[x] == 0;
          assert x !in Filter(s[1..], p);
        } else {
          var k :| 0 <= k < |s[1..]| && s[1..][k] == x;
        }
      }
    }
  }

  /** The index Array.prototype.find stops at: the first element satisfying p. */
  function FirstMatch<T>(s: seq<T>, p: T -> bool): (r: Option<nat>)
    ensures r.Some? ==> r.value < |s| && p(s[r.value])
    ensures r.Some? ==> forall j :: 0 <= j < r.value ==> !p(s[j])
    ensures r.None? ==> forall j :: 0 <= j < |s| ==> !p(s[j])
  {
    if |s| == 0 then None
    else if p(s[0]) then Some(0)
    else match FirstMatch(s[1..], p)
      case None => None
      case Some(k) => Some(k + 1)
  }

  /** s.reduce((sum, x) => sum + f(x), 0). */
  function Sum<T>(s: seq<T>, f: T -> int): int
  {
    if |s| == 0 then 0 else f(s[0]) + Sum(s[1..], f)
  }

  /** A sum of |s| terms that all lie in [lo, hi] lies in [|s| * lo, |s| * hi]. */
  lemma {:induction false} SumBounds<T>(s: seq<T>, f: T -> int, lo: int, hi: int)
    requires forall i :: 0 <= i < |s| ==> lo <= f(s[i]) <= hi
    ensures |s| * lo <= Sum(s, f) <= |s| * hi
  {
    if |s| > 0 {
      SumBounds(s[1..], f, lo, hi);
    }
  }

  /** Dropping elements whose term is zero does not change a sum. */
  lemma {:induction false} SumOfFilterNonZero<T>(s: seq<T>, f: T -> int, p: T -> bool)
    requires forall i :: 0 <= i < |s| && !p(s[i]) ==> f(s[i]) == 0
    ensures Sum(Filter(s, p), f) == Sum(s, f)
  {
    if |s| > 0 {
      SumOfFilterNonZero(s[1..], f, p);
      if p(s[0]) {
        assert Filter(s, p) == [s[0]] + Filter(s[1..], p);
        assert ([s[0]] + Filter(s[1..], p))[1..] == Filter(s[1..], p);
      }
    }
  }

  /** total / count, or 0 for a count of 0. */
  function Average(total: int, count: nat): (r: real)
    ensures count > 0 ==> r * count as real == total as real
    ensures count == 0 ==> r == 0.0
  {
    if count > 0 then total as real / count as real else 0.0
  }

  /** A quotient of a total bounded by count * lo and count * hi. */
  lemma QuotientBetween(total: int, count: nat, lo: int, hi: int)
    requires count > 0 && count * lo <= total <= count * hi
    ensures lo as real <= Average(total, count) <= hi as real
  {
    var n := count as real;
    assert (total - count * lo) as real / n >= 0.0;
    assert (count * hi - total) as real / n >= 0.0;
    assert (total - count * lo) as real / n == total as real / n - lo as real;
    assert (count * hi - total) as real / n == hi as real - total as real / n;
  }

  /** The average lies between the smallest and the largest term. */
  lemma AverageBetween<T>(s: seq<T>, f: T -> int, lo: int, hi: int)
    requires |s| > 0
    requires forall i :: 0 <= i < |s| ==> lo <= f(s[i]) <= hi
    ensures lo as real <= Average(Sum(s, f), |s|) <= hi as real
  {
    SumBounds(s, f, lo, hi);
    QuotientBetween(Sum(s, f), |s|, lo, hi);
  }
}
