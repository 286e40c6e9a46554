/**
 * The array operations the application builds on: `filter` (keep, in order,
 * the elements a predicate accepts) and the `filter(...).length` counts of
 * the dashboard.
 */
module Lists {

  /** `s.filter(p)`: the elements of `s` that satisfy `p`, in their original order. */
  function Filter<T(==,!new)>(p: T -> bool, s: seq<T>): (r: seq<T>)
    ensures |r| <= |s|
    ensures forall x :: x in r <==> x in s && p(x)
  {
    if s == [] then []
    else if p(s[0]) then [s[0]] + Filter(p, s[1..])
    else Filter(p, s[1..])
  }

  /** `s.filter(p).length`. */
  function Count<T(==,!new)>(p: T -> bool, s: seq<T>): (n: nat)
    ensures n <= |s|
  {
    |Filter(p, s)|
  }

  /** `r` is obtained from `s` by deleting elements: the rest stay in their order. */
  predicate Subsequence<T(==,!new)>(r: seq<T>, s: seq<T>)
    decreases |s|
  {
    if r == [] then true
    else if s == [] then false
    else if r[0] == s[0] then Subsequence(r[1..], s[1..])
    else Subsequence(r, s[1..])
  }

  /** Filtering keeps every occurrence of an accepted element and no occurrence of a rejected one. */
  lemma {:induction false} FilterMultiplicity<T(!new)>(p: T -> bool, s: seq<T>, x: T)
    ensures multiset(Filter(p, s))[x] == if p(x) then multiset(s)[x] else 0
  {
    if s != [] {
      FilterMultiplicity(p, s[1..], x);
      assert s == [s[0]] + s[1..];
    }
  }

  /** Filtering with a predicate every element satisfies changes nothing. */
  lemma {:induction false} FilterKeepsAll<T(!new)>(p: T -> bool, s: seq<T>)
    requires forall x :: x in s ==> p(x)
    ensures Filter(p, s) == s
  {
    if s != [] {
      FilterKeepsAll(p, s[1..]);
    }
  }

  /** Filtering twice with the same predicate is filtering once. */
  lemma FilterIdempotent<T(!new)>(p: T -> bool, s: seq<T>)
    ensures Filter(p, Filter(p, s)) == Filter(p, s)
  {
    FilterKeepsAll(p, Filter(p, s));
  }

  /** Two predicates that agree on every element filter alike. */
  lemma {:induction false} FilterAgree<T(!new)>(p: T -> bool, q: T -> bool, s: seq<T>)
    requires forall x :: p(x) == q(x)
    ensures Filter(p, s) == Filter(q, s)
  {
    if s != [] {
      FilterAgree(p, q, s[1..]);
    }
  }

  /** The conjunction of two predicates. */
  function Both<T>(p: T -> bool, q: T -> bool): T -> bool {
    x => p(x) && q(x)
  }

  /** Filtering by `p` and then by `q` is filtering once by both. */
  lemma {:induction false} FilterThen<T(!new)>(p: T -> bool, q: T -> bool, s: seq<T>)
    ensures Filter(q, Filter(p, s)) == Filter(Both(p, q), s)
  {
    if s != [] {
      FilterThen(p, q, s[1..]);
    }
  }

  /** Filtering distributes over concatenation. */
  lemma {:induction false} FilterAppend<T(!new)>(p: T -> bool, a: seq<T>, b: seq<T>)
    ensures Filter(p, a + b) == Filter(p, a) + Filter(p, b)
  {
    if a == [] {
      assert a + b == b;
    } else {
      var ab := a + b;
      assert ab[0] == a[0] && ab[1..] == a[1..] + b;
      FilterAppend(p, a[1..], b);
      if p(a[0]) {
        calc {
          Filter(p, ab);
          [a[0]] + Filter(p, a[1..] + b);
          [a[0]] + (Filter(p, a[1..]) + Filter(p, b));
          ([a[0]] + Filter(p, a[1..])) + Filter(p, b);
        }
      }
    }
  }

  /** What `filter` returns is a subsequence of its input: kept elements keep their order. */
  lemma {:induction false} FilterSubsequence<T(!new)>(p: T -> bool, s: seq<T>)
    ensures Subsequence(Filter(p, s), s)
  {
    if s != [] {
      FilterSubsequence(p, s[1..]);
      if p(s[0]) {
        assert Filter(p, s)[1..] == Filter(p, s[1..]);
      } else {
        SubsequencePrepend(Filter(p, s[1..]), s[1..], s[0]);
        assert [s[0]] + s[1..] == s;
      }
    }
  }

  /** A subsequence of `s` is a subsequence of `s` with one more element in front. */
  lemma {:induction false} SubsequencePrepend<T(!new)>(r: seq<T>, s: seq<T>, x: T)
    requires Subsequence(r, s)
    ensures Subsequence(r, [x] + s)
    decreases |s|, 1
  {
    if r != [] && r[0] == x {
      SubsequenceDropFirst(r, s);
      assert ([x] + s)[1..] == s;
    } else if r != [] {
      assert ([x] + s)[1..] == s;
    }
  }

  /** Dropping the first element of a subsequence leaves a subsequence. */
  lemma {:induction false} SubsequenceDropFirst<T(!new)>(r: seq<T>, s: seq<T>)
    requires r != [] && Subsequence(r, s)
    ensures Subsequence(r[1..], s)
    decreases |s|, 0
  {
    assert s != [];
    if r[0] == s[0] {
      SubsequencePrepend(r[1..], s[1..], s[0]);
    } else {
      SubsequenceDropFirst(r, s[1..]);
      SubsequencePrepend(r[1..], s[1..], s[0]);
    }
    assert [s[0]] + s[1..] == s;
  }

  /** Counting over a concatenation adds the counts. */
  lemma CountAppend<T(!new)>(p: T -> bool, a: seq<T>, b: seq<T>)
    ensures Count(p, a + b) == Count(p, a) + Count(p, b)
  {
    FilterAppend(p, a, b);
  }

  /** An element that satisfies a stronger predicate is counted by the weaker one too. */
  lemma {:induction false} CountMonotone<T(!new)>(p: T -> bool, q: T -> bool, s: seq<T>)
    requires forall x :: p(x) ==> q(x)
    ensures Count(p, s) <= Count(q, s)
  {
    if s != [] {
      CountMonotone(p, q, s[1..]);
    }
  }

  /**
   * When every element satisfies exactly one of three predicates, the three
   * counts add up to the length.
   */
  lemma {:induction false} CountPartition3<T(!new)>(p: T -> bool, q: T -> bool, r: T -> bool, s: seq<T>)
    requires forall x :: (p(x) && !q(x) && !r(x)) || (!p(x) && q(x) && !r(x)) || (!p(x) && !q(x) && r(x))
    ensures Count(p, s) + Count(q, s) + Count(r, s) == |s|
  {
    if s != [] {
      CountPartition3(p, q, r, s[1..]);
    }
  }

  /** The negation of a predicate. */
  function Not<T>(p: T -> bool): T -> bool {
    x => !p(x)
  }

  /** Every element is counted either by `p` or by its negation. */
  lemma {:induction false} CountComplement<T(!new)>(p: T -> bool, s: seq<T>)
    ensures Count(p, s) + Count(Not(p), s) == |s|
  {
    if s != [] {
      CountComplement(p, s[1..]);
    }
  }

  /** `s.map(x => p(x) ? f(x) : x)`: the elements `p` picks are replaced by their image under `f`. */
  function Replace<T>(p: T -> bool, f: T -> T, s: seq<T>): (r: seq<T>)
    ensures |r| == |s|
    ensures forall i :: 0 <= i < |s| ==> r[i] == if p(s[i]) then f(s[i]) else s[i]
  {
    if s == [] then []
    else [if p(s[0]) then f(s[0]) else s[0]] + Replace(p, f, s[1..])
  }

  /** When `p` picks nothing, or `f` fixes everything `p` picks, replacing changes nothing. */
  lemma ReplaceUnchanged<T>(p: T -> bool, f: T -> T, s: seq<T>)
    requires forall i :: 0 <= i < |s| && p(s[i]) ==> f(s[i]) == s[i]
    ensures Replace(p, f, s) == s
  {
  }

  /**
   * Replacing twice is replacing once when an element `f` produces is either
   * not picked again or is a fixed point of `f`.
   */
  lemma ReplaceIdempotent<T>(p: T -> bool, f: T -> T, s: seq<T>)
    requires forall x :: p(x) && p(f(x)) ==> f(f(x)) == f(x)
    ensures Replace(p, f, Replace(p, f, s)) == Replace(p, f, s)
  {
  }
}
