/** The two array primitives the schedule code is built from: JavaScript's
    `Array.prototype.find` (first element satisfying a predicate, or
    nothing) and `Array.prototype.filter` (order-preserving selection). */
module Collections {

  datatype Option<+T> = None | Some(value: T)

  /** `s.find(f)`: the first element of `s` on which `f` holds (that it is
      the first is `FindIsHeadOfFilter`). */
  function Find<T>(s: seq<T>, f: T -> bool): (r: Option<T>)
    ensures r.None? <==> forall i :: 0 <= i < |s| ==> !f(s[i])
    ensures r.Some? ==> r.value in s && f(r.value)
  {
    if |s| == 0 then None
    else if f(s[0]) then Some(s[0])
    else
      assert forall i :: 1 <= i < |s| ==> s[i] == s[1..][i - 1];
      Find(s[1..], f)
  }

  /** `s.filter(f)`: the elements of `s` on which `f` holds, in their order. */
  function Filter<T>(s: seq<T>, f: T -> bool): (r: seq<T>)
    ensures |r| <= |s|
  {
    if |s| == 0 then []
    else if f(s[0]) then [s[0]] + Filter(s[1..], f) else Filter(s[1..], f)
  }

  /** Every element `filter` returns satisfies `f`. */
  lemma {:induction false} FilterSatisfies<T>(s: seq<T>, f: T -> bool)
    ensures forall i :: 0 <= i < |Filter(s, f)| ==> f(Filter(s, f)[i])
  {
    if |s| > 0 {
      FilterSatisfies(s[1..], f);
    }
  }

  /** `filter` returns a sub-multiset of its input. */
  lemma {:induction false} FilterSubMultiset<T>(s: seq<T>, f: T -> bool)
    ensures multiset(Filter(s, f)) <= multiset(s)
  {
    if |s| > 0 {
      FilterSubMultiset(s[1..], f);
      assert s == [s[0]] + s[1..];
    }
  }

  /** `filter` keeps every element on which `f` holds. */
  lemma {:induction false} FilterKeeps<T>(s: seq<T>, f: T -> bool)
    ensures forall i :: 0 <= i < |s| && f(s[i]) ==> s[i] in Filter(s, f)
  {
    if |s| > 0 {
      FilterKeeps(s[1..], f);
      assert forall i :: 1 <= i < |s| ==> s[i] == s[1..][i - 1];
    }
  }

  /** If every element that satisfies `f` is the same value `x`, then `find`
      returns `x` as soon as `f` holds anywhere, whatever the order. */
  lemma FindUnique<T>(s: seq<T>, f: T -> bool, x: T)
    requires x in s && f(x)
    requires forall i :: 0 <= i < |s| && f(s[i]) ==> s[i] == x
    ensures Find(s, f) == Some(x)
  {
    var i :| 0 <= i < |s| && s[i] == x;
  }

  /** `find` is the head of `filter`. */
  lemma {:induction false} FindIsHeadOfFilter<T>(s: seq<T>, f: T -> bool)
    ensures Find(s, f) == if Filter(s, f) == [] then None else Some(Filter(s, f)[0])
  {
    if |s| > 0 && !f(s[0]) {
      FindIsHeadOfFilter(s[1..], f);
    }
  }

  /** Filtering twice is filtering once with the conjunction `h`. */
  lemma {:induction false} FilterOfFilter<T>(s: seq<T>, f: T -> bool, g: T -> bool, h: T -> bool)
    requires forall x :: h(x) == (f(x) && g(x))
    ensures Filter(Filter(s, f), g) == Filter(s, h)
  {
    if |s| > 0 {
      FilterOfFilter(s[1..], f, g, h);
    }
  }

  /** Filtering with a predicate and with its negation splits `s` in two. */
  lemma {:induction false} FilterPartition<T>(s: seq<T>, f: T -> bool, g: T -> bool)
    requires forall x :: g(x) == !f(x)
    ensures |Filter(s, f)| + |Filter(s, g)| == |s|
  {
    if |s| > 0 {
      FilterPartition(s[1..], f, g);
    }
  }

  /** Filtering distributes over concatenation. */
  lemma {:induction false} FilterAppend<T>(a: seq<T>, b: seq<T>, f: T -> bool)
    ensures Filter(a + b, f) == Filter(a, f) + Filter(b, f)
  {
    if |a| > 0 {
      assert (a + b)[1..] == a[1..] + b;
      FilterAppend(a[1..], b, f);
    } else {
      assert a + b == b;
    }
  }

  /** Two pushes append a two-element sequence. Stated once, generically,
      because proving it at a concrete element type is costly. */
  lemma AppendTwo<T>(s: seq<T>, x: T, y: T)
    ensures s + [x] + [y] == s + ([x] + [y])
  {
  }

  /** Equal sequences extended by the same tail stay equal. */
  lemma SameExtension<T>(a: seq<T>, b: seq<T>, tail: seq<T>, a': seq<T>, b': seq<T>)
    requires a == b && a' == a + tail && b' == b + tail
    ensures a' == b'
  {
  }
}
