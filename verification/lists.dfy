/** Lists of rows: keeping the rows a test accepts (`Array.prototype.filter`, a `WHERE`
    clause), and sorting by a total preorder, as `Array.prototype.sort` does with a
    comparator that is consistent on distinct keys. Insertion sort is the reference
    algorithm; only its result matters: the same elements, in order. */
module Lists {

  /** The elements of `s` that satisfy `keep`, in their order */
  function Select<T(==,!new)>(s: seq<T>, keep: T -> bool): (r: seq<T>)
    ensures |r| <= |s|
    ensures forall i :: 0 <= i < |r| ==> keep(r[i])
    ensures forall x :: multiset(r)[x] == if keep(x) then multiset(s)[x] else 0
  {
    if |s| == 0 then []
    else
      assert s == [s[0]] + s[1..];
      (if keep(s[0]) then [s[0]] else []) + Select(s[1..], keep)
  }

  /** Selecting from a list every element of which passes keeps the list. */
  lemma {:induction false} SelectAll<T(!new)>(s: seq<T>, keep: T -> bool)
    requires forall i :: 0 <= i < |s| ==> keep(s[i])
    ensures Select(s, keep) == s
  {
    if |s| > 0 {
      SelectAll(s[1..], keep);
    }
  }

  lemma {:induction false} SelectAppend<T(!new)>(a: seq<T>, b: seq<T>, keep: T -> bool)
    ensures Select(a + b, keep) == Select(a, keep) + Select(b, keep)
  {
    if |a| == 0 {
      assert a + b == b;
    } else {
      var head := if keep(a[0]) then [a[0]] else [];
      assert (a + b)[0] == a[0];
      assert (a + b)[1..] == a[1..] + b;
      assert Select(a + b, keep) == head + Select(a[1..] + b, keep);
      SelectAppend(a[1..], b, keep);
      assert Select(a, keep) == head + Select(a[1..], keep);
      ConcatAssoc(head, Select(a[1..], keep), Select(b, keep));
    }
  }

  lemma ConcatAssoc<T>(x: seq<T>, y: seq<T>, z: seq<T>)
    ensures x + (y + z) == (x + y) + z
  {
  }

  /** `le` is total and transitive */
  ghost predicate TotalPreorder<T(!new)>(le: (T, T) -> bool) {
    && (forall a, b :: le(a, b) || le(b, a))
    && (forall a, b, c :: le(a, b) && le(b, c) ==> le(a, c))
  }

  /** Every element is `le` every later one */
  predicate SortedBy<T>(s: seq<T>, le: (T, T) -> bool) {
    forall i, j :: 0 <= i < j < |s| ==> le(s[i], s[j])
  }

  /** `x` placed into the sorted `s` in front of the first element it is `le` */
  function Insert<T(!new)>(x: T, s: seq<T>, le: (T, T) -> bool): (r: seq<T>)
    requires TotalPreorder(le)
    requires SortedBy(s, le)
    ensures multiset(r) == multiset(s) + multiset{x}
    ensures SortedBy(r, le)
  {
    if |s| == 0 then [x]
    else if le(x, s[0]) then
      assert forall j :: 0 <= j < |s| ==> le(x, s[j]);
      [x] + s
    else
      var rest := Insert(x, s[1..], le);
      assert s == [s[0]] + s[1..];
      BoundKept(s[0], x, s[1..], rest, le);
      SortedCons(s[0], rest, le);
      [s[0]] + rest
  }

  /** A lower bound of `s` and of `x` is a lower bound of any rearrangement of `s` with `x`. */
  lemma BoundKept<T(!new)>(lo: T, x: T, s: seq<T>, r: seq<T>, le: (T, T) -> bool)
    requires le(lo, x)
    requires forall j :: 0 <= j < |s| ==> le(lo, s[j])
    requires multiset(r) == multiset(s) + multiset{x}
    ensures forall j :: 0 <= j < |r| ==> le(lo, r[j])
  {
    forall j | 0 <= j < |r| ensures le(lo, r[j]) {
      assert r[j] in multiset(r);
      if r[j] != x {
        assert r[j] in multiset(s);
        var k :| 0 <= k < |s| && s[k] == r[j];
      }
    }
  }

  /** A sorted list stays sorted with a lower bound in front. */
  lemma SortedCons<T>(lo: T, s: seq<T>, le: (T, T) -> bool)
    requires SortedBy(s, le)
    requires forall j :: 0 <= j < |s| ==> le(lo, s[j])
    ensures SortedBy([lo] + s, le)
  {
    forall i, j | 0 <= i < j < |[lo] + s| ensures le(([lo] + s)[i], ([lo] + s)[j]) {
      if i > 0 {
        assert ([lo] + s)[i] == s[i - 1];
      }
      assert ([lo] + s)[j] == s[j - 1];
    }
  }

  /** Insertion sort: a sorted permutation of `s` */
  function Sort<T(!new)>(s: seq<T>, le: (T, T) -> bool): (r: seq<T>)
    requires TotalPreorder(le)
    ensures multiset(r) == multiset(s)
    ensures SortedBy(r, le)
    ensures |r| == |s|
  {
    if |s| == 0 then []
    else
      assert s == [s[0]] + s[1..];
      Insert(s[0], Sort(s[1..], le), le)
  }
}
