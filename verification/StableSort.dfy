/** A stable sort by a total preorder. The repository calls its languages' library sorts; this is
    the function those calls compute, with what the callers need to know about it. */
module StableSort {

  ghost predicate TotalPreorder<T(!new)>(leq: (T, T) -> bool) {
    && (forall x, y :: leq(x, y) || leq(y, x))
    && (forall x, y, z :: leq(x, y) && leq(y, z) ==> leq(x, z))
  }

  ghost predicate Sorted<T>(leq: (T, T) -> bool, s: seq<T>) {
    forall i, j :: 0 <= i < j < |s| ==> leq(s[i], s[j])
  }

  function Insert<T>(leq: (T, T) -> bool, x: T, s: seq<T>): (r: seq<T>)
    ensures |r| == |s| + 1
  {
    if s == [] || leq(x, s[0]) then [x] + s else [s[0]] + Insert(leq, x, s[1..])
  }

  /** Equal elements keep their input order, because each one goes in front of its equals that came
      after it. */
  function Sort<T>(leq: (T, T) -> bool, s: seq<T>): (r: seq<T>)
    ensures |r| == |s|
  {
    if s == [] then [] else Insert(leq, s[0], Sort(leq, s[1..]))
  }

  function Filter<T>(p: T -> bool, s: seq<T>): (r: seq<T>)
    ensures |r| <= |s|
  {
    if s == [] then []
    else if p(s[0]) then [s[0]] + Filter(p, s[1..])
    else Filter(p, s[1..])
  }

  lemma {:induction false} InsertMultiset<T>(leq: (T, T) -> bool, x: T, s: seq<T>)
    ensures multiset(Insert(leq, x, s)) == multiset{x} + multiset(s)
  {
    if s == [] || leq(x, s[0]) {
    } else {
      assert s == [s[0]] + s[1..];
      InsertMultiset(leq, x, s[1..]);
    }
  }

  lemma {:induction false} SortMultiset<T>(leq: (T, T) -> bool, s: seq<T>)
    ensures multiset(Sort(leq, s)) == multiset(s)
  {
    if s != [] {
      assert s == [s[0]] + s[1..];
      SortMultiset(leq, s[1..]);
      InsertMultiset(leq, s[0], Sort(leq, s[1..]));
    }
  }

  lemma InSort<T(!new)>(leq: (T, T) -> bool, s: seq<T>)
    ensures forall x :: x in Sort(leq, s) <==> x in s
  {
    SortMultiset(leq, s);
    assert forall x :: x in Sort(leq, s) <==> x in multiset(Sort(leq, s));
  }

  lemma {:induction false} InFilter<T(!new)>(p: T -> bool, s: seq<T>)
    ensures forall x :: x in Filter(p, s) <==> x in s && p(x)
  {
    if s != [] {
      InFilter(p, s[1..]);
    }
  }

  lemma {:induction false} InsertSorted<T(!new)>(leq: (T, T) -> bool, x: T, s: seq<T>)
    requires TotalPreorder(leq) && Sorted(leq, s)
    ensures Sorted(leq, Insert(leq, x, s))
  {
    if s == [] || leq(x, s[0]) {
    } else {
      InsertSorted(leq, x, s[1..]);
      InsertMultiset(leq, x, s[1..]);
      var r := Insert(leq, x, s[1..]);
      forall y | y in r ensures leq(s[0], y) {
        assert y in multiset(r);
        assert y == x || y in s[1..];
      }
    }
  }

  lemma {:induction false} SortSorted<T(!new)>(leq: (T, T) -> bool, s: seq<T>)
    requires TotalPreorder(leq)
    ensures Sorted(leq, Sort(leq, s))
  {
    if s != [] {
      SortSorted(leq, s[1..]);
      InsertSorted(leq, s[0], Sort(leq, s[1..]));
    }
  }

  lemma {:induction false} SortKeepsSorted<T>(leq: (T, T) -> bool, s: seq<T>)
    requires Sorted(leq, s)
    ensures Sort(leq, s) == s
  {
    if s != [] {
      SortKeepsSorted(leq, s[1..]);
    }
  }

  lemma FilterCons<T>(p: T -> bool, x: T, s: seq<T>)
    ensures Filter(p, [x] + s) == if p(x) then [x] + Filter(p, s) else Filter(p, s)
  {
    assert ([x] + s)[1..] == s;
  }

  /** In a sorted list, what is not before one element is not before any later one. */
  ghost predicate Monotone<T>(leq: (T, T) -> bool, x: T, s: seq<T>) {
    forall i, j :: 0 <= i < j < |s| && leq(x, s[i]) ==> leq(x, s[j])
  }

  lemma {:induction false} FilterInsert<T(!new)>(leq: (T, T) -> bool, p: T -> bool, x: T, s: seq<T>)
    requires Monotone(leq, x, s)
    ensures Filter(p, Insert(leq, x, s)) == if p(x) then Insert(leq, x, Filter(p, s)) else Filter(p, s)
  {
    if s == [] {
    } else if leq(x, s[0]) {
      FilterCons(p, x, s);
      InFilter(p, s);
      assert Filter(p, s) != [] ==> Filter(p, s)[0] in s;
    } else {
      FilterInsert(leq, p, x, s[1..]);
      FilterCons(p, s[0], Insert(leq, x, s[1..]));
      if p(s[0]) {
        assert ([s[0]] + Filter(p, s[1..]))[1..] == Filter(p, s[1..]);
      }
    }
  }

  /** Sorting and then filtering is filtering and then sorting. */
  lemma {:induction false} FilterSort<T(!new)>(leq: (T, T) -> bool, p: T -> bool, s: seq<T>)
    requires TotalPreorder(leq)
    ensures Filter(p, Sort(leq, s)) == Sort(leq, Filter(p, s))
  {
    if s != [] {
      var rest := s[1..];
      FilterSort(leq, p, rest);
      SortSorted(leq, rest);
      FilterInsert(leq, p, s[0], Sort(leq, rest));
      if p(s[0]) {
        assert Filter(p, s) == [s[0]] + Filter(p, rest);
        assert ([s[0]] + Filter(p, rest))[1..] == Filter(p, rest);
      } else {
        assert Filter(p, s) == Filter(p, rest);
      }
    }
  }

  lemma {:induction false} FilterKeepsSorted<T(!new)>(leq: (T, T) -> bool, p: T -> bool, s: seq<T>)
    requires Sorted(leq, s)
    ensures Sorted(leq, Filter(p, s))
  {
    if s != [] {
      FilterKeepsSorted(leq, p, s[1..]);
      InFilter(p, s[1..]);
      forall y | y in Filter(p, s[1..]) ensures leq(s[0], y) {
      }
    }
  }

  lemma {:induction false} FilterCommutes<T>(p: T -> bool, q: T -> bool, s: seq<T>)
    ensures Filter(p, Filter(q, s)) == Filter(q, Filter(p, s))
  {
    if s != [] {
      FilterCommutes(p, q, s[1..]);
      FilterCons(p, s[0], Filter(q, s[1..]));
      FilterCons(q, s[0], Filter(p, s[1..]));
    }
  }

  lemma {:induction false} FilterSame<T>(p: T -> bool, q: T -> bool, s: seq<T>)
    requires forall x :: x in s ==> p(x) == q(x)
    ensures Filter(p, s) == Filter(q, s)
  {
    if s != [] {
      FilterSame(p, q, s[1..]);
    }
  }

  lemma {:induction false} FilterAll<T>(p: T -> bool, s: seq<T>)
    requires forall x :: x in s ==> p(x)
    ensures Filter(p, s) == s
  {
    if s != [] {
      FilterAll(p, s[1..]);
    }
  }

  lemma {:induction false} FilterAppend<T>(p: T -> bool, a: seq<T>, b: seq<T>)
    ensures Filter(p, a + b) == Filter(p, a) + Filter(p, b)
  {
    if a == [] {
      assert a + b == b;
    } else {
      assert (a + b)[1..] == a[1..] + b;
      FilterAppend(p, a[1..], b);
    }
  }

  lemma {:induction false} FilterNone<T>(p: T -> bool, s: seq<T>)
    requires forall i :: 0 <= i < |s| ==> !p(s[i])
    ensures Filter(p, s) == []
  {
    if s != [] {
      FilterNone(p, s[1..]);
    }
  }

  lemma FilterSnoc<T>(p: T -> bool, s: seq<T>, x: T)
    ensures Filter(p, s + [x]) == Filter(p, s) + if p(x) then [x] else []
  {
    FilterAppend(p, s, [x]);
    FilterCons(p, x, []);
  }

  /** An element at two places occurs twice. */
  lemma OccursTwice<T>(s: seq<T>, i: nat, j: nat)
    requires i < j < |s| && s[i] == s[j]
    ensures multiset(s)[s[i]] >= 2
  {
    assert s == s[..j] + [s[j]] + s[j + 1..];
    assert s[i] in s[..j];
    assert s[i] in multiset(s[..j]);
  }

  lemma TailMultiset<T>(a: seq<T>)
    requires a != []
    ensures multiset(a[1..]) == multiset(a) - multiset{a[0]}
  {
    assert a == [a[0]] + a[1..];
  }

  /** Elements of a list that tie are equal. */
  ghost predicate NoTies<T(!new)>(leq: (T, T) -> bool, s: seq<T>) {
    forall x, y :: x in s && y in s && leq(x, y) && leq(y, x) ==> x == y
  }

  lemma SameHead<T(!new)>(leq: (T, T) -> bool, a: seq<T>, b: seq<T>)
    requires NoTies(leq, a) && forall x :: leq(x, x)
    requires Sorted(leq, a) && Sorted(leq, b) && multiset(a) == multiset(b) && a != []
    ensures b != [] && a[0] == b[0]
  {
    assert a[0] in multiset(b);
    assert b[0] in multiset(a);
  }

  /** With no ties between different elements there is only one sorted arrangement. */
  lemma {:induction false} SortedUnique<T(!new)>(leq: (T, T) -> bool, a: seq<T>, b: seq<T>)
    requires NoTies(leq, a) && forall x :: leq(x, x)
    requires Sorted(leq, a) && Sorted(leq, b) && multiset(a) == multiset(b)
    ensures a == b
  {
    if a == [] {
      assert |multiset(b)| == 0;
    } else {
      SameHead(leq, a, b);
      hide NoTies, Sorted;
      assert multiset(a[1..]) == multiset(b[1..]) by {
        TailMultiset(a);
        TailMultiset(b);
      }
      TailNoTies(leq, a);
      SortedUnique(leq, a[1..], b[1..]);
      HeadTail(a, b);
    }
  }

  lemma HeadTail<T>(a: seq<T>, b: seq<T>)
    requires a != [] && b != [] && a[0] == b[0] && a[1..] == b[1..]
    ensures a == b
  {
    assert a == [a[0]] + a[1..] && b == [b[0]] + b[1..];
  }

  lemma TailNoTies<T(!new)>(leq: (T, T) -> bool, s: seq<T>)
    requires NoTies(leq, s) && s != []
    ensures NoTies(leq, s[1..])
  {
    assert forall x :: x in s[1..] ==> x in s;
  }

  /** Whatever arrangement a library sort returns, it is this one when elements do not tie. */
  lemma SortUnique<T(!new)>(leq: (T, T) -> bool, s: seq<T>, arranged: seq<T>)
    requires TotalPreorder(leq) && NoTies(leq, s)
    requires Sorted(leq, arranged) && multiset(arranged) == multiset(s)
    ensures arranged == Sort(leq, s)
  {
    SortSorted(leq, s);
    SortMultiset(leq, s);
    forall x ensures x in Sort(leq, s) <==> x in s {
      assert x in multiset(Sort(leq, s)) <==> x in multiset(s);
    }
    SortedUnique(leq, Sort(leq, s), arranged);
  }
}
