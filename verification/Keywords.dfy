/** Keyword normalization and overlap (wevibe-hub/internal/retrieval/ranking_core.go). */
module Keywords {
  // Texts are Go byte strings. `fold` stands for trimming white space and mapping to lower case.

  import opened StableSort
  import opened ByteOrder

  type Fold = Bytes -> Bytes

  predicate Below(a: Bytes, b: Bytes) {
    Leq(a, b) && a != b
  }

  /** Sorted without duplicates. */
  ghost predicate Ascending(s: seq<Bytes>) {
    forall i, j :: 0 <= i < j < |s| ==> Below(s[i], s[j])
  }

  function Placed(k: Bytes, s: seq<Bytes>): seq<Bytes> {
    if s == [] then [k]
    else if k == s[0] then s
    else if Leq(k, s[0]) then [k] + s
    else [s[0]] + Placed(k, s[1..])
  }

  /** The folded keywords that are not empty, each once, in byte order. */
  function Normalized(fold: Fold, keywords: seq<Bytes>): seq<Bytes> {
    if keywords == [] then []
    else if fold(keywords[0]) == [] then Normalized(fold, keywords[1..])
    else Placed(fold(keywords[0]), Normalized(fold, keywords[1..]))
  }

  predicate Names(fold: Fold, keywords: seq<Bytes>, k: Bytes) {
    k != [] && exists i :: 0 <= i < |keywords| && fold(keywords[i]) == k
  }

  lemma {:induction false} PlacedFacts(k: Bytes, s: seq<Bytes>)
    requires Ascending(s)
    ensures Ascending(Placed(k, s))
    ensures forall x :: x in Placed(k, s) <==> x == k || x in s
  {
    if s != [] && k != s[0] {
      LeqTotal(k, s[0]);
      if Leq(k, s[0]) {
        forall j | 0 <= j < |s| ensures Below(k, s[j]) {
          if j > 0 {
            LeqTransitive(k, s[0], s[j]);
            LeqTotal(s[0], s[j]);
          }
        }
      } else {
        PlacedFacts(k, s[1..]);
        var rest := Placed(k, s[1..]);
        forall j | 0 <= j < |rest| ensures Below(s[0], rest[j]) {
          assert rest[j] in rest;
        }
      }
    }
  }

  lemma {:induction false} NormalizedFacts(fold: Fold, keywords: seq<Bytes>)
    ensures Ascending(Normalized(fold, keywords))
    ensures forall k :: k in Normalized(fold, keywords) <==> Names(fold, keywords, k)
  {
    if keywords != [] {
      var rest := keywords[1..];
      NormalizedFacts(fold, rest);
      forall k: Bytes ensures Names(fold, keywords, k) <==> (k != [] && fold(keywords[0]) == k) || Names(fold, rest, k) {
        if i :| 0 <= i < |keywords| && fold(keywords[i]) == k {
          assert i > 0 ==> rest[i - 1] == keywords[i];
        }
        if i :| 0 <= i < |rest| && fold(rest[i]) == k {
          assert keywords[i + 1] == rest[i];
        }
      }
      if fold(keywords[0]) != [] {
        PlacedFacts(fold(keywords[0]), Normalized(fold, rest));
      }
    }
  }

  lemma AscendingHead(a: seq<Bytes>, b: seq<Bytes>)
    requires Ascending(a) && Ascending(b) && a != []
    requires forall x :: x in a <==> x in b
    ensures b != [] && a[0] == b[0]
    ensures forall x :: x in a[1..] <==> x in b[1..]
  {
    assert a[0] in b && b[0] in a;
    var i :| 0 <= i < |b| && b[i] == a[0];
    var j :| 0 <= j < |a| && a[j] == b[0];
    if i > 0 && j > 0 {
      LeqTotal(a[0], b[0]);
    }
    assert forall x :: x in a <==> x == a[0] || x in a[1..];
    assert forall x :: x in b <==> x == b[0] || x in b[1..];
  }

  lemma HasHead(s: seq<Bytes>)
    requires s != []
    ensures s[0] in s
  {
  }

  lemma NoMembers(s: seq<Bytes>)
    requires forall x :: x !in s
    ensures s == []
  {
    if s != [] {
      HasHead(s);
    }
  }

  /** A set of keywords has one ascending list. */
  lemma {:induction false} AscendingUnique(a: seq<Bytes>, b: seq<Bytes>)
    requires Ascending(a) && Ascending(b)
    requires forall x :: x in a <==> x in b
    ensures a == b
  {
    if a == [] {
      NoMembers(b);
    } else {
      AscendingHead(a, b);
      AscendingUnique(a[1..], b[1..]);
      assert a == [a[0]] + a[1..] && b == [b[0]] + b[1..];
    }
  }

  /** Permuting or repeating keywords changes nothing: only which folded keywords occur matters. */
  lemma SameKeywords(fold: Fold, a: seq<Bytes>, b: seq<Bytes>)
    requires forall k :: k in a <==> k in b
    ensures Normalized(fold, a) == Normalized(fold, b)
  {
    NormalizedFacts(fold, a);
    NormalizedFacts(fold, b);
    forall k ensures Names(fold, a, k) <==> Names(fold, b, k) {
      if i :| 0 <= i < |a| && fold(a[i]) == k {
        assert a[i] in b;
        var j :| 0 <= j < |b| && b[j] == a[i];
      }
      if i :| 0 <= i < |b| && fold(b[i]) == k {
        assert b[i] in a;
        var j :| 0 <= j < |a| && a[j] == b[i];
      }
    }
    AscendingUnique(Normalized(fold, a), Normalized(fold, b));
  }

  /** Normalizing what is normalized changes nothing. */
  lemma NormalizedTwice(fold: Fold, keywords: seq<Bytes>)
    requires forall k :: fold(fold(k)) == fold(k)
    ensures Normalized(fold, Normalized(fold, keywords)) == Normalized(fold, keywords)
  {
    var once := Normalized(fold, keywords);
    NormalizedFacts(fold, keywords);
    NormalizedFacts(fold, once);
    forall k ensures Names(fold, once, k) <==> k in once {
      if i :| 0 <= i < |once| && fold(once[i]) == k {
        assert Names(fold, keywords, once[i]);
      }
      if k in once {
        var i :| 0 <= i < |once| && once[i] == k;
        assert Names(fold, keywords, k);
      }
    }
    AscendingUnique(Normalized(fold, once), once);
  }

  /** A set filled in a loop, its members taken in any order, then sorted. */
  method NormalizeKeywords(fold: Fold, keywords: seq<Bytes>) returns (normalized: seq<Bytes>)
    ensures normalized == Normalized(fold, keywords)
  {
    if |keywords| == 0 {
      return [];
    }
    var members: set<Bytes> := {};
    var i := 0;
    while i < |keywords|
      invariant i <= |keywords|
      invariant forall k :: k in members <==> k != [] && exists j :: 0 <= j < i && fold(keywords[j]) == k
    {
      var keyword := fold(keywords[i]);
      if keyword != [] {
        members := members + {keyword};
      }
      i := i + 1;
    }
    var listed: seq<Bytes> := [];
    var left := members;
    while left != {}
      invariant left <= members && forall k :: k in listed <==> k in members && k !in left
      invariant forall a, b :: 0 <= a < b < |listed| ==> listed[a] != listed[b]
      decreases |left|
    {
      var k :| k in left;
      listed := listed + [k];
      left := left - {k};
    }
    normalized := Sort(Lexicographic(), listed);
    SortedSet(listed);
    NormalizedFacts(fold, keywords);
    forall k ensures k in normalized <==> k in Normalized(fold, keywords) {
      assert k in normalized <==> k in members;
      assert k in members <==> Names(fold, keywords, k);
    }
    AscendingUnique(normalized, Normalized(fold, keywords));
  }

  lemma SortedSet(listed: seq<Bytes>)
    requires forall a, b :: 0 <= a < b < |listed| ==> listed[a] != listed[b]
    ensures Ascending(Sort(Lexicographic(), listed))
    ensures forall k :: k in Sort(Lexicographic(), listed) <==> k in listed
  {
    var s := Sort(Lexicographic(), listed);
    LexicographicTotal();
    SortSorted(Lexicographic(), listed);
    SortMultiset(Lexicographic(), listed);
    InSort(Lexicographic(), listed);
    OnceEach(listed);
    forall i, j | 0 <= i < j < |s| ensures Below(s[i], s[j]) {
      assert Lexicographic()(s[i], s[j]);
      if s[i] == s[j] {
        OccursTwice(s, i, j);
      }
    }
  }

  lemma {:induction false} OnceEach(s: seq<Bytes>)
    requires forall a, b :: 0 <= a < b < |s| ==> s[a] != s[b]
    ensures forall x :: multiset(s)[x] <= 1
  {
    if s != [] {
      OnceEach(s[1..]);
      assert s == [s[0]] + s[1..];
      assert s[0] !in s[1..];
    }
  }

  // ----- overlap -----

  function InList(s: seq<Bytes>): Bytes -> bool {
    k => k in s
  }

  function NotInList(s: seq<Bytes>): Bytes -> bool {
    k => k !in s
  }

  function Matched(memory: seq<Bytes>, query: seq<Bytes>): seq<Bytes> {
    Filter(InList(memory), query)
  }

  function Unmatched(query: seq<Bytes>, matched: seq<Bytes>): seq<Bytes> {
    Filter(NotInList(matched), query)
  }

  function Share(memory: seq<Bytes>, query: seq<Bytes>): real {
    if query == [] then 0.0 else |Matched(memory, query)| as real / |query| as real
  }

  lemma ShareBounds(memory: seq<Bytes>, query: seq<Bytes>)
    ensures 0.0 <= Share(memory, query) <= 1.0
  {
  }

  /** Matched and unmatched keywords split the query's, each part in the query's order. */
  lemma KeywordsSplit(memory: seq<Bytes>, query: seq<Bytes>)
    ensures Unmatched(query, Matched(memory, query)) == Filter(NotInList(memory), query)
    ensures multiset(query) == multiset(Matched(memory, query)) + multiset(Unmatched(query, Matched(memory, query)))
    ensures forall k :: k in query ==> (k in Matched(memory, query)) != (k in Unmatched(query, Matched(memory, query)))
  {
    InFilter(InList(memory), query);
    var matched := Matched(memory, query);
    FilterSame(NotInList(matched), NotInList(memory), query);
    InFilter(NotInList(memory), query);
    SplitFilter(memory, query);
  }

  lemma {:induction false} SplitFilter(memory: seq<Bytes>, s: seq<Bytes>)
    ensures multiset(s) == multiset(Filter(InList(memory), s)) + multiset(Filter(NotInList(memory), s))
  {
    if s != [] {
      SplitFilter(memory, s[1..]);
      assert s == [s[0]] + s[1..];
    }
  }

  method KeywordOverlap(memory: seq<Bytes>, query: seq<Bytes>) returns (overlap: real, matched: seq<Bytes>)
    ensures overlap == Share(memory, query) && matched == Matched(memory, query)
  {
    if |memory| == 0 || |query| == 0 {
      InFilter(InList(memory), query);
      NoMembers(Matched(memory, query));
      return 0.0, [];
    }
    var memorySet := set k | k in memory;
    matched := [];
    var i := 0;
    while i < |query|
      invariant i <= |query| && matched == Matched(memory, query[..i])
    {
      assert query[..i + 1] == query[..i] + [query[i]];
      FilterSnoc(InList(memory), query[..i], query[i]);
      if query[i] in memorySet {
        matched := matched + [query[i]];
      }
      i := i + 1;
    }
    assert query[..i] == query;
    overlap := |matched| as real / |query| as real;
  }

  method UnmatchedQueryKeywords(query: seq<Bytes>, matched: seq<Bytes>) returns (unmatched: seq<Bytes>)
    ensures unmatched == Unmatched(query, matched)
  {
    if |query| == 0 {
      return [];
    }
    if |matched| == 0 {
      FilterAll(NotInList(matched), query);
      return query;
    }
    var matchedSet := set k | k in matched;
    unmatched := [];
    var i := 0;
    while i < |query|
      invariant i <= |query| && unmatched == Unmatched(query[..i], matched)
    {
      assert query[..i + 1] == query[..i] + [query[i]];
      FilterSnoc(NotInList(matched), query[..i], query[i]);
      if query[i] !in matchedSet {
        unmatched := unmatched + [query[i]];
      }
      i := i + 1;
    }
    assert query[..i] == query;
  }
}
