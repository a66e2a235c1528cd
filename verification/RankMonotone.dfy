/** Raising a candidate never hurts it: what stays kept, and where it ends up. */
module RankMonotone {
  import opened StableSort
  import opened ByteOrder
  import opened Keywords
  import opened Ranking

  /** The same candidate with a higher vector score or standing, fewer pending denials, a lower age, or no
      longer archived. */
  predicate Improves(c: Candidate, b: Candidate) {
    && b.id == c.id && b.keywords == c.keywords
    && b.vectorScore >= c.vectorScore && b.standingBps >= c.standingBps
    && b.pendingDenials <= c.pendingDenials && b.age <= c.age
    && (b.archived ==> c.archived)
  }

  predicate NonNegative(o: Options) {
    o.keywordBoostFactor >= 0.0 && o.newMemMult >= 0.0 && o.standingThresholdBps >= 0
  }

  // ----- one score -----

  lemma Product(a: real, b: real, c: real)
    requires a <= b && c >= 0.0
    ensures a * c <= b * c && c * a <= c * b
  {
  }

  lemma BoostMonotone(overlap: real, s: int, t: int, o: Options)
    requires 0.0 <= overlap && 0 <= s <= t && o.keywordBoostFactor >= 0.0
    ensures 0.0 <= GammaBoost(overlap, s, o) <= GammaBoost(overlap, t, o)
  {
    var k := o.keywordBoostFactor * overlap;
    Product(0.0, o.keywordBoostFactor, overlap);
    Product(0.0, s as real / 10000.0, k);
    Product(s as real / 10000.0, t as real / 10000.0, k);
  }

  lemma CapMonotone(g: real, h: real, v: real, w: real, o: Options)
    requires 0.0 <= g <= h && 0.0 < v <= w
    ensures 0.0 <= Capped(g, v, o) <= Capped(h, w, o)
  {
    if o.delta > 0.0 {
      Product(v, w, o.delta);
      Product(0.0, v, o.delta);
    }
  }

  lemma DenialsMonotone(x: real, y: real, p: int, q: int)
    requires 0.0 <= x <= y && q <= p
    ensures 0.0 <= AfterDenials(x, p) <= AfterDenials(y, q)
  {
  }

  lemma FractionMonotone(a: int, b: int, window: real)
    requires b <= a
    ensures 0.0 <= Fraction(a, window) <= Fraction(b, window)
  {
  }

  lemma FreshMonotone(x: real, y: real, a: int, b: int, o: Options)
    requires 0.0 <= x <= y && b <= a && o.newMemMult >= 0.0
    ensures Freshened(x, a, o) <= Freshened(y, b, o)
  {
    var window := o.grace + o.boostWindow;
    var f, g := Fraction(a, window), Fraction(b, window);
    FractionMonotone(a, b, window);
    Product(f, g, o.newMemMult);
    Product(0.0, f, o.newMemMult);
    hide Fraction;
    var m, n := 1.0 + o.newMemMult * f, 1.0 + o.newMemMult * g;
    Product(0.0, y, n);
    Product(x, y, m);
    Product(m, n, y);
    assert x * m <= y * n && 0.0 <= y * n;
  }

  /** A kept candidate stays kept when raised, and its final score does not fall. */
  lemma ScoreMonotone(fold: Fold, c: Candidate, b: Candidate, query: seq<Bytes>, o: Options)
    requires Improves(c, b) && NonNegative(o) && Judge(fold, c, query, o).Kept?
    ensures Judge(fold, b, query, o).Kept?
    ensures Judge(fold, b, query, o).row.final >= Judge(fold, c, query, o).row.final
  {
    hide Normalized, Share, Matched, Unmatched, GammaBoost, Capped, Freshened, AfterDenials;
    var memory := Normalized(fold, c.keywords);
    var overlap := Share(memory, query);
    ShareBounds(memory, query);
    BoostMonotone(overlap, c.standingBps, b.standingBps, o);
    var g, h := GammaBoost(overlap, c.standingBps, o), GammaBoost(overlap, b.standingBps, o);
    CapMonotone(g, h, c.vectorScore, b.vectorScore, o);
    var x, y := c.vectorScore + Capped(g, c.vectorScore, o), b.vectorScore + Capped(h, b.vectorScore, o);
    DenialsMonotone(x, y, c.pendingDenials, b.pendingDenials);
    FreshMonotone(AfterDenials(x, c.pendingDenials), AfterDenials(y, b.pendingDenials), c.age, b.age, o);
  }

  // ----- one position -----

  function Ahead(x: Ranked): Ranked -> bool {
    y => NotAfter(y, x) && y != x
  }

  /** What is ahead of an element of the ranking is what stands before it. */
  lemma {:induction false} AheadIsBefore(s: seq<Ranked>, p: nat)
    requires Sorted(Order(), s) && NoTies(Order(), s) && p < |s|
    requires forall i, j :: 0 <= i < j < |s| ==> s[i] != s[j]
    ensures |Filter(Ahead(s[p]), s)| == p
  {
    var x := s[p];
    assert s == s[..p] + ([x] + s[p + 1..]);
    FilterAll(Ahead(x), s[..p]);
    var rest := s[p + 1..];
    forall i | 0 <= i < |rest| ensures !Ahead(x)(rest[i]) {
      assert rest[i] == s[p + 1 + i];
      assert Order()(x, s[p + 1 + i]);
      assert s[p + 1 + i] in s && x in s;
    }
    FilterNone(Ahead(x), rest);
    FilterAppend(Ahead(x), s[..p], [x] + s[p + 1..]);
    FilterAppend(Ahead(x), [x], s[p + 1..]);
    assert Filter(Ahead(x), [x]) == [];
  }

  /** A row's position is how many kept rows are ahead of it, wherever they come in the input. */
  lemma PositionIsCount(verdicts: seq<Verdict>, p: nat)
    requires p < |Ordered(verdicts)|
    ensures |Filter(Ahead(Ordered(verdicts)[p]), KeptRows(verdicts))| == p
  {
    var rows := KeptRows(verdicts);
    var s := Ordered(verdicts);
    SortSorted(Order(), rows);
    RowsDoNotTie(verdicts);
    InSort(Order(), rows);
    assert NoTies(Order(), s);
    SortedApart(verdicts);
    AheadIsBefore(s, p);
    FilterSort(Order(), Ahead(s[p]), rows);
  }

  lemma SortedApart(verdicts: seq<Verdict>)
    ensures forall i, j :: 0 <= i < j < |Ordered(verdicts)| ==> Ordered(verdicts)[i] != Ordered(verdicts)[j]
  {
    KeptOnce(verdicts);
    SortMultiset(Order(), KeptRows(verdicts));
    var s := Ordered(verdicts);
    forall i, j | 0 <= i < j < |s| ensures s[i] != s[j] {
      if s[i] == s[j] {
        OccursTwice(s, i, j);
      }
    }
  }

  lemma {:induction false} KeptOnce(verdicts: seq<Verdict>)
    ensures forall x :: multiset(KeptRows(verdicts))[x] <= 1
  {
    if verdicts != [] {
      var last := |verdicts| - 1;
      KeptOnce(verdicts[..last]);
      KeptRowsFrom(verdicts[..last]);
      forall x ensures multiset(KeptRows(verdicts))[x] <= 1 {
        if x.index == last {
          assert x !in KeptRows(verdicts[..last]);
        }
      }
    }
  }

  /** `after` is `before` with the row of candidate `i` scored no lower. */
  ghost predicate RaisedAt(before: seq<Verdict>, after: seq<Verdict>, i: nat) {
    && |after| == |before| && i < |before|
    && before[i].Kept? && after[i].Kept? && after[i].row.final >= before[i].row.final
    && forall j :: 0 <= j < |before| && j != i ==> after[j] == before[j]
  }

  /** Raising one row cannot bring rows ahead of it. */
  lemma {:induction false} FewerAhead(before: seq<Verdict>, after: seq<Verdict>, i: nat, n: nat)
    requires RaisedAt(before, after, i) && n <= |before|
    ensures |Filter(Ahead(Ranked(after[i].row, i)), KeptRows(after[..n]))|
         <= |Filter(Ahead(Ranked(before[i].row, i)), KeptRows(before[..n]))|
    decreases n
  {
    if n > 0 {
      FewerAhead(before, after, i, n - 1);
      AheadSnoc(before, n - 1, Ranked(before[i].row, i));
      AheadSnoc(after, n - 1, Ranked(after[i].row, i));
    }
  }

  lemma AheadSnoc(verdicts: seq<Verdict>, n: nat, x: Ranked)
    requires n < |verdicts|
    ensures |Filter(Ahead(x), KeptRows(verdicts[..n + 1]))|
         == |Filter(Ahead(x), KeptRows(verdicts[..n]))|
          + if verdicts[n].Kept? && Ahead(x)(Ranked(verdicts[n].row, n)) then 1 else 0
  {
    VerdictSnoc(verdicts, n);
    var now := if verdicts[n].Kept? then [Ranked(verdicts[n].row, n)] else [];
    assert KeptRows(verdicts[..n + 1]) == KeptRows(verdicts[..n]) + now;
    FilterAppend(Ahead(x), KeptRows(verdicts[..n]), now);
  }

  lemma RaisedRowMovesUp(before: seq<Verdict>, after: seq<Verdict>, i: nat, p: nat) returns (q: nat)
    requires RaisedAt(before, after, i)
    requires p < |Ordered(before)| && Ordered(before)[p].index == i
    ensures q <= p && q < |Ordered(after)| && Ordered(after)[q] == Ranked(after[i].row, i)
  {
    var x, y := Ranked(before[i].row, i), Ranked(after[i].row, i);
    KeptRowsFrom(before);
    KeptRowsFrom(after);
    InSort(Order(), KeptRows(before));
    InSort(Order(), KeptRows(after));
    assert Ordered(before)[p] in Ordered(before);
    assert Ordered(before)[p] == x;
    assert y in Ordered(after);
    q :| 0 <= q < |Ordered(after)| && Ordered(after)[q] == y;
    PositionIsCount(before, p);
    PositionIsCount(after, q);
    assert before[..|before|] == before && after[..|after|] == after;
    FewerAhead(before, after, i, |before|);
  }

  /** Raising candidate `i`, all else fixed: if it was in the output at position `p`, it is in the output
      at `p` or earlier. */
  lemma RaisingNeverHurts(fold: Fold, cands: seq<Candidate>, i: nat, better: Candidate, keywords: seq<Bytes>,
                          o: Options, p: nat) returns (q: nat)
    requires i < |cands| && Improves(cands[i], better) && NonNegative(o)
    requires var ranking := Ordered(JudgeAll(fold, cands, Normalized(fold, keywords), o));
             p < |ranking| && ranking[p].index == i
    ensures var ranking := Ordered(JudgeAll(fold, cands[i := better], Normalized(fold, keywords), o));
            q <= p && q < |ranking| && ranking[q].index == i
  {
    var query := Normalized(fold, keywords);
    var before := JudgeAll(fold, cands, query, o);
    var after := JudgeAll(fold, cands[i := better], query, o);
    KeptRowsFrom(before);
    InSort(Order(), KeptRows(before));
    assert Ordered(before)[p] in Ordered(before);
    ScoreMonotone(fold, cands[i], better, query, o);
    q := RaisedRowMovesUp(before, after, i, p);
  }
}
