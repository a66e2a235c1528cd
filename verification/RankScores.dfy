/** What a recall candidate's verdict says: which candidates are dropped, and what a final score is made of
    (wevibe-hub/internal/retrieval/ranking_core.go). */
module RankScores {
  import opened StableSort
  import opened ByteOrder
  import opened Keywords
  import opened Ranking

  // ----- the verdict -----

  ghost predicate Hidden(c: Candidate, o: Options) {
    c.archived || c.standingBps <= o.standingThresholdBps
  }

  /** None of the query's keywords is one of the candidate's. */
  ghost predicate NoneShared(fold: Fold, c: Candidate, query: seq<Bytes>) {
    forall k :: k in query ==> !Names(fold, c.keywords, k)
  }

  lemma MatchedExactly(fold: Fold, c: Candidate, query: seq<Bytes>)
    ensures var matched := Matched(Normalized(fold, c.keywords), query);
            && (forall k :: k in matched <==> k in query && Names(fold, c.keywords, k))
            && (matched == [] <==> NoneShared(fold, c, query))
  {
    var matched := Matched(Normalized(fold, c.keywords), query);
    InFilter(InList(Normalized(fold, c.keywords)), query);
    NormalizedFacts(fold, c.keywords);
    hide Normalized, Names;
    if NoneShared(fold, c, query) {
      NoMembers(matched);
    }
  }

  lemma UnmatchedExactly(fold: Fold, c: Candidate, query: seq<Bytes>)
    ensures forall k :: k in Unmatched(query, Matched(Normalized(fold, c.keywords), query))
                        <==> k in query && !Names(fold, c.keywords, k)
  {
    var matched := Matched(Normalized(fold, c.keywords), query);
    MatchedExactly(fold, c, query);
    InFilter(NotInList(matched), query);
    hide Normalized, Names, Matched;
  }

  /** Hidden candidates fall to their standing, then those without a positive vector score, then, behind a gate
      and for a query with keywords, those that share none with it; only then does the floor look at the score,
      without denials or freshness. The rest are kept. */
  lemma VerdictExactly(fold: Fold, c: Candidate, query: seq<Bytes>, o: Options)
    ensures var v := Judge(fold, c, query, o);
            if Hidden(c, o) then v == Standing(c.id, c.vectorScore)
            else if c.vectorScore <= 0.0 then v == Vector
            else if o.gate && query != [] && NoneShared(fold, c, query) then v == Gate
            else
              && (v.Floor? || v.Kept?)
              && (v.Floor? <==> o.floor > 0.0 && c.vectorScore + v.row.cappedBoost < o.floor)
              && (v.Floor? ==> v.row.final == c.vectorScore + v.row.cappedBoost)
  {
    MatchedExactly(fold, c, query);
    hide Normalized, Names, Share, Matched, Unmatched, GammaBoost, Capped, Freshened, AfterDenials;
  }

  ghost predicate HasRow(v: Verdict) {
    v.Floor? || v.Kept?
  }

  /** A row carries the candidate's own score and what part of the query's keywords it shares. */
  lemma RowKeywords(fold: Fold, c: Candidate, query: seq<Bytes>, o: Options)
    requires HasRow(Judge(fold, c, query, o))
    ensures var row := Judge(fold, c, query, o).row;
            && row.id == c.id && row.vectorScore == c.vectorScore
            && row.gamma == o.keywordBoostFactor && row.delta == o.delta
            && (forall k :: k in row.matched <==> k in query && Names(fold, c.keywords, k))
            && (forall k :: k in row.unmatchedQuery <==> k in query && !Names(fold, c.keywords, k))
            && row.keywordBoost * |query| as real == |row.matched| as real
  {
    RowOfScored(fold, c, query, o);
    hide Judge, Normalized, Names, Matched, Unmatched, Share, GammaBoost, Capped;
    MatchedExactly(fold, c, query);
    UnmatchedExactly(fold, c, query);
    ShareExactly(Normalized(fold, c.keywords), query);
  }

  /** Its boost is the lesser of that part, weighed by standing, and the cap. */
  lemma RowBoost(fold: Fold, c: Candidate, query: seq<Bytes>, o: Options)
    requires HasRow(Judge(fold, c, query, o))
    ensures var row := Judge(fold, c, query, o).row;
            var weighed := o.keywordBoostFactor * row.keywordBoost * (c.standingBps as real / 10000.0);
            && row.cappedBoost <= weighed
            && (o.delta > 0.0 ==> row.cappedBoost <= o.delta * c.vectorScore)
            && (row.cappedBoost == weighed || (o.delta > 0.0 && row.cappedBoost == o.delta * c.vectorScore))
  {
    RowOfScored(fold, c, query, o);
    hide Judge, Normalized, Names, Matched, Unmatched, Share;
    var weighed := GammaBoost(Judge(fold, c, query, o).row.keywordBoost, c.standingBps, o);
    CappedExactly(weighed, c.vectorScore, o);
    hide Capped;
  }

  lemma RowOfScored(fold: Fold, c: Candidate, query: seq<Bytes>, o: Options)
    requires HasRow(Judge(fold, c, query, o))
    ensures var memory := Normalized(fold, c.keywords);
            var row := Judge(fold, c, query, o).row;
            row == Row(c.id, row.final, c.vectorScore, Share(memory, query), o.keywordBoostFactor, o.delta,
                       Capped(GammaBoost(Share(memory, query), c.standingBps, o), c.vectorScore, o),
                       Matched(memory, query), Unmatched(query, Matched(memory, query)))
  {
    hide Normalized, Names, Matched, Unmatched, Share, GammaBoost, Capped, Freshened, AfterDenials;
  }

  lemma ShareExactly(memory: seq<Bytes>, query: seq<Bytes>)
    ensures Share(memory, query) * |query| as real == |Matched(memory, query)| as real
  {
    if query == [] {
      assert Matched(memory, query) == [];
    }
  }

  lemma CappedExactly(weighed: real, vectorScore: real, o: Options)
    ensures var capped := Capped(weighed, vectorScore, o);
            && capped <= weighed && (o.delta > 0.0 ==> capped <= o.delta * vectorScore)
            && (capped == weighed || (o.delta > 0.0 && capped == o.delta * vectorScore))
  {
  }

  // ----- the final score -----

  /** Without the freshness boost: the vector score and the capped boost, less a twentieth for every pending
      denial, but not below zero when there are any. */
  lemma PlainFinal(fold: Fold, c: Candidate, query: seq<Bytes>, o: Options)
    requires Judge(fold, c, query, o).Kept? && !o.newMemBoost
    ensures var row := Judge(fold, c, query, o).row;
            var score := c.vectorScore + row.cappedBoost;
            if c.pendingDenials <= 0 then row.final == score
            else if 20.0 * score >= c.pendingDenials as real then 20.0 * row.final == 20.0 * score - c.pendingDenials as real
            else row.final == 0.0
  {
    hide Normalized, Share, Matched, Unmatched, GammaBoost, Capped;
  }

  /** The boost is on top of that: it leaves all but the final score alone. At age zero it multiplies a positive
      score by one and the multiplier, from the end of the window on by one, and in between what it adds shrinks
      evenly with age. Scores that are not positive stay. */
  lemma BoostedFinal(fold: Fold, c: Candidate, query: seq<Bytes>, o: Options)
    requires Judge(fold, c, query, o).Kept? && o.newMemBoost
    ensures var row := Judge(fold, c, query, o).row;
            var bare := Judge(fold, c, query, o.(newMemBoost := false));
            var window := o.grace + o.boostWindow;
            && bare.Kept? && row == bare.row.(final := row.final)
            && (bare.row.final <= 0.0 || window <= 0.0 || c.age as real >= window ==> row.final == bare.row.final)
            && (bare.row.final > 0.0 && window > 0.0 && c.age as real < window ==>
                  (row.final - bare.row.final) * window == bare.row.final * o.newMemMult * (window - c.age as real))
            && (bare.row.final > 0.0 && window > 0.0 && c.age == 0 ==> row.final == bare.row.final * (1.0 + o.newMemMult))
  {
    BareRow(fold, c, query, o);
    hide Judge;
    var bare := Judge(fold, c, query, o.(newMemBoost := false)).row.final;
    if bare > 0.0 && o.grace + o.boostWindow > 0.0 {
      FreshenedInside(bare, c.age, o);
      hide Freshened;
    } else {
      assert Freshened(bare, c.age, o) == bare;
      hide Freshened;
    }
  }

  lemma BareRow(fold: Fold, c: Candidate, query: seq<Bytes>, o: Options)
    requires Judge(fold, c, query, o).Kept? && o.newMemBoost
    ensures var bare := Judge(fold, c, query, o.(newMemBoost := false));
            && bare.Kept?
            && Judge(fold, c, query, o).row == bare.row.(final := Freshened(bare.row.final, c.age, o))
  {
    hide Normalized, Share, Matched, Unmatched, GammaBoost, Capped, AfterDenials;
    var o2 := o.(newMemBoost := false);
    forall overlap: real, bps ensures GammaBoost(overlap, bps, o2) == GammaBoost(overlap, bps, o)
    {
      SameGamma(overlap, bps, o);
    }
    forall g: real, v: real ensures Capped(g, v, o2) == Capped(g, v, o)
    {
      SameCapped(g, v, o);
    }
  }

  lemma SameGamma(overlap: real, bps: int, o: Options)
    ensures GammaBoost(overlap, bps, o.(newMemBoost := false)) == GammaBoost(overlap, bps, o)
  {
  }

  lemma SameCapped(g: real, v: real, o: Options)
    ensures Capped(g, v, o.(newMemBoost := false)) == Capped(g, v, o)
  {
  }

  lemma FreshenedInside(score: real, age: int, o: Options)
    requires o.newMemBoost && score > 0.0 && o.grace + o.boostWindow > 0.0
    ensures var window := o.grace + o.boostWindow;
            var final := Freshened(score, age, o);
            && (age as real >= window ==> final == score)
            && (age as real < window ==> (final - score) * window == score * o.newMemMult * (window - age as real))
            && (age == 0 ==> final == score * (1.0 + o.newMemMult))
  {
    var window := o.grace + o.boostWindow;
    var f := Fraction(age, window);
    var final := Freshened(score, age, o);
    assert final == score * (1.0 + o.newMemMult * f);
    if age as real >= window {
      assert age as real / window >= 1.0;
      assert f == 0.0;
    } else {
      var part := age as real / window;
      assert part * window == age as real;
      assert f == 1.0 - part by {
        if part > 1.0 {
          LargerProduct(1.0, part, window);
        }
      }
      Spread(score, o.newMemMult, f, window, part);
    }
  }

  lemma LargerProduct(a: real, b: real, w: real)
    requires a < b && w > 0.0
    ensures a * w < b * w
  {
  }

  lemma Spread(s: real, m: real, f: real, w: real, part: real)
    requires f == 1.0 - part
    ensures (s * (1.0 + m * f) - s) * w == s * m * (w - part * w)
  {
    assert s * (1.0 + m * f) - s == s * m * f;
    assert f * w == w - part * w;
    calc {
      s * m * f * w;
      (s * m) * (f * w);
    }
  }

  /** No keyword in common, no pending denial and no boost: the vector score itself. */
  lemma BareFinal(fold: Fold, c: Candidate, query: seq<Bytes>, o: Options)
    requires Judge(fold, c, query, o).Kept? && !o.newMemBoost
    requires NoneShared(fold, c, query) && c.pendingDenials <= 0
    ensures Judge(fold, c, query, o).row.final == c.vectorScore
  {
    MatchedExactly(fold, c, query);
    var row := Judge(fold, c, query, o).row;
    assert row.keywordBoost == 0.0;
    assert o.delta > 0.0 ==> o.delta * c.vectorScore > 0.0;
    hide Normalized, Matched, Unmatched;
  }

  /** One more pending denial lowers a positive final score. */
  lemma DenialLowers(fold: Fold, c: Candidate, query: seq<Bytes>, o: Options)
    requires Judge(fold, c, query, o).Kept? && o.newMemMult >= 0.0
    requires c.pendingDenials >= 0 && Judge(fold, c, query, o).row.final > 0.0
    ensures var more := c.(pendingDenials := c.pendingDenials + 1);
            && Judge(fold, more, query, o).Kept?
            && Judge(fold, more, query, o).row.final < Judge(fold, c, query, o).row.final
  {
    var more := c.(pendingDenials := c.pendingDenials + 1);
    hide Normalized, Share, Matched, Unmatched, GammaBoost, Capped;
    var row := Judge(fold, c, query, o).row;
    var combined := c.vectorScore + row.cappedBoost;
    var x, y := AfterDenials(combined, c.pendingDenials), AfterDenials(combined, more.pendingDenials);
    assert row.final == Freshened(x, c.age, o);
    assert Judge(fold, more, query, o).row.final == Freshened(y, c.age, o);
    var f := Fraction(c.age, o.grace + o.boostWindow);
    assert o.newMemMult * f >= 0.0;
    assert x > 0.0;
    assert y < x;
    if o.newMemBoost && y > 0.0 {
      LargerProduct(y, x, 1.0 + o.newMemMult * f);
    }
  }

  // ----- the ranking -----

  /** The rows are those of the kept candidates, best final score first. */
  lemma RankedExactly(fold: Fold, cands: seq<Candidate>, keywords: seq<Bytes>, o: Options)
    ensures var query := Normalized(fold, keywords);
            var rows := Result(fold, cands, keywords, o).rows;
            && (forall i, j :: 0 <= i < j < |rows| ==> rows[i].final >= rows[j].final)
            && forall row :: row in rows <==>
                 exists k :: 0 <= k < |cands| && Judge(fold, cands[k], query, o).Kept? && Judge(fold, cands[k], query, o).row == row
  {
    var query := Normalized(fold, keywords);
    var verdicts := JudgeAll(fold, cands, query, o);
    var ranked := Ordered(verdicts);
    var rows := RowsOf(ranked);
    KeptRowsFrom(verdicts);
    RowsDoNotTie(verdicts);
    OrderIsTotal();
    SortSorted(Order(), KeptRows(verdicts));
    InSort(Order(), KeptRows(verdicts));
    hide Judge, Normalized, Sort, KeptRows;
    forall i, j | 0 <= i < j < |rows| ensures rows[i].final >= rows[j].final
    {
      assert Order()(ranked[i], ranked[j]);
    }
    forall row ensures row in rows <==> exists k :: 0 <= k < |cands| && verdicts[k].Kept? && verdicts[k].row == row
    {
      if row in rows {
        var i :| 0 <= i < |rows| && rows[i] == row;
        assert ranked[i] in ranked && verdicts[ranked[i].index].row == row;
      }
      if k :| 0 <= k < |cands| && verdicts[k].Kept? && verdicts[k].row == row {
        assert Ranked(row, k) in ranked;
        var i :| 0 <= i < |ranked| && ranked[i] == Ranked(row, k);
        assert rows[i] == row;
      }
    }
  }

  lemma OrderIsTotal()
    ensures TotalPreorder(Order())
  {
  }
}
