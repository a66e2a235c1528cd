/** Scoring and ranking of recall candidates (wevibe-hub/internal/retrieval/ranking_core.go), over the
    reals: rounding and NaN are not modelled. */
module Ranking {
  import opened StableSort
  import opened ByteOrder
  import opened Keywords

  datatype Candidate = Candidate(
    id: Bytes, vectorScore: real, keywords: seq<Bytes>, standingBps: int, archived: bool, pendingDenials: int, age: int)

  datatype Options = Options(
    gate: bool, keywordBoostFactor: real, delta: real, newMemBoost: bool, grace: real, boostWindow: real,
    newMemMult: real, floor: real, standingThresholdBps: int)

  datatype Row = Row(
    id: Bytes, final: real, vectorScore: real, keywordBoost: real, gamma: real, delta: real, cappedBoost: real,
    matched: seq<Bytes>, unmatchedQuery: seq<Bytes>)

  /** What becomes of a candidate: one of four drops, or a row. */
  datatype Verdict = Standing(id: Bytes, vectorScore: real) | Vector | Gate | Floor(row: Row) | Kept(row: Row)

  function Max(a: real, b: real): real {
    if a < b then b else a
  }

  function Capped(gammaBoost: real, vectorScore: real, o: Options): real {
    if o.delta > 0.0 && o.delta * vectorScore < gammaBoost then o.delta * vectorScore else gammaBoost
  }

  function GammaBoost(overlap: real, standingBps: int, o: Options): real {
    o.keywordBoostFactor * overlap * (standingBps as real / 10000.0)
  }

  function AfterDenials(score: real, pendingDenials: int): real {
    if pendingDenials > 0 then Max(0.0, score - pendingDenials as real * 0.05) else score
  }

  function Fraction(age: int, window: real): real {
    if window > 0.0 then Max(0.0, 1.0 - age as real / window) else 0.0
  }

  function Freshened(score: real, age: int, o: Options): real {
    if o.newMemBoost && score > 0.0 then score * (1.0 + o.newMemMult * Fraction(age, o.grace + o.boostWindow)) else score
  }

  function RowOf(c: Candidate, query: seq<Bytes>, memory: seq<Bytes>, o: Options, final: real, capped: real): Row {
    Row(c.id, final, c.vectorScore, Share(memory, query), o.keywordBoostFactor, o.delta, capped,
        Matched(memory, query), Unmatched(query, Matched(memory, query)))
  }

  function Scored(c: Candidate, query: seq<Bytes>, memory: seq<Bytes>, o: Options): Verdict {
    var capped := Capped(GammaBoost(Share(memory, query), c.standingBps, o), c.vectorScore, o);
    var combined := c.vectorScore + capped;
    if o.floor > 0.0 && combined < o.floor then Floor(RowOf(c, query, memory, o, combined, capped))
    else Kept(RowOf(c, query, memory, o, Freshened(AfterDenials(combined, c.pendingDenials), c.age, o), capped))
  }

  /** `query` is normalized. */
  function Judge(fold: Fold, c: Candidate, query: seq<Bytes>, o: Options): Verdict {
    if c.archived || c.standingBps <= o.standingThresholdBps then Standing(c.id, c.vectorScore)
    else if c.vectorScore <= 0.0 then Vector
    else
      var memory := Normalized(fold, c.keywords);
      if o.gate && query != [] && Matched(memory, query) == [] then Gate
      else Scored(c, query, memory, o)
  }

  function JudgeAll(fold: Fold, cands: seq<Candidate>, query: seq<Bytes>, o: Options): (r: seq<Verdict>)
    ensures |r| == |cands| && forall i :: 0 <= i < |r| ==> r[i] == Judge(fold, cands[i], query, o)
  {
    seq(|cands|, i requires 0 <= i < |cands| => Judge(fold, cands[i], query, o))
  }

  // ----- the order of the kept rows -----

  datatype Ranked = Ranked(row: Row, index: nat)

  predicate NotAfter(a: Ranked, b: Ranked) {
    a.row.final > b.row.final || (a.row.final == b.row.final && a.index <= b.index)
  }

  function Order(): (Ranked, Ranked) -> bool {
    (a, b) => NotAfter(a, b)
  }

  /** The kept candidates' rows, numbered by input position. */
  function KeptRows(verdicts: seq<Verdict>): seq<Ranked> {
    if verdicts == [] then []
    else
      var last := |verdicts| - 1;
      KeptRows(verdicts[..last]) + if verdicts[last].Kept? then [Ranked(verdicts[last].row, last)] else []
  }

  function Ordered(verdicts: seq<Verdict>): seq<Ranked> {
    Sort(Order(), KeptRows(verdicts))
  }

  lemma {:induction false} KeptRowsFrom(verdicts: seq<Verdict>)
    ensures forall x :: x in KeptRows(verdicts) <==>
              x.index < |verdicts| && verdicts[x.index].Kept? && x.row == verdicts[x.index].row
  {
    if verdicts != [] {
      KeptRowsFrom(verdicts[..|verdicts| - 1]);
    }
  }

  lemma RowsDoNotTie(verdicts: seq<Verdict>)
    ensures NoTies(Order(), KeptRows(verdicts))
  {
    KeptRowsFrom(verdicts);
  }

  /** The output is the only arrangement of the kept rows by final score, highest first, and then by input
      position, whatever sort makes it. */
  lemma OrderedUnique(verdicts: seq<Verdict>, arranged: seq<Ranked>)
    requires Sorted(Order(), arranged) && multiset(arranged) == multiset(KeptRows(verdicts))
    ensures arranged == Ordered(verdicts)
  {
    RowsDoNotTie(verdicts);
    SortUnique(Order(), KeptRows(verdicts), arranged);
  }

  // ----- the counters -----

  datatype Drops = Drops(gate: nat, vector: nat, kept: nat, total: nat, floor: nat, standing: nat)

  function Counted(d: Drops, verdict: Verdict): Drops {
    match verdict
    case Standing(_, _) => d.(standing := d.standing + 1, total := d.total + 1)
    case Vector => d.(vector := d.vector + 1, total := d.total + 1)
    case Gate => d.(gate := d.gate + 1, total := d.total + 1)
    case Floor(_) => d.(floor := d.floor + 1, total := d.total + 1)
    case Kept(_) => d.(kept := d.kept + 1, total := d.total + 1)
  }

  function Tally(verdicts: seq<Verdict>): Drops {
    if verdicts == [] then Drops(0, 0, 0, 0, 0, 0)
    else Counted(Tally(verdicts[..|verdicts| - 1]), verdicts[|verdicts| - 1])
  }

  function FloorRows(verdicts: seq<Verdict>): seq<Row> {
    if verdicts == [] then []
    else
      var last := |verdicts| - 1;
      FloorRows(verdicts[..last]) + if verdicts[last].Floor? then [verdicts[last].row] else []
  }

  function StandingRows(verdicts: seq<Verdict>): seq<(Bytes, real)> {
    if verdicts == [] then []
    else
      var last := |verdicts| - 1;
      StandingRows(verdicts[..last])
      + if verdicts[last].Standing? then [(verdicts[last].id, verdicts[last].vectorScore)] else []
  }

  /** Every candidate lands in exactly one place, the counters add up to the total, and the lists are as
      long as their counters say. */
  lemma {:induction false} CountersAddUp(verdicts: seq<Verdict>)
    ensures var d := Tally(verdicts);
            && d.total == |verdicts|
            && d.gate + d.vector + d.kept + d.floor + d.standing == d.total
            && d.kept == |KeptRows(verdicts)| && d.floor == |FloorRows(verdicts)|
            && d.standing == |StandingRows(verdicts)|
  {
    if verdicts != [] {
      CountersAddUp(verdicts[..|verdicts| - 1]);
    }
  }

  datatype Output = Output(rows: seq<Row>, drops: Drops, floorDropped: seq<Row>, standingDropped: seq<(Bytes, real)>)

  function RowsOf(ranked: seq<Ranked>): (r: seq<Row>)
    ensures |r| == |ranked| && forall i :: 0 <= i < |r| ==> r[i] == ranked[i].row
  {
    seq(|ranked|, i requires 0 <= i < |ranked| => ranked[i].row)
  }

  function Result(fold: Fold, cands: seq<Candidate>, keywords: seq<Bytes>, o: Options): Output {
    var verdicts := JudgeAll(fold, cands, Normalized(fold, keywords), o);
    Output(RowsOf(Ordered(verdicts)), Tally(verdicts), FloorRows(verdicts), StandingRows(verdicts))
  }

  /** Permuting or repeating keywords, the query's or a candidate's, changes nothing. */
  lemma KeywordsAnyOrder(fold: Fold, cands: seq<Candidate>, others: seq<Candidate>, keywords: seq<Bytes>,
                         other: seq<Bytes>, o: Options)
    requires forall k :: k in keywords <==> k in other
    requires |cands| == |others|
    requires forall i :: 0 <= i < |cands| ==>
               && others[i] == cands[i].(keywords := others[i].keywords)
               && forall k :: k in cands[i].keywords <==> k in others[i].keywords
    ensures Result(fold, cands, keywords, o) == Result(fold, others, other, o)
  {
    SameKeywords(fold, keywords, other);
    var query := Normalized(fold, keywords);
    forall i | 0 <= i < |cands| ensures Judge(fold, cands[i], query, o) == Judge(fold, others[i], query, o) {
      SameKeywords(fold, cands[i].keywords, others[i].keywords);
    }
    assert JudgeAll(fold, cands, query, o) == JudgeAll(fold, others, query, o);
  }

  // ----- the loop -----

  lemma VerdictSnoc(verdicts: seq<Verdict>, i: nat)
    requires i < |verdicts|
    ensures verdicts[..i + 1][..i] == verdicts[..i] && verdicts[..i + 1][i] == verdicts[i]
  {
  }

  method CapBoost(gammaBoost: real, vectorScore: real, o: Options) returns (cappedBoost: real)
    ensures cappedBoost == Capped(gammaBoost, vectorScore, o)
  {
    cappedBoost := gammaBoost;
    if o.delta > 0.0 {
      var deltaCap := o.delta * vectorScore;
      if deltaCap < cappedBoost {
        cappedBoost := deltaCap;
      }
    }
  }

  method Adjust(combined: real, c: Candidate, o: Options) returns (final: real)
    ensures final == Freshened(AfterDenials(combined, c.pendingDenials), c.age, o)
  {
    final := combined;
    if c.pendingDenials > 0 {
      final := Max(0.0, final - c.pendingDenials as real * 0.05);
    }
    if o.newMemBoost && final > 0.0 {
      var window := o.grace + o.boostWindow;
      var fraction := 0.0;
      if window > 0.0 {
        fraction := Max(0.0, 1.0 - c.age as real / window);
      }
      final := final * (1.0 + o.newMemMult * fraction);
    }
  }

  method ScoreOne(fold: Fold, c: Candidate, query: seq<Bytes>, o: Options) returns (verdict: Verdict)
    ensures verdict == Judge(fold, c, query, o)
  {
    hide Share, Matched, Unmatched, Normalized, Fraction, Capped, Freshened, AfterDenials;
    if c.archived || c.standingBps <= o.standingThresholdBps {
      return Standing(c.id, c.vectorScore);
    }
    if c.vectorScore <= 0.0 {
      return Vector;
    }
    var candidateKeywords := NormalizeKeywords(fold, c.keywords);
    var overlap, matched := KeywordOverlap(candidateKeywords, query);
    if o.gate && |query| > 0 && |matched| == 0 {
      return Gate;
    }
    var standingFactor := c.standingBps as real / 10000.0;
    var gammaBoost := o.keywordBoostFactor * overlap * standingFactor;
    assert gammaBoost == GammaBoost(overlap, c.standingBps, o);
    var cappedBoost := CapBoost(gammaBoost, c.vectorScore, o);
    var final := c.vectorScore + cappedBoost;
    var unmatched := UnmatchedQueryKeywords(query, matched);
    if o.floor > 0.0 && final < o.floor {
      return Floor(Row(c.id, final, c.vectorScore, overlap, o.keywordBoostFactor, o.delta, cappedBoost, matched, unmatched));
    }
    final := Adjust(final, c, o);
    return Kept(Row(c.id, final, c.vectorScore, overlap, o.keywordBoostFactor, o.delta, cappedBoost, matched, unmatched));
  }

  method ScoreAndRank(fold: Fold, cands: seq<Candidate>, keywords: seq<Bytes>, o: Options) returns (output: Output)
    ensures output == Result(fold, cands, keywords, o)
    ensures output.drops.kept == |output.rows| && output.drops.total == |cands|
  {
    hide Judge, Normalized, Sort;
    var query := NormalizeKeywords(fold, keywords);
    ghost var verdicts := JudgeAll(fold, cands, query, o);
    var rows: seq<Ranked> := [];
    var floorDropped: seq<Row> := [];
    var standingDropped: seq<(Bytes, real)> := [];
    var drops := Drops(0, 0, 0, |cands|, 0, 0);
    var i := 0;
    while i < |cands|
      invariant i <= |cands|
      invariant rows == KeptRows(verdicts[..i]) && floorDropped == FloorRows(verdicts[..i])
      invariant standingDropped == StandingRows(verdicts[..i])
      invariant drops == Tally(verdicts[..i]).(kept := 0, total := |cands|)
    {
      VerdictSnoc(verdicts, i);
      var verdict := ScoreOne(fold, cands[i], query, o);
      match verdict {
        case Standing(id, score) =>
          standingDropped := standingDropped + [(id, score)];
          drops := drops.(standing := drops.standing + 1);
        case Vector => drops := drops.(vector := drops.vector + 1);
        case Gate => drops := drops.(gate := drops.gate + 1);
        case Floor(row) =>
          floorDropped := floorDropped + [row];
          drops := drops.(floor := drops.floor + 1);
        case Kept(row) => rows := rows + [Ranked(row, i)];
      }
      i := i + 1;
    }
    assert verdicts[..i] == verdicts;
    CountersAddUp(verdicts);
    var sorted := Sort(Order(), rows);
    var outputRows := RowsInOrder(sorted);
    SortLength(rows);
    output := Output(outputRows, drops.(kept := |outputRows|), floorDropped, standingDropped);
  }

  method RowsInOrder(sorted: seq<Ranked>) returns (outputRows: seq<Row>)
    ensures outputRows == RowsOf(sorted)
  {
    outputRows := [];
    var i := 0;
    while i < |sorted|
      invariant i <= |sorted| && outputRows == RowsOf(sorted[..i])
    {
      outputRows := outputRows + [sorted[i].row];
      i := i + 1;
    }
    assert sorted[..i] == sorted;
  }

  lemma SortLength(rows: seq<Ranked>)
    ensures |Sort(Order(), rows)| == |rows|
  {
  }
}
