/** The portfolio aggregates computed at the top of `DashboardView`
    (views/DashboardView.tsx): covenant tallies, the rounded average score,
    the ring-chart buckets, the predictive-risk and recent-activity lists,
    and the score bands of the summary card and the loan cards. The loans are
    an explicit argument. */
module Dashboard {
  import opened Types
  import opened Sequences

  predicate IsAtRiskOrBreached(c: Covenant)
  {
    c.status == AtRisk || c.status == Breached
  }

  predicate IsBreached(c: Covenant)
  {
    c.status == Breached
  }

  /** Every covenant of the portfolio, loan after loan. */
  function AllCovenants(loans: seq<Loan>): seq<Covenant>
  {
    if loans == [] then [] else loans[0].covenants + AllCovenants(loans[1..])
  }

  /** How many covenants of `cs` have status `st`. */
  function CountStatus(cs: seq<Covenant>, st: ComplianceStatus): nat
  {
    if cs == [] then 0 else (if cs[0].status == st then 1 else 0) + CountStatus(cs[1..], st)
  }

  /** `loans.reduce((acc, loan) => acc + loan.covenants.length, 0)` */
  function TotalCovenants(loans: seq<Loan>): nat
  {
    if loans == [] then 0 else |loans[0].covenants| + TotalCovenants(loans[1..])
  }

  /** The sum over loans of the covenants that are At Risk or Breached. */
  function AtRiskCovenants(loans: seq<Loan>): nat
  {
    if loans == [] then 0
    else |Filter(loans[0].covenants, IsAtRiskOrBreached)| + AtRiskCovenants(loans[1..])
  }

  /** The sum over loans of the covenants that are Breached. */
  function BreachedCovenants(loans: seq<Loan>): nat
  {
    if loans == [] then 0
    else |Filter(loans[0].covenants, IsBreached)| + BreachedCovenants(loans[1..])
  }

  function ScoreSum(loans: seq<Loan>): int
  {
    if loans == [] then 0 else loans[0].complianceScore + ScoreSum(loans[1..])
  }

  lemma {:induction false} CountStatusAppend(a: seq<Covenant>, b: seq<Covenant>, st: ComplianceStatus)
    ensures CountStatus(a + b, st) == CountStatus(a, st) + CountStatus(b, st)
  {
    if a != [] {
      assert (a + b)[0] == a[0] && (a + b)[1..] == a[1..] + b;
      CountStatusAppend(a[1..], b, st);
    } else {
      assert a + b == b;
    }
  }

  /** Within one covenant list: the filters count statuses, and the four
      statuses partition the list. */
  lemma {:induction false} LoanCounts(cs: seq<Covenant>)
    ensures |Filter(cs, IsAtRiskOrBreached)| == CountStatus(cs, AtRisk) + CountStatus(cs, Breached)
    ensures |Filter(cs, IsBreached)| == CountStatus(cs, Breached)
    ensures |cs| == CountStatus(cs, Compliant) + CountStatus(cs, AtRisk)
                  + CountStatus(cs, Breached) + CountStatus(cs, Upcoming)
  {
    if cs != [] {
      LoanCounts(cs[1..]);
    }
  }

  /** The three reductions count, over all covenants of the portfolio, the
      covenants of all statuses, of status At Risk or Breached, and of status
      Breached. */
  lemma {:induction false} PortfolioCounts(loans: seq<Loan>)
    ensures TotalCovenants(loans) == |AllCovenants(loans)|
    ensures AtRiskCovenants(loans)
         == CountStatus(AllCovenants(loans), AtRisk) + CountStatus(AllCovenants(loans), Breached)
    ensures BreachedCovenants(loans) == CountStatus(AllCovenants(loans), Breached)
    ensures TotalCovenants(loans)
         == CountStatus(AllCovenants(loans), Compliant) + CountStatus(AllCovenants(loans), AtRisk)
          + CountStatus(AllCovenants(loans), Breached) + CountStatus(AllCovenants(loans), Upcoming)
  {
    if loans != [] {
      PortfolioCounts(loans[1..]);
      LoanCounts(loans[0].covenants);
      forall st: ComplianceStatus
        ensures CountStatus(AllCovenants(loans), st)
             == CountStatus(loans[0].covenants, st) + CountStatus(AllCovenants(loans[1..]), st)
      {
        CountStatusAppend(loans[0].covenants, AllCovenants(loans[1..]), st);
      }
    }
  }

  /** `r` is `s / n` rounded to the nearest integer with halves rounded up,
      as `Math.round` does: `r - 1/2 <= s/n < r + 1/2`. */
  predicate IsRoundedQuotient(r: int, s: int, n: int)
  {
    n * (2 * r - 1) <= 2 * s < n * (2 * r + 1)
  }

  /** `Math.round(s / n)` for integers, in integer arithmetic. */
  function RoundedQuotient(s: int, n: int): (r: int)
    requires n > 0
    ensures IsRoundedQuotient(r, s, n)
  {
    var r := (2 * s + n) / (2 * n);
    var rem := (2 * s + n) % (2 * n);
    assert 2 * s + n == 2 * n * r + rem && 0 <= rem < 2 * n;
    assert n * (2 * r - 1) == 2 * n * r - n;
    assert n * (2 * r + 1) == 2 * n * r + n;
    r
  }

  /** Only one integer is the rounded quotient. */
  lemma RoundedQuotientUnique(r: int, r': int, s: int, n: int)
    requires n > 0
    requires IsRoundedQuotient(r, s, n) && IsRoundedQuotient(r', s, n)
    ensures r == r'
  {
    if r < r' {
      assert n * (2 * r + 1) <= n * (2 * r' - 1) by {
        assert 2 * r + 1 <= 2 * r' - 1;
        MulMonotone(n, 2 * r + 1, 2 * r' - 1);
      }
    } else if r' < r {
      assert n * (2 * r' + 1) <= n * (2 * r - 1) by {
        MulMonotone(n, 2 * r' + 1, 2 * r - 1);
      }
    }
  }

  lemma MulMonotone(n: int, a: int, b: int)
    requires n > 0 && a <= b
    ensures n * a <= n * b
  {
    assert n * b - n * a == n * (b - a);
  }

  /** `avgScore`: the rounded mean compliance score, and 0 for an empty
      portfolio. */
  function AverageScore(loans: seq<Loan>): (r: int)
    ensures |loans| == 0 ==> r == 0
    ensures |loans| > 0 ==> IsRoundedQuotient(r, ScoreSum(loans), |loans|)
  {
    if |loans| > 0 then RoundedQuotient(ScoreSum(loans), |loans|) else 0
  }

  predicate ScoresInRange(loans: seq<Loan>)
  {
    forall i :: 0 <= i < |loans| ==> 0 <= loans[i].complianceScore <= 100
  }

  lemma {:induction false} ScoreSumBounds(loans: seq<Loan>)
    requires ScoresInRange(loans)
    ensures 0 <= ScoreSum(loans) <= 100 * |loans|
  {
    if loans != [] {
      assert ScoresInRange(loans[1..]) by {
        forall i | 0 <= i < |loans[1..]| ensures 0 <= loans[1..][i].complianceScore <= 100 {
          assert loans[1..][i] == loans[i + 1];
        }
      }
      ScoreSumBounds(loans[1..]);
    }
  }

  /** When every score is in 0..100, so is the average. */
  lemma AverageScoreInRange(loans: seq<Loan>)
    requires ScoresInRange(loans)
    ensures 0 <= AverageScore(loans) <= 100
  {
    if |loans| > 0 {
      var n, s, r := |loans|, ScoreSum(loans), AverageScore(loans);
      ScoreSumBounds(loans);
      if r > 100 {
        MulMonotone(n, 201, 2 * r - 1);
        assert false;
      }
      if r < 0 {
        MulMonotone(n, 2 * r + 1, -1);
        assert false;
      }
    }
  }

  /** The four headline numbers and the portfolio health score. */
  datatype PortfolioSummary = PortfolioSummary(
    totalLoans: nat,
    totalCovenants: nat,
    atRiskCovenants: nat,
    breachedCovenants: nat,
    avgScore: int)

  function Summarize(loans: seq<Loan>): PortfolioSummary
  {
    PortfolioSummary(|loans|, TotalCovenants(loans), AtRiskCovenants(loans),
                     BreachedCovenants(loans), AverageScore(loans))
  }

  /** The summary counts the loans, all covenants, the At Risk or Breached
      ones and the Breached ones, so the tallies are nested; an empty
      portfolio is all zeros, with no division by zero. */
  lemma SummarizeSpec(loans: seq<Loan>)
    ensures var s, all := Summarize(loans), AllCovenants(loans);
      && s.totalLoans == |loans|
      && s.totalCovenants == |all|
      && s.atRiskCovenants == CountStatus(all, AtRisk) + CountStatus(all, Breached)
      && s.breachedCovenants == CountStatus(all, Breached)
      && s.breachedCovenants <= s.atRiskCovenants <= s.totalCovenants
      && (loans == [] ==> s == PortfolioSummary(0, 0, 0, 0, 0))
  {
    PortfolioCounts(loans);
  }

  /** One entry of the ring chart. */
  datatype Slice = Slice(name: string, value: int, color: string)

  /** The inert entry drawn when there is nothing to show. */
  const EmptySlice: Slice := Slice("Empty", 1, "#334155")

  /** `ringData`. */
  function RingData(s: PortfolioSummary): seq<Slice>
  {
    [ Slice("Compliant", s.totalCovenants - s.atRiskCovenants, "#10b981"),
      Slice("At Risk", s.atRiskCovenants - s.breachedCovenants, "#f59e0b"),
      Slice("Breached", s.breachedCovenants, "#ef4444") ]
  }

  predicate IsPositive(d: Slice)
  {
    d.value > 0
  }

  /** `chartData`: the placeholder alone when every bucket is zero, else the
      positive buckets. */
  function ChartData(ring: seq<Slice>): seq<Slice>
  {
    if forall i :: 0 <= i < |ring| ==> ring[i].value == 0 then [EmptySlice] else Filter(ring, IsPositive)
  }

  function SliceSum(ds: seq<Slice>): int
  {
    if ds == [] then 0 else ds[0].value + SliceSum(ds[1..])
  }

  lemma SliceSumOfThree(a: Slice, b: Slice, c: Slice)
    ensures SliceSum([a, b, c]) == a.value + b.value + c.value
  {
    assert [c][1..] == [];
    assert SliceSum([c]) == c.value;
    assert [b, c][1..] == [c];
    assert SliceSum([b, c]) == b.value + c.value;
    assert [a, b, c][1..] == [b, c];
  }

  /** The buckets are the status counts: Compliant also holds the Upcoming
      covenants. */
  lemma RingBucketCounts(loans: seq<Loan>)
    ensures var ring := RingData(Summarize(loans)); var all := AllCovenants(loans);
      && ring[0].value == CountStatus(all, Compliant) + CountStatus(all, Upcoming)
      && ring[1].value == CountStatus(all, AtRisk)
      && ring[2].value == CountStatus(all, Breached)
  {
    SummarizeSpec(loans);
    PortfolioCounts(loans);
  }

  /** Tallies that are nested as the summary's are. */
  predicate Nested(s: PortfolioSummary)
  {
    s.breachedCovenants <= s.atRiskCovenants <= s.totalCovenants
  }

  /** No bucket is negative and together they are every covenant. */
  lemma RingPartition(s: PortfolioSummary)
    requires Nested(s)
    ensures var ring := RingData(s);
      && (forall i :: 0 <= i < |ring| ==> ring[i].value >= 0)
      && SliceSum(ring) == s.totalCovenants
  {
    var ring := RingData(s);
    SliceSumOfThree(ring[0], ring[1], ring[2]);
    assert ring == [ring[0], ring[1], ring[2]];
  }

  lemma {:induction false} FilterPositiveSum(ds: seq<Slice>)
    requires forall i :: 0 <= i < |ds| ==> ds[i].value >= 0
    ensures SliceSum(Filter(ds, IsPositive)) == SliceSum(ds)
  {
    if ds != [] {
      FilterPositiveSum(ds[1..]);
      var rest := Filter(ds[1..], IsPositive);
      if IsPositive(ds[0]) {
        assert ([ds[0]] + rest)[0] == ds[0] && ([ds[0]] + rest)[1..] == rest;
      } else {
        assert [] + rest == rest;
      }
    }
  }

  /** The chart shows the placeholder exactly when there is no covenant. */
  lemma ChartDataPlaceholder(s: PortfolioSummary)
    requires Nested(s)
    ensures ChartData(RingData(s)) == [EmptySlice] <==> s.totalCovenants == 0
  {
    var ring := RingData(s);
    RingPartition(s);
    if s.totalCovenants > 0 {
      assert ring[0].value > 0 || ring[1].value > 0 || ring[2].value > 0;
      assert ChartData(ring) == Filter(ring, IsPositive);
      assert EmptySlice !in ring;
    }
  }

  /** With covenants present, the chart shows real, positive buckets and only
      those, at most three, and they add up to the covenant count. */
  lemma ChartDataBuckets(s: PortfolioSummary)
    requires Nested(s) && s.totalCovenants > 0
    ensures var chart := ChartData(RingData(s));
      && 1 <= |chart| <= 3
      && (forall e :: e in chart <==> e in RingData(s) && e.value > 0)
      && (forall i :: 0 <= i < |chart| ==> chart[i].name != EmptySlice.name)
      && SliceSum(chart) == s.totalCovenants
  {
    var ring := RingData(s);
    RingPartition(s);
    var k := if ring[0].value > 0 then 0 else if ring[1].value > 0 then 1 else 2;
    assert ring[k].value > 0;
    var chart := ChartData(ring);
    assert chart == Filter(ring, IsPositive);
    FilterPositiveSum(ring);
    assert ring[k] in chart;
    forall i | 0 <= i < |chart| ensures chart[i].name != EmptySlice.name {
      assert chart[i] in ring;
    }
  }

  /** A bucket as the chart draws it: kept when positive, dropped otherwise. */
  function Shown(d: Slice): seq<Slice>
  {
    if d.value > 0 then [d] else []
  }

  /** When some bucket is positive, the chart keeps the ring's order:
      Compliant, then At Risk, then Breached, each only when positive. */
  lemma ChartDataOrder(s: PortfolioSummary)
    requires s.totalCovenants > s.atRiskCovenants || s.atRiskCovenants > s.breachedCovenants
          || s.breachedCovenants > 0
    ensures var ring := RingData(s);
      ChartData(ring) == Shown(ring[0]) + Shown(ring[1]) + Shown(ring[2])
  {
    var ring := RingData(s);
    assert ChartData(ring) == Filter(ring, IsPositive) by {
      assert ring[0].value != 0 || ring[1].value != 0 || ring[2].value != 0;
    }
    assert Filter(ring[2..], IsPositive) == Shown(ring[2]) by {
      assert ring[2..][1..] == [];
    }
    assert Filter(ring[1..], IsPositive) == Shown(ring[1]) + Shown(ring[2]) by {
      assert ring[1..][1..] == ring[2..];
    }
    assert Filter(ring, IsPositive) == Shown(ring[0]) + Filter(ring[1..], IsPositive);
  }

  /** For any portfolio: the ring buckets partition its covenants, and the
      chart is the placeholder exactly when it has none. */
  lemma PortfolioChart(loans: seq<Loan>)
    ensures var s := Summarize(loans);
      && (forall i :: 0 <= i < |RingData(s)| ==> RingData(s)[i].value >= 0)
      && SliceSum(RingData(s)) == |AllCovenants(loans)|
      && (ChartData(RingData(s)) == [EmptySlice] <==> |AllCovenants(loans)| == 0)
  {
    var s := Summarize(loans);
    assert Nested(s) && s.totalCovenants == |AllCovenants(loans)| by {
      SummarizeSpec(loans);
    }
    RingPartition(s);
    ChartDataPlaceholder(s);
  }

  /** A colour band of a compliance score. */
  datatype Band = High | Medium | Low

  function BandRank(b: Band): nat
  {
    match b
    case Low => 0
    case Medium => 1
    case High => 2
  }

  /** The loan card's score badge: above 85, above 60, otherwise. */
  function CardBand(score: int): (b: Band)
    ensures b == High <==> score > 85
    ensures b == Medium <==> 60 < score <= 85
    ensures b == Low <==> score <= 60
  {
    if score > 85 then High else if score > 60 then Medium else Low
  }

  /** The portfolio health figure's colour: above 80, above 60, otherwise. */
  function HealthTier(avgScore: int): (b: Band)
    ensures b == High <==> avgScore > 80
    ensures b == Medium <==> 60 < avgScore <= 80
    ensures b == Low <==> avgScore <= 60
  {
    if avgScore > 80 then High else if avgScore > 60 then Medium else Low
  }

  /** A higher score never gets a lower band, on either scale. */
  lemma BandsMonotone(a: int, b: int)
    requires a <= b
    ensures BandRank(CardBand(a)) <= BandRank(CardBand(b))
    ensures BandRank(HealthTier(a)) <= BandRank(HealthTier(b))
  {
  }

  /** The two scales disagree exactly on 81..85: high as a portfolio figure,
      medium on a loan card. */
  lemma BandsDisagreement(x: int)
    ensures HealthTier(x) != CardBand(x) <==> 80 < x <= 85
    ensures 80 < x <= 85 ==> HealthTier(x) == High && CardBand(x) == Medium
  {
  }

  /** A prediction above 50%, tagged with its loan. */
  datatype TaggedPrediction = TaggedPrediction(prediction: RiskPrediction, loanId: string, borrower: string)

  /** One loan's predictions above 50%, tagged with the loan, in their
      original order. */
  function TagPredictions(loan: Loan, ps: seq<RiskPrediction>): (r: seq<TaggedPrediction>)
    ensures forall x :: x in r <==>
      x.prediction in ps && x.prediction.probability > 50
      && x.loanId == loan.id && x.borrower == loan.borrower
  {
    if ps == [] then []
    else
      (if ps[0].probability > 50 then [TaggedPrediction(ps[0], loan.id, loan.borrower)] else [])
      + TagPredictions(loan, ps[1..])
  }

  /** Each prediction above 50% is tagged as often as it occurs. */
  lemma {:induction false} TagPredictionsMultiplicity(loan: Loan, ps: seq<RiskPrediction>)
    ensures forall x ::
      multiset(TagPredictions(loan, ps))[x]
        == if x.prediction.probability > 50 && x.loanId == loan.id && x.borrower == loan.borrower
           then multiset(ps)[x.prediction] else 0
  {
    if ps != [] {
      TagPredictionsMultiplicity(loan, ps[1..]);
      assert ps == [ps[0]] + ps[1..];
    }
  }

  /** Tagging a concatenation tags each part and keeps them in order. */
  lemma {:induction false} TagPredictionsAppend(loan: Loan, a: seq<RiskPrediction>, b: seq<RiskPrediction>)
    ensures TagPredictions(loan, a + b) == TagPredictions(loan, a) + TagPredictions(loan, b)
  {
    if a == [] {
      assert a + b == b;
    } else {
      assert (a + b)[0] == a[0] && (a + b)[1..] == a[1..] + b;
      TagPredictionsAppend(loan, a[1..], b);
    }
  }

  /** `x` is one of `loan`'s own predictions, tagged with that loan. */
  predicate PredictionOf(loan: Loan, x: TaggedPrediction)
  {
    x.loanId == loan.id && x.borrower == loan.borrower && x.prediction in OrEmpty(loan.riskPredictions)
  }

  /** The `flatMap` over loans of their tagged predictions above 50%. */
  function PredictionCandidates(loans: seq<Loan>): seq<TaggedPrediction>
  {
    if loans == [] then []
    else TagPredictions(loans[0], OrEmpty(loans[0].riskPredictions)) + PredictionCandidates(loans[1..])
  }

  /** A candidate is present exactly when it is some loan's prediction above
      50%, tagged with that loan. */
  lemma {:induction false} PredictionCandidatesMembers(loans: seq<Loan>)
    ensures forall x :: x in PredictionCandidates(loans) <==>
      x.prediction.probability > 50 && exists loan :: loan in loans && PredictionOf(loan, x)
  {
    if loans != [] {
      PredictionCandidatesMembers(loans[1..]);
      var head := TagPredictions(loans[0], OrEmpty(loans[0].riskPredictions));
      var tail := PredictionCandidates(loans[1..]);
      assert PredictionCandidates(loans) == head + tail;
      forall x: TaggedPrediction
        ensures x in head + tail <==>
          x.prediction.probability > 50 && exists loan :: loan in loans && PredictionOf(loan, x)
      {
        if x in head {
          assert loans[0] in loans && PredictionOf(loans[0], x);
        } else if x in tail {
          var loan :| loan in loans[1..] && PredictionOf(loan, x);
          assert loan in loans;
        }
        if x.prediction.probability > 50 && exists loan :: loan in loans && PredictionOf(loan, x) {
          var loan :| loan in loans && PredictionOf(loan, x);
          if loan != loans[0] {
            assert loan in loans[1..];
          }
        }
      }
    }
  }

  /** The candidates of a concatenation of portfolios are those of the first
      followed by those of the second, as the `flatMap` concatenates loan by
      loan. */
  lemma {:induction false} PredictionCandidatesAppend(a: seq<Loan>, b: seq<Loan>)
    ensures PredictionCandidates(a + b) == PredictionCandidates(a) + PredictionCandidates(b)
  {
    if a == [] {
      assert a + b == b;
    } else {
      var head := TagPredictions(a[0], OrEmpty(a[0].riskPredictions));
      assert (a + b)[0] == a[0] && (a + b)[1..] == a[1..] + b;
      assert PredictionCandidates(a + b) == head + PredictionCandidates(a[1..] + b);
      PredictionCandidatesAppend(a[1..], b);
      assert PredictionCandidates(a) == head + PredictionCandidates(a[1..]);
      ConcatAssociative(head, PredictionCandidates(a[1..]), PredictionCandidates(b));
    }
  }

  function NegProbability(x: TaggedPrediction): int
  {
    -x.prediction.probability
  }

  /** `highRiskPredictions`. */
  function HighRiskPredictions(loans: seq<Loan>): seq<TaggedPrediction>
  {
    Take(SortBy(PredictionCandidates(loans), NegProbability), 3)
  }

  /** The three most probable of any candidate list, most probable first. */
  lemma MostProbable(cands: seq<TaggedPrediction>)
    ensures var r := Take(SortBy(cands, NegProbability), 3);
      && |r| == (if |cands| <= 3 then |cands| else 3)
      && (forall i, j :: 0 <= i < j < |r| ==> r[i].prediction.probability >= r[j].prediction.probability)
      && multiset(r) <= multiset(cands)
  {
    var r := Take(SortBy(cands, NegProbability), 3);
    assert |r| == (if |cands| <= 3 then |cands| else 3) && multiset(r) <= multiset(cands)
        && SortedBy(r, NegProbability) by {
      TopBy(cands, NegProbability, 3);
    }
    forall i, j | 0 <= i < j < |r| ensures r[i].prediction.probability >= r[j].prediction.probability {
      assert NegProbability(r[i]) <= NegProbability(r[j]);
    }
  }

  /** A candidate that the three most probable leave out is no more probable
      than the third. */
  lemma LessProbableLeftOut(cands: seq<TaggedPrediction>)
    ensures var r := Take(SortBy(cands, NegProbability), 3);
      forall x :: x in multiset(cands) - multiset(r) ==>
        |r| == 3 && x.prediction.probability <= r[2].prediction.probability
  {
    var r := Take(SortBy(cands, NegProbability), 3);
    assert forall x :: x in multiset(cands) - multiset(r) ==> |r| == 3 && NegProbability(r[2]) <= NegProbability(x) by {
      TopBy(cands, NegProbability, 3);
    }
  }

  /** The predictive-risk list holds the three most probable predictions
      above 50% (fewer when there are fewer), most probable first; whatever it
      leaves out is no more probable than its last entry. */
  lemma HighRiskPredictionsTop(loans: seq<Loan>)
    ensures var r, cands := HighRiskPredictions(loans), PredictionCandidates(loans);
      && |r| == (if |cands| <= 3 then |cands| else 3)
      && (forall i, j :: 0 <= i < j < |r| ==> r[i].prediction.probability >= r[j].prediction.probability)
      && multiset(r) <= multiset(cands)
      && (forall x :: x in multiset(cands) - multiset(r) ==>
            |r| == 3 && x.prediction.probability <= r[2].prediction.probability)
  {
    var cands := PredictionCandidates(loans);
    assert HighRiskPredictions(loans) == Take(SortBy(cands, NegProbability), 3);
    MostProbable(cands);
    LessProbableLeftOut(cands);
  }

  /** Every listed prediction is above 50% and carries the id and borrower of
      the loan it came from. */
  lemma HighRiskPredictionsTagged(loans: seq<Loan>)
    ensures forall x :: x in HighRiskPredictions(loans) ==>
      x.prediction.probability > 50 && exists loan :: loan in loans && PredictionOf(loan, x)
  {
    var r := HighRiskPredictions(loans);
    var t := SortBy(PredictionCandidates(loans), NegProbability);
    PredictionCandidatesMembers(loans);
    forall x | x in r ensures x in PredictionCandidates(loans) {
      assert x in t;
      assert x in multiset(t);
    }
  }

  /** An activity entry tagged with its loan. */
  datatype TaggedEvent = TaggedEvent(event: TimelineEvent, loanId: string, borrower: string)

  /** One loan's activity entries, each tagged with the loan, position by
      position. */
  function TagEvents(loan: Loan, es: seq<TimelineEvent>): (r: seq<TaggedEvent>)
    ensures |r| == |es|
    ensures forall i :: 0 <= i < |r| ==> r[i] == TaggedEvent(es[i], loan.id, loan.borrower)
    ensures forall x :: x in r <==> x.event in es && x.loanId == loan.id && x.borrower == loan.borrower
  {
    if es == [] then [] else [TaggedEvent(es[0], loan.id, loan.borrower)] + TagEvents(loan, es[1..])
  }

  /** Each entry is tagged as often as it occurs. */
  lemma {:induction false} TagEventsMultiplicity(loan: Loan, es: seq<TimelineEvent>)
    ensures forall x ::
      multiset(TagEvents(loan, es))[x]
        == if x.loanId == loan.id && x.borrower == loan.borrower then multiset(es)[x.event] else 0
  {
    if es != [] {
      TagEventsMultiplicity(loan, es[1..]);
      assert es == [es[0]] + es[1..];
    }
  }

  /** `x` is one of `loan`'s own activity entries, tagged with that loan. */
  predicate EventOf(loan: Loan, x: TaggedEvent)
  {
    x.loanId == loan.id && x.borrower == loan.borrower && x.event in OrEmpty(loan.timelineEvents)
  }

  /** The `flatMap` over loans of their tagged activity entries. */
  function EventCandidates(loans: seq<Loan>): seq<TaggedEvent>
  {
    if loans == [] then []
    else TagEvents(loans[0], OrEmpty(loans[0].timelineEvents)) + EventCandidates(loans[1..])
  }

  /** A candidate is present exactly when it is some loan's activity entry,
      tagged with that loan. */
  lemma {:induction false} EventCandidatesMembers(loans: seq<Loan>)
    ensures forall x :: x in EventCandidates(loans) <==> exists loan :: loan in loans && EventOf(loan, x)
  {
    if loans != [] {
      EventCandidatesMembers(loans[1..]);
      var head := TagEvents(loans[0], OrEmpty(loans[0].timelineEvents));
      var tail := EventCandidates(loans[1..]);
      assert EventCandidates(loans) == head + tail;
      forall x: TaggedEvent
        ensures x in head + tail <==> exists loan :: loan in loans && EventOf(loan, x)
      {
        if x in head {
          assert loans[0] in loans && EventOf(loans[0], x);
        } else if x in tail {
          var loan :| loan in loans[1..] && EventOf(loan, x);
          assert loan in loans;
        }
        if exists loan :: loan in loans && EventOf(loan, x) {
          var loan :| loan in loans && EventOf(loan, x);
          if loan != loans[0] {
            assert loan in loans[1..];
          }
        }
      }
    }
  }

  /** The candidates of a concatenation of portfolios are those of the first
      followed by those of the second. */
  lemma {:induction false} EventCandidatesAppend(a: seq<Loan>, b: seq<Loan>)
    ensures EventCandidates(a + b) == EventCandidates(a) + EventCandidates(b)
  {
    if a == [] {
      assert a + b == b;
    } else {
      var head := TagEvents(a[0], OrEmpty(a[0].timelineEvents));
      assert (a + b)[0] == a[0] && (a + b)[1..] == a[1..] + b;
      assert EventCandidates(a + b) == head + EventCandidates(a[1..] + b);
      EventCandidatesAppend(a[1..], b);
      assert EventCandidates(a) == head + EventCandidates(a[1..]);
      ConcatAssociative(head, EventCandidates(a[1..]), EventCandidates(b));
    }
  }

  function NegDate(x: TaggedEvent): int
  {
    -x.event.date
  }

  /** `recentEvents`. */
  function RecentEvents(loans: seq<Loan>): seq<TaggedEvent>
  {
    Take(SortBy(EventCandidates(loans), NegDate), 5)
  }

  /** The activity list holds the five newest entries (fewer when there are
      fewer), newest first; whatever it leaves out is no newer than its last
      entry. */
  lemma RecentEventsTop(loans: seq<Loan>)
    ensures var r, cands := RecentEvents(loans), EventCandidates(loans);
      && |r| == (if |cands| <= 5 then |cands| else 5)
      && (forall i, j :: 0 <= i < j < |r| ==> r[i].event.date >= r[j].event.date)
      && multiset(r) <= multiset(cands)
      && (forall x :: x in multiset(cands) - multiset(r) ==> |r| == 5 && x.event.date <= r[4].event.date)
  {
    var cands := EventCandidates(loans);
    var r := RecentEvents(loans);
    TopBy(cands, NegDate, 5);
    forall i, j | 0 <= i < j < |r| ensures r[i].event.date >= r[j].event.date {
      assert NegDate(r[i]) <= NegDate(r[j]);
    }
    forall x | x in multiset(cands) - multiset(r) ensures |r| == 5 && x.event.date <= r[4].event.date {
      assert NegDate(r[4]) <= NegDate(x);
    }
  }

  /** Every listed entry carries the id and borrower of the loan it came from. */
  lemma RecentEventsTagged(loans: seq<Loan>)
    ensures forall x :: x in RecentEvents(loans) ==> exists loan :: loan in loans && EventOf(loan, x)
  {
    var r := RecentEvents(loans);
    var t := SortBy(EventCandidates(loans), NegDate);
    EventCandidatesMembers(loans);
    forall x | x in r ensures x in EventCandidates(loans) {
      assert x in t;
      assert x in multiset(t);
    }
  }
}
