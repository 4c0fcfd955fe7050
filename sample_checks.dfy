/** What the views make of the sample portfolio: the figures the dashboard
    shows for it, the lookups, and the order of each loan's timeline. */
module SampleChecks {
  import opened Types
  import opened Sequences
  import opened Constants
  import opened Dashboard
  import opened LoanDetail

  /** The portfolio and its covenants, each list with its suffixes spelled
      out so that the recursive definitions unfold one element at a time. */
  lemma Suffixes()
    ensures MockLoans[1..] == [Helios, Omni] && MockLoans[1..][1..] == [Omni]
    ensures MockLoans[1..][1..][1..] == []
    ensures AllCovenants(MockLoans) == [Cov1, Cov2, Cov3, Cov4, Cov5]
    ensures ScoreSum(MockLoans) == 270
  {
    var l1, l2: seq<Loan> := [Helios, Omni], [Omni];
    assert l2[1..] == [];
    assert AllCovenants(l2) == [] && ScoreSum(l2) == 100;
    assert l1[1..] == l2;
    assert AllCovenants(l1) == [Cov4, Cov5] && ScoreSum(l1) == 178;
    assert MockLoans[1..] == l1;
  }

  lemma StatusCounts()
    ensures CountStatus([Cov1, Cov2, Cov3, Cov4, Cov5], AtRisk) == 1
    ensures CountStatus([Cov1, Cov2, Cov3, Cov4, Cov5], Breached) == 1
  {
    var c5, c4, c3, c2: seq<Covenant> := [Cov5], [Cov4, Cov5], [Cov3, Cov4, Cov5], [Cov2, Cov3, Cov4, Cov5];
    assert c5[1..] == [];
    assert c4[1..] == c5 && c3[1..] == c4 && c2[1..] == c3;
    assert [Cov1, Cov2, Cov3, Cov4, Cov5][1..] == c2;
    assert CountStatus(c5, AtRisk) == 0 && CountStatus(c5, Breached) == 1;
    assert CountStatus(c4, AtRisk) == 0 && CountStatus(c4, Breached) == 1;
    assert CountStatus(c3, AtRisk) == 0 && CountStatus(c3, Breached) == 1;
    assert CountStatus(c2, AtRisk) == 1 && CountStatus(c2, Breached) == 1;
  }

  /** Three loans, five covenants of which two are At Risk or Breached and
      one is Breached; the average of 92, 78 and 100 is 90. */
  lemma SampleSummary()
    ensures Summarize(MockLoans) == PortfolioSummary(3, 5, 2, 1, 90)
  {
    Suffixes();
    StatusCounts();
    SummarizeSpec(MockLoans);
    assert AverageScore(MockLoans) == 90 by {
      assert IsRoundedQuotient(90, 270, 3);
      RoundedQuotientUnique(AverageScore(MockLoans), 90, 270, 3);
    }
  }

  /** The ring shows three Compliant, one At Risk and one Breached: the
      Upcoming covenant is drawn as Compliant, and no bucket is dropped. */
  lemma SampleRing()
    ensures [RingData(Summarize(MockLoans))[0].value, RingData(Summarize(MockLoans))[1].value,
             RingData(Summarize(MockLoans))[2].value] == [3, 1, 1]
    ensures |ChartData(RingData(Summarize(MockLoans)))| == 3
  {
    SampleSummary();
    var ring := RingData(Summarize(MockLoans));
    assert ring[0].value == 3 && ring[1].value == 1 && ring[2].value == 1;
    assert ring[1..][1..][1..] == [];
    assert !(forall i :: 0 <= i < |ring| ==> ring[i].value == 0) by {
      assert ring[0].value != 0;
    }
    assert Filter(ring, IsPositive) == [ring[0]] + ([ring[1]] + ([ring[2]] + Filter([], IsPositive)));
  }

  /** Each loan's card and the portfolio's health bar. */
  lemma SampleBands()
    ensures CardBand(Acme.complianceScore) == High
    ensures CardBand(Helios.complianceScore) == Medium
    ensures CardBand(Omni.complianceScore) == High
    ensures HealthTier(Summarize(MockLoans).avgScore) == High
  {
    SampleSummary();
  }

  /** The three ids are found; any other id is not. */
  lemma SampleLookup(loanId: string)
    ensures FindLoan(MockLoans, "ln_001") == Some(Acme)
    ensures FindLoan(MockLoans, "ln_002") == Some(Helios)
    ensures FindLoan(MockLoans, "ln_003") == Some(Omni)
    ensures loanId !in {"ln_001", "ln_002", "ln_003"} ==> FindLoan(MockLoans, loanId) == None
  {
    Suffixes();
    assert FindLoan([Omni], "ln_003") == Some(Omni);
    assert FindLoan([Helios, Omni], "ln_003") == Some(Omni);
  }

  /** The days since 1970-01-01 of the sample due dates. */
  lemma DueDays()
    ensures Cov1.dueDate == Cov2.dueDate == Cov5.dueDate == 19813 * MsPerDay
    ensures Cov3.dueDate == 19904 * MsPerDay
    ensures Cov4.dueDate == 19722 * MsPerDay
  {
    assert DaysFromCivil(2024, 3, 31) == 19813;
    assert DaysFromCivil(2024, 6, 30) == 19904;
    assert DaysFromCivil(2023, 12, 31) == 19722;
  }

  /** The sample covenants already run in due-date order within each loan,
      so each timeline keeps the listed order: for Acme the two covenants
      due on the same day stay in their listed order. */
  lemma SampleTimelines()
    ensures SortedCovenants(Acme) == [Cov1, Cov2, Cov3]
    ensures SortedCovenants(Helios) == [Cov4, Cov5]
    ensures SortedCovenants(Omni) == []
  {
    DueDays();
    assert SortedBy(Acme.covenants, DueDate);
    assert SortedBy(Helios.covenants, DueDate);
    SortSortedIdentity(Acme.covenants, DueDate);
    SortSortedIdentity(Helios.covenants, DueDate);
  }

  /** The covenant ids are unique across the portfolio, so at most one
      timeline node is ever selected. */
  lemma SampleIdsUnique()
    ensures UniqueIds(AllCovenants(MockLoans))
  {
    Suffixes();
  }
}
