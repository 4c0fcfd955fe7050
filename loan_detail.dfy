/** The per-loan detail screen (views/LoanDetailView.tsx): the loan lookup,
    the covenant timeline derived on every render, and the screen's state,
    which the covenant clicks, the tab switch and the two text responses
    update. */
module LoanDetail {
  import opened Types
  import opened Sequences
  import Constants

  /** `loans.find(l => l.id === loanId)`: the first loan with that id. */
  function FindLoan(loans: seq<Loan>, loanId: string): (r: Option<Loan>)
    ensures r.None? <==> forall i :: 0 <= i < |loans| ==> loans[i].id != loanId
    ensures r.Some? ==> exists i :: 0 <= i < |loans| && loans[i] == r.value && loans[i].id == loanId
                          && forall j :: 0 <= j < i ==> loans[j].id != loanId
  {
    if loans == [] then None
    else if loans[0].id == loanId then Some(loans[0])
    else
      var r := FindLoan(loans[1..], loanId);
      if r.Some? then
        var i :| 0 <= i < |loans[1..]| && loans[1..][i] == r.value && loans[1..][i].id == loanId
                 && forall j :: 0 <= j < i ==> loans[1..][j].id != loanId;
        assert loans[i + 1] == r.value && forall j :: 0 <= j < i + 1 ==> loans[j].id != loanId by {
          forall j | 0 <= j < i + 1 ensures loans[j].id != loanId {
            if j > 0 {
              assert loans[j] == loans[1..][j - 1];
            }
          }
        }
        r
      else
        assert forall i :: 0 <= i < |loans| ==> loans[i].id != loanId by {
          forall i | 0 <= i < |loans| ensures loans[i].id != loanId {
            if i > 0 {
              assert loans[i] == loans[1..][i - 1];
            }
          }
        }
        r
  }

  function DueDate(c: Covenant): int
  {
    c.dueDate
  }

  /** `[...loan.covenants].sort((a, b) => dueTime(a) - dueTime(b))`: the
      loan's covenants ordered by due date, on a copy, so the loan is left as
      it was. */
  function SortedCovenants(loan: Loan): seq<Covenant>
  {
    SortBy(loan.covenants, DueDate)
  }

  /** The timeline is a reordering of the loan's covenants by non-decreasing
      due date; covenants due on the same date keep their order; and the
      order is already sorted, so sorting it again changes nothing. */
  lemma SortedCovenantsSpec(loan: Loan)
    ensures var t := SortedCovenants(loan);
      && multiset(t) == multiset(loan.covenants)
      && (forall i, j :: 0 <= i < j < |t| ==> t[i].dueDate <= t[j].dueDate)
      && (forall d :: WithKey(t, DueDate, d) == WithKey(loan.covenants, DueDate, d))
      && SortBy(t, DueDate) == t
  {
    var t := SortedCovenants(loan);
    forall i, j | 0 <= i < j < |t| ensures t[i].dueDate <= t[j].dueDate {
      assert DueDate(t[i]) <= DueDate(t[j]);
    }
    forall d ensures WithKey(t, DueDate, d) == WithKey(loan.covenants, DueDate, d) {
      SortStable(loan.covenants, DueDate, d);
    }
    SortIdempotent(loan.covenants, DueDate);
  }

  /** The colour of a timeline node. */
  datatype NodeColor = Emerald | Amber | Red | Slate

  /** `statusColor`: slate unless one of the three checks overrides it. */
  function StatusColor(status: ComplianceStatus): (c: NodeColor)
    ensures c == Emerald <==> status == Compliant
    ensures c == Amber <==> status == AtRisk
    ensures c == Red <==> status == Breached
    ensures c == Slate <==> status != Compliant && status != AtRisk && status != Breached
  {
    var c := Slate;
    var c := if status == Compliant then Emerald else c;
    var c := if status == AtRisk then Amber else c;
    if status == Breached then Red else c
  }

  /** Distinct statuses get distinct colours. */
  lemma StatusColorInjective(a: ComplianceStatus, b: ComplianceStatus)
    requires a != b
    ensures StatusColor(a) != StatusColor(b)
  {
  }

  /** One rendered node of the timeline. */
  datatype TimelineEntry = TimelineEntry(covenant: Covenant, isSelected: bool, isPast: bool, color: NodeColor)
  {
    /** The card is dimmed when its date has passed and it is not selected. */
    predicate Faded()
    {
      isPast && !isSelected
    }
  }

  /** `selectedCovenant?.id === cov.id` */
  predicate IsSelected(selected: Option<Covenant>, c: Covenant)
  {
    selected.Some? && selected.value.id == c.id
  }

  /** `new Date(cov.dueDate) < new Date()`, with the clock read as `now`. */
  predicate IsPast(c: Covenant, now: Timestamp)
  {
    c.dueDate < now
  }

  function Entry(c: Covenant, selected: Option<Covenant>, now: Timestamp): TimelineEntry
  {
    TimelineEntry(c, IsSelected(selected, c), IsPast(c, now), StatusColor(c.status))
  }

  /** The nodes of the timeline, one per sorted covenant. */
  function Timeline(loan: Loan, selected: Option<Covenant>, now: Timestamp): (r: seq<TimelineEntry>)
    ensures |r| == |loan.covenants|
    ensures forall i :: 0 <= i < |r| ==> r[i] == Entry(SortedCovenants(loan)[i], selected, now)
  {
    var s := SortedCovenants(loan);
    seq(|s|, i requires 0 <= i < |s| => Entry(s[i], selected, now))
  }

  /** The covenants on the timeline are exactly the loan's own. */
  lemma TimelineCovenants(loan: Loan, selected: Option<Covenant>, now: Timestamp)
    ensures var r := Timeline(loan, selected, now);
      multiset(seq(|r|, i requires 0 <= i < |r| => r[i].covenant)) == multiset(loan.covenants)
  {
    var r := Timeline(loan, selected, now);
    var cs := seq(|r|, i requires 0 <= i < |r| => r[i].covenant);
    assert cs == SortedCovenants(loan);
  }

  /** Because the timeline is in date order, the past entries come first. */
  lemma PastEntriesFirst(loan: Loan, selected: Option<Covenant>, now: Timestamp)
    ensures var r := Timeline(loan, selected, now);
      forall i, j :: 0 <= i < j < |r| && r[j].isPast ==> r[i].isPast
  {
    var r := Timeline(loan, selected, now);
    SortedCovenantsSpec(loan);
    forall i, j | 0 <= i < j < |r| && r[j].isPast ensures r[i].isPast {
      assert r[i].covenant == SortedCovenants(loan)[i];
      assert r[j].covenant == SortedCovenants(loan)[j];
    }
  }

  /** An entry is faded exactly when it is past and not selected. */
  lemma FadedEntries(loan: Loan, selected: Option<Covenant>, now: Timestamp)
    ensures var r := Timeline(loan, selected, now);
      forall i :: 0 <= i < |r| ==>
        (r[i].Faded() <==> r[i].covenant.dueDate < now && !IsSelected(selected, r[i].covenant))
  {
  }

  predicate UniqueIds(cs: seq<Covenant>)
  {
    forall i, j :: 0 <= i < j < |cs| ==> cs[i].id != cs[j].id
  }

  function CovenantId(c: Covenant): string
  {
    c.id
  }

  /** With unique covenant ids, at most one node is highlighted. */
  lemma AtMostOneSelected(loan: Loan, selected: Option<Covenant>, now: Timestamp)
    requires UniqueIds(loan.covenants)
    ensures var r := Timeline(loan, selected, now);
      forall i, j :: 0 <= i < |r| && 0 <= j < |r| && r[i].isSelected && r[j].isSelected ==> i == j
  {
    var r := Timeline(loan, selected, now);
    var s := SortedCovenants(loan);
    assert Distinct(loan.covenants, CovenantId) by {
      forall i, j | 0 <= i < j < |loan.covenants|
        ensures CovenantId(loan.covenants[i]) != CovenantId(loan.covenants[j])
      {
      }
    }
    SortDistinct(loan.covenants, DueDate, CovenantId);
    assert forall i, j :: 0 <= i < j < |s| ==> s[i].id != s[j].id;
    forall i, j | 0 <= i < |r| && 0 <= j < |r| && r[i].isSelected && r[j].isSelected ensures i == j {
      assert r[i].covenant == s[i] && r[j].covenant == s[j];
    }
  }

  /** The two tabs of the detail screen. */
  datatype Tab = SnapshotTab | TimelineTab

  /** What the side panel's analysis box shows. */
  datatype Analysis = Analyzing | Explanation(text: string)

  /** The side panel: the selected covenant and its analysis box. */
  datatype Panel = Panel(covenant: Covenant, analysis: Analysis)

  /** What the screen renders. */
  datatype Screen =
    | NotFound
    | SnapshotScreen(loan: Loan, summary: string, loadingSummary: bool)
    | TimelineScreen(loan: Loan, entries: seq<TimelineEntry>, panel: Option<Panel>)

  /** The state of one mounted detail screen. `loan` is looked up once per
      loan id; the six fields are the component's state hooks. */
  class DetailState {
    const loan: Option<Loan>
    var activeTab: Tab
    var summary: string
    var loadingSummary: bool
    var selectedCovenant: Option<Covenant>
    var aiExplanation: string
    var loadingExplanation: bool

    /** Mounting the screen for `loanId`: the timeline tab, nothing selected,
        no text, nothing loading. */
    constructor (loanId: string)
      ensures loan == FindLoan(Constants.MockLoans, loanId)
      ensures activeTab == TimelineTab && summary == "" && !loadingSummary
      ensures selectedCovenant == None && aiExplanation == "" && !loadingExplanation
    {
      loan := FindLoan(Constants.MockLoans, loanId);
      activeTab := TimelineTab;
      summary := "";
      loadingSummary := false;
      selectedCovenant := None;
      aiExplanation := "";
      loadingExplanation := false;
    }

    /** `handleCovenantClick`. Clicking the selected covenant (same id)
        clears the selection and touches nothing else; clicking any other
        covenant selects it, clears the explanation, marks it loading and
        requests an explanation of it, returned in `request`. */
    method ClickCovenant(c: Covenant) returns (request: Option<Covenant>)
      modifies this
      ensures IsSelected(old(selectedCovenant), c) ==>
        && selectedCovenant == None && request == None
        && aiExplanation == old(aiExplanation) && loadingExplanation == old(loadingExplanation)
      ensures !IsSelected(old(selectedCovenant), c) ==>
        && selectedCovenant == Some(c) && request == Some(c)
        && aiExplanation == "" && loadingExplanation
      ensures activeTab == old(activeTab) && summary == old(summary) && loadingSummary == old(loadingSummary)
    {
      if selectedCovenant.Some? && selectedCovenant.value.id == c.id {
        selectedCovenant := None;
        return None;
      }
      selectedCovenant := Some(c);
      loadingExplanation := true;
      aiExplanation := "";
      request := Some(c);
    }

    /** The awaited explanation arrives. It is written unconditionally,
        whichever covenant is selected now, or none. */
    method ExplanationArrives(text: string)
      modifies this
      ensures aiExplanation == text && !loadingExplanation
      ensures selectedCovenant == old(selectedCovenant)
      ensures activeTab == old(activeTab) && summary == old(summary) && loadingSummary == old(loadingSummary)
    {
      aiExplanation := text;
      loadingExplanation := false;
    }

    /** Choosing a tab. The summary effect runs when the tab actually
        changes to the snapshot tab and the loan exists: it marks the summary
        loading and requests it (`requested`). Choosing the current tab again
        changes nothing. */
    method SelectTab(tab: Tab) returns (requested: bool)
      modifies this
      ensures activeTab == tab
      ensures requested == (tab != old(activeTab) && tab == SnapshotTab && loan.Some?)
      ensures loadingSummary == (requested || old(loadingSummary))
      ensures summary == old(summary)
      ensures selectedCovenant == old(selectedCovenant) && aiExplanation == old(aiExplanation)
      ensures loadingExplanation == old(loadingExplanation)
    {
      requested := false;
      if tab != activeTab {
        activeTab := tab;
        if loan.Some? && activeTab == SnapshotTab {
          loadingSummary := true;
          requested := true;
        }
      }
    }

    /** The awaited summary arrives and is written. */
    method SummaryArrives(text: string)
      modifies this
      ensures summary == text && !loadingSummary
      ensures activeTab == old(activeTab) && selectedCovenant == old(selectedCovenant)
      ensures aiExplanation == old(aiExplanation) && loadingExplanation == old(loadingExplanation)
    {
      summary := text;
      loadingSummary := false;
    }

    /** What the screen renders at time `now`: "not found" for an unknown
        loan; on the snapshot tab, the summary text and its loading flag; on
        the timeline tab, the side panel exactly when a covenant is selected,
        showing the spinner while the explanation is loading and the
        explanation text otherwise. */
    function Render(now: Timestamp): (s: Screen)
      reads this
      ensures s.NotFound? <==> loan.None?
      ensures s.TimelineScreen? <==> loan.Some? && activeTab == TimelineTab
      ensures s.TimelineScreen? ==> (s.panel.Some? <==> selectedCovenant.Some?)
      ensures s.TimelineScreen? && s.panel.Some? ==>
        s.panel.value.covenant == selectedCovenant.value
        && (s.panel.value.analysis == Analyzing <==> loadingExplanation)
      ensures s.TimelineScreen? && s.panel.Some? && !loadingExplanation ==>
        s.panel.value.analysis == Explanation(aiExplanation)
      ensures s.TimelineScreen? ==> s.loan == loan.value && s.entries == Timeline(loan.value, selectedCovenant, now)
      ensures s.SnapshotScreen? ==>
        s.loan == loan.value && s.summary == summary && s.loadingSummary == loadingSummary
    {
      if loan.None? then NotFound
      else if activeTab.SnapshotTab? then SnapshotScreen(loan.value, summary, loadingSummary)
      else
        var panel :=
          if selectedCovenant.None? then None
          else Some(Panel(selectedCovenant.value,
                          if loadingExplanation then Analyzing else Explanation(aiExplanation)));
        TimelineScreen(loan.value, Timeline(loan.value, selectedCovenant, now), panel)
    }
  }

  /** The click-click-respond sequence in which the first request is
      answered after the second click: the panel then shows the first
      covenant's explanation while the second covenant is selected, because
      the response is written without checking what it was requested for. */
  method LateResponseScenario() returns (selected: Option<Covenant>, shown: Analysis)
    ensures selected == Some(Constants.Cov2)
    ensures shown == Explanation("explanation of cov_1")
  {
    var d := new DetailState("ln_001");
    var first := d.ClickCovenant(Constants.Cov1);
    var second := d.ClickCovenant(Constants.Cov2);
    assert second == Some(Constants.Cov2);
    d.ExplanationArrives("explanation of cov_1");
    var view := d.Render(0);
    assert d.loan.Some? by {
      assert Constants.MockLoans[0].id == "ln_001";
    }
    selected := d.selectedCovenant;
    shown := view.panel.value.analysis;
  }
}
