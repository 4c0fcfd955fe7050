/** The application shell (App.tsx): the current view and the selected loan
    id, the navigation handler that updates them, which branch of the main area
    the view selects, and which sidebar item is highlighted. */
module App {
  import opened Types
  import opened Sequences

  /** JavaScript truthiness of an optional string: present and not empty. */
  predicate Truthy(id: Option<string>)
  {
    id.Some? && id.value != ""
  }

  /** The branch of the main area that the view selects. */
  datatype Content =
    | LandingPage
    | DashboardPage
    | LoanListPage
    | LoanDetailPage(loanId: string)
    | ReportsPage
    | Blank

  /** The guard `view === 'LOAN_DETAIL' && selectedLoanId`. */
  predicate ShowsDetail(view: ViewState, selectedLoanId: Option<string>)
  {
    view == LoanDetail && Truthy(selectedLoanId)
  }

  /** The landing page alone, or the sidebar layout with the one branch
      whose condition holds; the authentication and settings views, and the
      detail view without a loan id, match no branch. */
  function ContentFor(view: ViewState, selectedLoanId: Option<string>): (c: Content)
    ensures c.LoanDetailPage? <==> ShowsDetail(view, selectedLoanId)
    ensures c.LoanDetailPage? ==> c.loanId == selectedLoanId.value
    ensures c == LandingPage <==> view == Landing
    ensures c == DashboardPage <==> view == DashboardView
    ensures c == LoanListPage <==> view == LoanList
    ensures c == ReportsPage <==> view == Reports
    ensures c == Blank <==> view == Auth || view == Settings || (view == LoanDetail && !Truthy(selectedLoanId))
  {
    if view == Landing then LandingPage
    else if view == DashboardView then DashboardPage
    else if view == LoanList then LoanListPage
    else if ShowsDetail(view, selectedLoanId) then LoanDetailPage(selectedLoanId.value)
    else if view == Reports then ReportsPage
    else Blank
  }

  /** The sidebar's three entries, in order. */
  const SidebarItems: seq<ViewState> := [DashboardView, LoanList, Reports]

  /** An entry is highlighted for its own view, and the loan list entry also
      for the loan detail view. */
  predicate SidebarActive(currentView: ViewState, item: ViewState)
  {
    currentView == item || (currentView == LoanDetail && item == LoanList)
  }

  function ActiveItems(currentView: ViewState): seq<ViewState>
  {
    Filter(SidebarItems, item => SidebarActive(currentView, item))
  }

  /** At most one entry is highlighted: exactly one on the dashboard, loan
      list, loan detail and reports views (the loan list entry for the
      detail view), and none on the others. */
  lemma ActiveItemsSpec(currentView: ViewState)
    ensures |ActiveItems(currentView)| <= 1
    ensures currentView in SidebarItems ==> ActiveItems(currentView) == [currentView]
    ensures currentView == LoanDetail ==> ActiveItems(currentView) == [LoanList]
    ensures currentView !in SidebarItems && currentView != LoanDetail ==> ActiveItems(currentView) == []
  {
    var p := item => SidebarActive(currentView, item);
    assert SidebarItems[1..][1..][1..] == [];
    assert ActiveItems(currentView)
        == (if p(DashboardView) then [DashboardView] else [])
         + ((if p(LoanList) then [LoanList] else [])
         + ((if p(Reports) then [Reports] else []) + Filter([], p)));
  }

  /** The two state hooks of the application. */
  class AppState {
    var view: ViewState
    var selectedLoanId: Option<string>

    /** Only a truthy loan id is ever stored. */
    ghost predicate Valid()
      reads this
    {
      selectedLoanId.Some? ==> selectedLoanId.value != ""
    }

    /** The landing page, no loan selected. */
    constructor ()
      ensures Valid()
      ensures view == Landing && selectedLoanId == None
    {
      view := Landing;
      selectedLoanId := None;
    }

    /** `handleNavigate(newView, loanId)`: always moves to `newView`; the
        selected loan is replaced only by a truthy loan id, and kept
        otherwise. */
    method Navigate(newView: ViewState, loanId: Option<string>)
      requires Valid()
      modifies this
      ensures Valid()
      ensures view == newView
      ensures selectedLoanId == if Truthy(loanId) then loanId else old(selectedLoanId)
    {
      if Truthy(loanId) {
        selectedLoanId := loanId;
      }
      view := newView;
    }

    /** The landing page's enter button: straight to the dashboard. */
    method Enter()
      requires Valid()
      modifies this
      ensures Valid()
      ensures view == DashboardView && selectedLoanId == old(selectedLoanId)
    {
      view := DashboardView;
    }

    /** A sidebar entry: navigation without a loan id. */
    method SelectSidebarItem(item: ViewState)
      requires Valid()
      modifies this
      ensures Valid()
      ensures view == item && selectedLoanId == old(selectedLoanId)
    {
      Navigate(item, None);
    }

    /** A loan card or alert: navigation to the detail view of `loanId`. */
    method OpenLoan(loanId: string)
      requires Valid()
      modifies this
      ensures Valid()
      ensures view == LoanDetail
      ensures loanId != "" ==> selectedLoanId == Some(loanId)
      ensures loanId == "" ==> selectedLoanId == old(selectedLoanId)
    {
      Navigate(LoanDetail, Some(loanId));
    }

    /** The detail view's back button: to the loan list, keeping the
        selected loan. */
    method Back()
      requires Valid()
      modifies this
      ensures Valid()
      ensures view == LoanList && selectedLoanId == old(selectedLoanId)
    {
      Navigate(LoanList, None);
    }

    function Content(): Content
      reads this
    {
      ContentFor(view, selectedLoanId)
    }
  }

  /** Enter, open a loan, go back, then navigate straight to the detail
      view without an id: the detail branch is selected again only because
      the loan id was kept. */
  method BrowseScenario() returns (pages: seq<Content>)
    ensures pages == [LandingPage, DashboardPage, LoanDetailPage("ln_002"), LoanListPage, LoanDetailPage("ln_002")]
  {
    var app := new AppState();
    pages := [app.Content()];
    app.Enter();
    pages := pages + [app.Content()];
    app.OpenLoan("ln_002");
    pages := pages + [app.Content()];
    app.Back();
    pages := pages + [app.Content()];
    app.Navigate(LoanDetail, None);
    pages := pages + [app.Content()];
  }
}
