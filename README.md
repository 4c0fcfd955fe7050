# Coven covenant dashboard — a Dafny model of its core

Coven is a single-page React application for monitoring loan covenants. It
holds a sample portfolio of three loans in memory. A dashboard aggregates the
portfolio: covenant tallies, a rounded average compliance score, a ring chart
of compliance buckets, the most probable predicted breaches, the newest
activity entries and colour bands for scores. A loan detail screen shows the
loan's covenants on a timeline ordered by due date. Clicking a covenant opens
a side panel and requests a narrative explanation of it. An application shell
switches between views and remembers the selected loan.

The model has seven modules, one file each:

- `Types` (`types.dfy`): the enums and records of `types.ts` and the
  `ViewState` union. Dates are the millisecond timestamps that
  `new Date("YYYY-MM-DD").getTime()` yields, which is UTC midnight of that
  proleptic Gregorian day.
- `Sequences` (`sequences.dfy`): `filter`, `slice(0, n)` and a stable sort by
  an integer key. JavaScript's `Array.prototype.sort` is stable. A numeric
  comparator `a.k - b.k` sorts ascending by `k`. A comparator `b.k - a.k` is
  the same sort by the key `-k`.
- `Constants` (`constants.dfy`): `MOCK_LOANS`.
- `Dashboard` (`dashboard.dfy`): the aggregates of `DashboardView` as
  functions of an explicit loan sequence.
- `LoanDetail` (`loan_detail.dfy`): the loan lookup and the timeline as
  functions. The screen's state hooks are the fields of the class
  `DetailState`, and its event handlers are methods of that class.
- `App` (`app.dfy`): the shell's two state hooks as the class `AppState`,
  plus the render guard and the sidebar highlight rule as functions.
- `SampleChecks` (`sample_checks.dfy`): what the views compute for the
  sample portfolio.

The text services are outside the model. A request is a value returned by
the method that starts it, such as `ClickCovenant` or `SelectTab`. The
response is a separate event with the text as a parameter, such as
`ExplanationArrives` or `SummaryArrives`. The current time, which the
timeline reads through `new Date()`, is the parameter `now`.

Nothing discards a late response: `handleCovenantClick` writes whatever
explanation comes back (views/LoanDetailView.tsx:45-47), whichever covenant
is selected by then. The model does the same.
`LoanDetail.LateResponseScenario` shows the result: the panel of the second
covenant shows the first covenant's explanation.

## Model

| member | source | states |
|---|---|---|
| Types.LoanStatusValues | types.ts:1-5 | There are exactly three loan statuses, Active, Pending and Closed, and their string values are distinct. |
| Types.ComplianceStatusValues | types.ts:7-12 | There are exactly four compliance statuses with distinct string values. AtRisk's string is "At Risk". Every status's string parses back to it. |
| Types.ParseComplianceStatus | types.ts:7-12 | A parsed string is the string value of the status it yields. A string that is no status's value yields nothing. |
| Types.ParseViewState | types.ts:46 | A parsed view name is the string of the view it yields. Any other string yields nothing. |
| Types.ViewStateValues | types.ts:46 | There are exactly seven views with distinct names, and every name parses back to its view. |
| Types.DaysInMonth | types.ts:18 | A month has 28 to 31 days. February has 29 exactly in Gregorian leap years. |
| Types.Date | types.ts:18 | A valid date string (its day within the month's length) has a timestamp that is a whole number of days in milliseconds, that is, a UTC midnight. |
| Types.DateEpoch | types.ts:18 | 1970-01-01 is timestamp 0. |
| Types.NextDay | types.ts:18 | Within a month, each date falls exactly one day after the date before it. |
| Types.MonthRollover | types.ts:18 | The 1st of a month falls exactly one day after the last day of the month before, including 1st March after 28th or 29th February. |
| Types.YearLength | types.ts:18 | From one 1st of March to the next there are 366 days when the year is a leap year, 365 otherwise. |
| Types.YearRollover | types.ts:18 | 1st January falls exactly one day after the 31st of December before it. |
| Sequences.Filter | views/DashboardView.tsx:19 | The result holds exactly the elements that satisfy the predicate, and it is no longer than the input. |
| Sequences.FilterMultiplicity | views/DashboardView.tsx:19 | Each element that satisfies the predicate is kept as often as it occurs in the input. The others occur zero times. |
| Sequences.FilterAppend | views/DashboardView.tsx:19 | Filtering a concatenation gives the two filtered parts in order, so the kept elements keep their input order. |
| Sequences.Take | views/DashboardView.tsx:29 | `slice(0, n)` is a prefix of length min(n, length). |
| Sequences.SortBy | views/LoanDetailView.tsx:209 | The sort returns a permutation of its input, ordered by non-decreasing key. |
| Sequences.SortStable | views/LoanDetailView.tsx:209 | For each key, the elements with that key keep their relative order. |
| Sequences.SortSortedIdentity | views/LoanDetailView.tsx:209 | A sequence that is already sorted comes back unchanged. |
| Sequences.SortIdempotent | views/LoanDetailView.tsx:209 | Sorting twice gives the same result as sorting once. |
| Sequences.SortDistinct | views/LoanDetailView.tsx:209 | Sorting keeps a field that is distinct across elements distinct. |
| Sequences.TopBy | views/DashboardView.tsx:29 | `sort().slice(0, n)` gives the min(n, length) smallest-key elements in order, drawn from the input. Every element left out has a key no smaller than the last one kept. |
| Dashboard.TotalCovenants | views/DashboardView.tsx:17 | Specified by Dashboard.PortfolioCounts: the number of covenants of the portfolio. |
| Dashboard.AtRiskCovenants | views/DashboardView.tsx:18-19 | Specified by Dashboard.PortfolioCounts: the number of covenants At Risk or Breached. |
| Dashboard.BreachedCovenants | views/DashboardView.tsx:20-21 | Specified by Dashboard.PortfolioCounts: the number of Breached covenants. |
| Dashboard.LoanCounts | views/DashboardView.tsx:18-21 | On one loan, the two filters count At Risk plus Breached, and Breached. The list length is the sum of the four status counts. |
| Dashboard.PortfolioCounts | views/DashboardView.tsx:16-21 | The three reductions count all covenants of the portfolio, those At Risk or Breached, and those Breached. The counts are nested. |
| Dashboard.Summarize | views/DashboardView.tsx:16-23 | Specified by Dashboard.SummarizeSpec: the summary figures of the dashboard. |
| Dashboard.SummarizeSpec | views/DashboardView.tsx:16-23 | `totalLoans` is the number of loans and `totalCovenants` is the number of covenants. `breachedCovenants` ≤ `atRiskCovenants` ≤ `totalCovenants`. An empty portfolio gives all zeros. |
| Dashboard.RoundedQuotient | views/DashboardView.tsx:23 | `Math.round(s / n)` in integer arithmetic: the nearest integer to s/n, with halves rounded up. |
| Dashboard.RoundedQuotientUnique | views/DashboardView.tsx:23 | Only one integer is the rounded quotient. |
| Dashboard.AverageScore | views/DashboardView.tsx:23 | The average is 0 for no loans. Otherwise it is the half-up rounded mean of the compliance scores. |
| Dashboard.ScoreSumBounds | views/DashboardView.tsx:23 | When every score is between 0 and 100, the score sum is between 0 and 100 times the number of loans. |
| Dashboard.AverageScoreInRange | views/DashboardView.tsx:23 | When every score is between 0 and 100, so is the average. |
| Dashboard.RingData | views/DashboardView.tsx:35-39 | Specified by Dashboard.RingBucketCounts and Dashboard.RingPartition: the three ring buckets. |
| Dashboard.RingBucketCounts | views/DashboardView.tsx:35-39 | The Compliant bucket counts the Compliant and Upcoming covenants. The At Risk bucket counts the At Risk ones and the Breached bucket the Breached ones. |
| Dashboard.RingPartition | views/DashboardView.tsx:35-39 | With nested tallies, no bucket is negative and the buckets add up to the covenant count. |
| Dashboard.FilterPositiveSum | views/DashboardView.tsx:41 | Dropping the zero buckets leaves the total unchanged. |
| Dashboard.ChartData | views/DashboardView.tsx:41 | Specified by Dashboard.ChartDataPlaceholder, Dashboard.ChartDataBuckets and Dashboard.ChartDataOrder: the entries the ring chart draws. |
| Dashboard.ChartDataPlaceholder | views/DashboardView.tsx:41 | The chart is the single "Empty" entry of value 1 exactly when there are no covenants. |
| Dashboard.ChartDataBuckets | views/DashboardView.tsx:41 | With covenants present, the chart holds one to three entries. They are exactly the positive buckets, none is the placeholder, and they add up to the covenant count. |
| Dashboard.ChartDataOrder | views/DashboardView.tsx:41 | When some bucket is positive, the chart lists the positive buckets in the order Compliant, At Risk, Breached. |
| Dashboard.PortfolioChart | views/DashboardView.tsx:35-41 | For any portfolio, the buckets are non-negative and sum to the covenant count. The chart is the placeholder exactly when there are no covenants. |
| Dashboard.CardBand | views/DashboardView.tsx:165-168 | A loan card's badge is high above 85, medium above 60 and low otherwise, so 85 is medium and 60 is low. |
| Dashboard.HealthTier | views/DashboardView.tsx:107 | The portfolio health figure is high above 80, medium above 60 and low otherwise. |
| Dashboard.BandsMonotone | views/DashboardView.tsx:165-168 | A higher score never gets a lower band, on either scale. |
| Dashboard.BandsDisagreement | views/DashboardView.tsx:165-168 | The two scales differ exactly on scores 81 to 85, which are high as a portfolio figure and medium on a card. |
| Dashboard.TagPredictions | views/DashboardView.tsx:26-28 | A loan's tagged entries are exactly its predictions with probability above 50, each carrying the loan's id and borrower. |
| Dashboard.TagPredictionsMultiplicity | views/DashboardView.tsx:26-28 | Each prediction above 50 appears, tagged with the loan, as often as it occurs in the loan's list. Nothing else appears. |
| Dashboard.TagPredictionsAppend | views/DashboardView.tsx:26-28 | Tagging a concatenation gives the two tagged parts in order, so the tagged entries keep the list's order. |
| Dashboard.PredictionCandidates | views/DashboardView.tsx:25-28 | Specified by Dashboard.PredictionCandidatesMembers and Dashboard.PredictionCandidatesAppend: the `flatMap` of the tagged predictions, loan by loan. |
| Dashboard.PredictionCandidatesMembers | views/DashboardView.tsx:25-28 | After the `flatMap`, an entry is present exactly when it is some loan's prediction above 50, tagged with that loan. |
| Dashboard.PredictionCandidatesAppend | views/DashboardView.tsx:25-28 | The candidates of two portfolios in sequence are the first's candidates followed by the second's, so the `flatMap` concatenates loan by loan. |
| Dashboard.HighRiskPredictions | views/DashboardView.tsx:25-29 | Specified by Dashboard.HighRiskPredictionsTop and Dashboard.HighRiskPredictionsTagged: the predictive-risk list. |
| Dashboard.HighRiskPredictionsTop | views/DashboardView.tsx:25-29 | The list has min(3, candidates) entries in non-increasing probability, all drawn from the candidates. Any candidate left out is no more probable than the third entry. |
| Dashboard.HighRiskPredictionsTagged | views/DashboardView.tsx:25-29 | Every listed prediction is above 50 and carries the id and borrower of the loan it came from. |
| Dashboard.TagEvents | views/DashboardView.tsx:32 | Position by position, a loan's tagged events are its events, each carrying the loan's id and borrower. So the length and order are kept. |
| Dashboard.TagEventsMultiplicity | views/DashboardView.tsx:32 | Each event appears, tagged with the loan, as often as it occurs in the loan's list. Nothing else appears. |
| Dashboard.EventCandidates | views/DashboardView.tsx:31-32 | Specified by Dashboard.EventCandidatesMembers and Dashboard.EventCandidatesAppend: the `flatMap` of the tagged events, loan by loan. |
| Dashboard.EventCandidatesMembers | views/DashboardView.tsx:31-32 | After the `flatMap`, an entry is present exactly when it is some loan's event, tagged with that loan. |
| Dashboard.EventCandidatesAppend | views/DashboardView.tsx:31-32 | The candidates of two portfolios in sequence are the first's candidates followed by the second's. |
| Dashboard.RecentEvents | views/DashboardView.tsx:31-33 | Specified by Dashboard.RecentEventsTop and Dashboard.RecentEventsTagged: the recent-activity list. |
| Dashboard.RecentEventsTop | views/DashboardView.tsx:31-33 | The list has min(5, candidates) entries, newest first, all drawn from the candidates. Any entry left out is no newer than the fifth. |
| Dashboard.RecentEventsTagged | views/DashboardView.tsx:31-33 | Every listed event carries the id and borrower of the loan it came from. |
| LoanDetail.FindLoan | views/LoanDetailView.tsx:16 | The lookup yields nothing exactly when no loan has the id. Otherwise it yields the first loan with that id. |
| LoanDetail.SortedCovenants | views/LoanDetailView.tsx:209 | Specified by LoanDetail.SortedCovenantsSpec: the loan's covenants in timeline order. |
| LoanDetail.SortedCovenantsSpec | views/LoanDetailView.tsx:209 | The timeline order is a permutation of the loan's covenants by non-decreasing due date. Covenants due on the same date keep their order, and sorting again changes nothing. The loan's own list is untouched. |
| LoanDetail.StatusColor | views/LoanDetailView.tsx:223-226 | Compliant is emerald, At Risk amber and Breached red, and every other status is slate, each of these exactly. |
| LoanDetail.StatusColorInjective | views/LoanDetailView.tsx:223-226 | Distinct statuses get distinct colours. |
| LoanDetail.IsSelected | views/LoanDetailView.tsx:219 | Specified by LoanDetail.AtMostOneSelected: a node is selected when its id is the selected covenant's. |
| LoanDetail.IsPast | views/LoanDetailView.tsx:220-221 | Specified by LoanDetail.PastEntriesFirst: a node is past when it is due before `now`. |
| LoanDetail.TimelineEntry.Faded | views/LoanDetailView.tsx:240 | Specified by LoanDetail.FadedEntries: a node is drawn faded when it is past and not selected. |
| LoanDetail.Timeline | views/LoanDetailView.tsx:218-226 | There is one node per covenant, in sorted order. Each node carries its selection, past flag and colour. |
| LoanDetail.TimelineCovenants | views/LoanDetailView.tsx:209-218 | The covenants on the nodes are a permutation of the loan's covenants. |
| LoanDetail.PastEntriesFirst | views/LoanDetailView.tsx:209-221 | Past means due before `now`. Because of the date order, every node before a past node is past too. |
| LoanDetail.FadedEntries | views/LoanDetailView.tsx:240 | A node is faded exactly when its due date is before `now` and it is not selected. |
| LoanDetail.AtMostOneSelected | views/LoanDetailView.tsx:219 | When the loan's covenant ids are unique, at most one node is selected. |
| LoanDetail.DetailState.constructor | views/LoanDetailView.tsx:15-24 | Mounting looks the loan up by id and starts on the timeline tab, with no selection, no text and nothing loading. |
| LoanDetail.DetailState.ClickCovenant | views/LoanDetailView.tsx:36-43 | Clicking the selected covenant (same id) clears the selection. It requests nothing and leaves the explanation and its loading flag as they were. Clicking any other covenant selects it, clears the explanation, sets loading and requests that covenant's explanation. |
| LoanDetail.DetailState.ExplanationArrives | views/LoanDetailView.tsx:45-47 | The response writes its text and clears loading unconditionally. The selection is whatever it is now. |
| LoanDetail.DetailState.SelectTab | views/LoanDetailView.tsx:26-34 | Choosing a tab sets it. A summary is requested and marked loading only when the tab changes to the snapshot tab and the loan exists. |
| LoanDetail.DetailState.SummaryArrives | views/LoanDetailView.tsx:29-32 | The summary response writes its text and clears loading. |
| LoanDetail.DetailState.Render | views/LoanDetailView.tsx:97-307 | An unknown loan renders "not found" (line 50). The snapshot tab gets the loan, the summary and its loading flag. The timeline tab gets the loan's timeline. Its side panel appears exactly when a covenant is selected. The panel shows the spinner exactly while loading, and otherwise the stored explanation text. |
| LoanDetail.LateResponseScenario | views/LoanDetailView.tsx:41-47 | If cov_1 is clicked, then cov_2, and then cov_1's explanation arrives, the panel shows cov_1's explanation while cov_2 is selected. |
| App.Truthy | App.tsx:56 | Specified by App.AppState.Navigate: the truthiness test `if (loanId)`. |
| App.ShowsDetail | App.tsx:91 | Specified by App.ContentFor: the guard of the detail branch. |
| App.ContentFor | App.tsx:63-107 | The landing branch is selected for LANDING. Each sidebar branch is selected exactly for its view. The detail branch is selected exactly when the view is LOAN_DETAIL and the id is truthy, and it gets that id. AUTH, SETTINGS and an id-less detail view select no branch. |
| App.SidebarActive | App.tsx:30 | Specified by App.ActiveItemsSpec: the highlight test of one sidebar entry. |
| App.ActiveItems | App.tsx:25-30 | Specified by App.ActiveItemsSpec: the highlighted sidebar entries. |
| App.ActiveItemsSpec | App.tsx:11-30 | Exactly one sidebar item is highlighted on the dashboard, loan list and reports views, and on the detail view that item is Loans. On the other views none is. |
| App.AppState.constructor | App.tsx:52-53 | The application starts on LANDING with no loan selected. |
| App.AppState.Navigate | App.tsx:55-59 | Navigation always sets the view. It replaces the selected loan only with a truthy id and otherwise keeps it. Only truthy ids are ever stored. |
| App.AppState.Enter | App.tsx:64 | Entering from the landing page goes to DASHBOARD and keeps the selection. |
| App.AppState.SelectSidebarItem | App.tsx:67 | A sidebar item navigates to its view and keeps the selected loan. |
| App.AppState.OpenLoan | views/DashboardView.tsx:160 | Opening a loan card goes to LOAN_DETAIL and selects its id when the id is non-empty. |
| App.AppState.Back | App.tsx:98 | Back from the detail view goes to LOAN_LIST and keeps the selected loan. |
| App.AppState.Content | App.tsx:63-107 | Specified by App.ContentFor: the branch the current state selects. |
| App.BrowseScenario | App.tsx:55-98 | Entering, opening ln_002, going back and navigating to the detail view without an id selects the landing, dashboard, ln_002 detail, loan list and ln_002 detail branches. |
| Constants.MockLoans | constants.ts:3-84 | Specified by the SampleChecks lemmas: the three sample loans, in order. |
| SampleChecks.Suffixes | constants.ts:3-84 | The sample portfolio's covenants, in order, are cov_1 to cov_5, and its scores sum to 270. |
| SampleChecks.StatusCounts | constants.ts:27-66 | One sample covenant is At Risk (cov_2) and one is Breached (cov_5). |
| SampleChecks.SampleSummary | constants.ts:3-84 | The dashboard summary of the sample is 3 loans, 5 covenants, 2 at risk or breached, 1 breached and an average of 90. Omni has no covenants but still counts as a loan and in the average. |
| SampleChecks.SampleRing | constants.ts:19-66 | The sample's ring is 3, 1 and 1, with the Upcoming covenant counted as Compliant. All three buckets are drawn. |
| SampleChecks.SampleBands | constants.ts:12-81 | Cards for 92 and 100 are high and the card for 78 is medium. The portfolio figure of 90 is high. |
| SampleChecks.SampleLookup | constants.ts:5-74 | ln_001, ln_002 and ln_003 find their loans, and any other id finds none. |
| SampleChecks.DueDays | constants.ts:18-65 | 2024-03-31, 2024-06-30 and 2023-12-31 are days 19813, 19904 and 19722 after 1970-01-01. |
| SampleChecks.SampleTimelines | constants.ts:18-36 | Acme's timeline is cov_1, cov_2, cov_3: the first two share a due date and keep their listed order. Helios's is cov_4, cov_5 and Omni's is empty. |
| SampleChecks.SampleIdsUnique | constants.ts:15-62 | The covenant ids are unique across the sample portfolio. |

## Left out

- The text services (`generateLoanSummary`, `explainCovenantRisk`) are not part of this model. Their result is the text parameter of `SummaryArrives` and `ExplanationArrives`. Their delays and the interleaving of concurrent requests are reduced to the order in which these events are called.
- The clock: `new Date()` in the timeline is the parameter `now`. `window.scrollTo` in `handleNavigate` is left out because it only scrolls.
- Date strings: the model holds dates as the timestamps `new Date` gives for valid `YYYY-MM-DD` strings. It does not model invalid strings, whose timestamp is NaN and whose comparisons are all false.
- Numbers: scores, probabilities and amounts are integers. Every sample value is an integer, and `Math.round` of a quotient of integers is computed exactly in integer arithmetic. Fractional scores or probabilities are not modelled. `interestRate` is optional because the sample leaves it out, and nothing in the model reads it.
- `riskPredictions` and `timelineEvents` are optional sequences on `Loan`. The dashboard reads them but the record type does not declare them. `loanDNA` (views/DashboardView.tsx:175) is display text only and is left out.
- The dashboard is given its loans explicitly. App.tsx:78 renders it without a `loans` prop, and that call is not modelled. As written, `loans` is then undefined, and `loans.length` (views/DashboardView.tsx:16) throws on the first render of the dashboard. No error boundary catches it, so the whole tree unmounts.
- App.ContentFor: says which branch of App.tsx:63-107 the state selects, not that the branch renders. The dashboard branch throws as the line above describes.
- App.BrowseScenario: gives the branch sequence that the navigation state selects. In the running application the first step after Enter, the dashboard, throws, so the later steps are not reached through the interface.
- The landing, authentication, settings, loan list and reports screens are static rendering and are left out. So is the loan list's bar colour at score 90. The sidebar's Settings button navigates nowhere and is left out.
- Formatting (`toFixed`, `toLocaleString`, `toLocaleDateString`, millions), animation variants, chart drawing and CSS classes are left out.
- LoanDetail.DetailState.SelectTab: the effect runs after render when `activeTab` changes. The model runs it inside the tab switch. This gives the same states, because React skips the effect when the tab is set to its current value.

