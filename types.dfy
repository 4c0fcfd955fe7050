/** The domain records of the covenant dashboard (types.ts), with the view
    names of the application. */
module Types {

  datatype Option<T> = None | Some(value: T)

  /** A loan's lifecycle state. */
  datatype LoanStatus = Active | Pending | Closed
  {
    /** The enum's string value. */
    function Text(): string
    {
      match this
      case Active => "Active"
      case Pending => "Pending"
      case Closed => "Closed"
    }
  }

  const AllLoanStatuses: seq<LoanStatus> := [Active, Pending, Closed]

  /** A covenant's compliance state, set from outside; nothing derives it
      from the covenant's value or threshold. */
  datatype ComplianceStatus = Compliant | AtRisk | Breached | Upcoming
  {
    /** The enum's string value; note the space in "At Risk". */
    function Text(): string
    {
      match this
      case Compliant => "Compliant"
      case AtRisk => "At Risk"
      case Breached => "Breached"
      case Upcoming => "Upcoming"
    }
  }

  const AllComplianceStatuses: seq<ComplianceStatus> := [Compliant, AtRisk, Breached, Upcoming]

  /** The status whose string value is `s`; `None` for any other string.
      Nothing in the application parses status strings: this function exists
      to state that the enum's string values are distinct and read back. */
  function ParseComplianceStatus(s: string): (r: Option<ComplianceStatus>)
    ensures r.Some? ==> r.value.Text() == s
    ensures r.None? ==> forall st :: st in AllComplianceStatuses ==> st.Text() != s
  {
    if s == "Compliant" then Some(Compliant)
    else if s == "At Risk" then Some(AtRisk)
    else if s == "Breached" then Some(Breached)
    else if s == "Upcoming" then Some(Upcoming)
    else None
  }

  /** Every status is listed once and its string value reads back to it, so
      the four string values are distinct. */
  lemma ComplianceStatusValues()
    ensures |AllComplianceStatuses| == 4
    ensures forall st: ComplianceStatus :: st in AllComplianceStatuses
    ensures forall i, j :: 0 <= i < j < 4 ==> AllComplianceStatuses[i].Text() != AllComplianceStatuses[j].Text()
    ensures forall st: ComplianceStatus :: ParseComplianceStatus(st.Text()) == Some(st)
    ensures AtRisk.Text() == "At Risk"
  {
    forall st: ComplianceStatus ensures st in AllComplianceStatuses {
      match st
      case Compliant => assert AllComplianceStatuses[0] == st;
      case AtRisk => assert AllComplianceStatuses[1] == st;
      case Breached => assert AllComplianceStatuses[2] == st;
      case Upcoming => assert AllComplianceStatuses[3] == st;
    }
  }

  lemma LoanStatusValues()
    ensures |AllLoanStatuses| == 3
    ensures forall st: LoanStatus :: st in AllLoanStatuses
    ensures forall i, j :: 0 <= i < j < 3 ==> AllLoanStatuses[i].Text() != AllLoanStatuses[j].Text()
  {
    forall st: LoanStatus ensures st in AllLoanStatuses {
      match st
      case Active => assert AllLoanStatuses[0] == st;
      case Pending => assert AllLoanStatuses[1] == st;
      case Closed => assert AllLoanStatuses[2] == st;
    }
  }

  /** The `type` union of a covenant. */
  datatype CovenantType = Financial | Reporting | Affirmative | Negative

  /** A point in time as `new Date(...).getTime()` gives it: milliseconds
      since 1970-01-01T00:00:00Z. */
  type Timestamp = int

  const MsPerDay: int := 86_400_000

  /** Days from 1970-01-01 to the given proleptic Gregorian date, which is
      what `new Date` makes of a `YYYY-MM-DD` string (UTC midnight). */
  function DaysFromCivil(y: int, m: int, d: int): int
    requires 1 <= m <= 12 && 1 <= d <= 31
  {
    var y' := if m <= 2 then y - 1 else y;
    var era := y' / 400;
    var yoe := y' - era * 400;
    var mp := (m + 9) % 12;
    var doy := (153 * mp + 2) / 5 + d - 1;
    var doe := yoe * 365 + yoe / 4 - yoe / 100 + doy;
    era * 146097 + doe - 719468
  }

  /** Gregorian leap years: every fourth year, except centuries not
      divisible by 400. */
  predicate IsLeapYear(y: int)
  {
    y % 4 == 0 && (y % 100 != 0 || y % 400 == 0)
  }

  /** The number of days in month `m` of year `y`. */
  function DaysInMonth(y: int, m: int): (n: int)
    requires 1 <= m <= 12
    ensures 28 <= n <= 31
    ensures m == 2 ==> (n == 29 <==> IsLeapYear(y))
  {
    if m == 2 then (if IsLeapYear(y) then 29 else 28)
    else if m == 4 || m == 6 || m == 9 || m == 11 then 30
    else 31
  }

  /** The timestamp of a valid ISO `YYYY-MM-DD` date string. */
  function Date(y: int, m: int, d: int): (t: Timestamp)
    requires 1 <= m <= 12 && 1 <= d <= DaysInMonth(y, m)
    ensures t % MsPerDay == 0
  {
    var days := DaysFromCivil(y, m, d);
    WholeDays(days);
    days * MsPerDay
  }

  /** A whole number of days is a multiple of a day in milliseconds. */
  lemma WholeDays(days: int)
    ensures (days * MsPerDay) % MsPerDay == 0
  {
  }

  /** 1970-01-01 is timestamp 0. */
  lemma DateEpoch()
    ensures Date(1970, 1, 1) == 0
  {
  }

  /** Within a month, the next day is one day (in milliseconds) later. */
  lemma NextDay(y: int, m: int, d: int)
    requires 1 <= m <= 12 && 1 <= d < DaysInMonth(y, m)
    ensures Date(y, m, d + 1) == Date(y, m, d) + MsPerDay
  {
  }

  /** The first of a month is one day after the last day of the month
      before, in the same year. */
  lemma MonthRollover(y: int, m: int)
    requires 1 <= m < 12
    ensures Date(y, m, DaysInMonth(y, m)) + MsPerDay == Date(y, m + 1, 1)
  {
    if m == 2 {
      FebruaryRollover(y);
    } else {
      assert DaysFromCivil(y, m, DaysInMonth(y, m)) + 1 == DaysFromCivil(y, m + 1, 1) by {
        MonthLength(y, m);
      }
    }
  }

  /** Outside February, the month lengths step the day count from one 1st
      to the next. */
  lemma MonthLength(y: int, m: int)
    requires 1 <= m < 12 && m != 2
    ensures DaysFromCivil(y, m, DaysInMonth(y, m)) + 1 == DaysFromCivil(y, m + 1, 1)
  {
    var y' := if m <= 2 then y - 1 else y;
    var mp := (m + 9) % 12;
    assert m == 1 ==> mp == 10;
    assert m >= 3 ==> mp == m - 3;
    assert (153 * 11 + 2) / 5 - (153 * 10 + 2) / 5 == 31;
    assert mp < 11 ==> (153 * (mp + 1) + 2) / 5 - (153 * mp + 2) / 5 == DaysInMonth(y, m);
  }

  /** The 1st of March is one day after the last day of February. */
  lemma FebruaryRollover(y: int)
    ensures DaysFromCivil(y, 2, DaysInMonth(y, 2)) + 1 == DaysFromCivil(y, 3, 1)
  {
    FebruaryFromMarch(y, DaysInMonth(y, 2));
    YearLength(y);
  }

  /** A day of February counted from the 1st of March of the year before. */
  lemma FebruaryFromMarch(y: int, d: int)
    requires 1 <= d <= 29
    ensures DaysFromCivil(y, 2, d) == DaysFromCivil(y - 1, 3, 1) + 336 + d
  {
  }

  /** From one 1st of March to the next: 366 days when the February in
      between has a 29th, 365 otherwise. */
  lemma YearLength(y: int)
    ensures DaysFromCivil(y, 3, 1) - DaysFromCivil(y - 1, 3, 1) == if IsLeapYear(y) then 366 else 365
  {
    var q, r := (y - 1) / 400, (y - 1) % 400;
    MarchFirst(y - 1);
    MarchFirst(y);
    NextYearInCycle(y);
    if r < 399 {
      assert DaysFromCivil(y, 3, 1) == CycleDays(q, r + 1) - 719468;
      CycleStep(q, r);
      LeapInCycle(y);
      CenturiesAreQuadrennial(r + 1);
    } else {
      assert DaysFromCivil(y, 3, 1) == CycleDays(q + 1, 0) - 719468;
      CycleWrap(q);
    }
  }

  /** A multiple of 100 is a multiple of 4. */
  lemma CenturiesAreQuadrennial(n: int)
    ensures n % 100 == 0 ==> n % 4 == 0
  {
    if n % 100 == 0 {
      assert n == 4 * (25 * (n / 100));
    }
  }

  /** Days from the start of the proleptic calendar's cycle 0 to the 1st of
      March of year `r` of cycle `q`. */
  function CycleDays(q: int, r: int): int
  {
    q * 146097 + r * 365 + r / 4 - r / 100
  }

  /** The 1st of March, counted in 400-year cycles and years into a cycle. */
  lemma MarchFirst(y: int)
    ensures DaysFromCivil(y, 3, 1) == CycleDays(y / 400, y % 400) - 719468
  {
    assert y - (y / 400) * 400 == y % 400;
  }

  /** Where the year after `y - 1` falls in the 400-year cycles. */
  lemma NextYearInCycle(y: int)
    ensures (y - 1) % 400 < 399 ==> y / 400 == (y - 1) / 400 && y % 400 == (y - 1) % 400 + 1
    ensures (y - 1) % 400 == 399 ==> y / 400 == (y - 1) / 400 + 1 && y % 400 == 0
  {
    var q, r := (y - 1) / 400, (y - 1) % 400;
    assert y == 400 * q + r + 1;
  }

  /** One year further into a cycle. */
  lemma CycleStep(q: int, r: int)
    requires 0 <= r < 399
    ensures CycleDays(q, r + 1) - CycleDays(q, r)
         == 365 + (if (r + 1) % 4 == 0 then 1 else 0) - (if (r + 1) % 100 == 0 then 1 else 0)
  {
    StepQuotients(r);
  }

  /** From the last year of a cycle to the first of the next, the year
      divisible by 400, which is a leap year. */
  lemma CycleWrap(q: int)
    ensures CycleDays(q + 1, 0) - CycleDays(q, 399) == 366
  {
  }

  /** Within a cycle, away from its first year, a year is a leap year when
      its place in the cycle is divisible by 4 and not by 100. */
  lemma LeapInCycle(y: int)
    requires y % 400 != 0
    ensures IsLeapYear(y) <==> (y % 400) % 4 == 0 && (y % 400) % 100 != 0
  {
    CycleRemainders(y);
  }

  /** Divisibility by 4 and by 100 depends only on the year within its
      400-year cycle. */
  lemma CycleRemainders(y: int)
    ensures y % 4 == (y % 400) % 4 && y % 100 == (y % 400) % 100
  {
    var q, r := y / 400, y % 400;
    assert y == 400 * q + r;
    assert y == 4 * (100 * q) + r && y == 100 * (4 * q) + r;
  }

  /** Counting up by one year raises the count of leap candidates and of
      centuries exactly at their multiples. */
  lemma StepQuotients(r: int)
    requires 0 <= r
    ensures (r + 1) / 4 - r / 4 == if (r + 1) % 4 == 0 then 1 else 0
    ensures (r + 1) / 100 - r / 100 == if (r + 1) % 100 == 0 then 1 else 0
  {
  }

  /** New Year's Day is one day after the 31st of December before it. */
  lemma YearRollover(y: int)
    ensures Date(y, 12, 31) + MsPerDay == Date(y + 1, 1, 1)
  {
  }

  /** A covenant: an obligation attached to a loan. `value` and `threshold`
      are free text, optional, and not tied to `status` in any way. */
  datatype Covenant = Covenant(
    id: string,
    title: string,
    kind: CovenantType,
    dueDate: Timestamp,
    status: ComplianceStatus,
    value: Option<string>,
    threshold: Option<string>,
    description: string)

  /** A predicted breach read by the dashboard from `loan.riskPredictions`. */
  datatype RiskPrediction = RiskPrediction(covenantTitle: string, probability: int, explanation: string)

  /** An activity entry read by the dashboard from `loan.timelineEvents`. */
  datatype TimelineEvent = TimelineEvent(date: Timestamp, title: string)

  /** A loan under monitoring. `interestRate` is optional because the sample
      data leaves it out; `riskPredictions` and `timelineEvents` are optional
      because the dashboard reads them though the record type omits them. */
  datatype Loan = Loan(
    id: string,
    borrower: string,
    amount: int,
    currency: string,
    interestRate: Option<real>,
    startDate: Timestamp,
    maturityDate: Timestamp,
    status: LoanStatus,
    complianceScore: int,
    covenants: seq<Covenant>,
    riskSummary: Option<string>,
    riskPredictions: Option<seq<RiskPrediction>>,
    timelineEvents: Option<seq<TimelineEvent>>)

  /** `x || []` on an optional array. */
  function OrEmpty<T>(o: Option<seq<T>>): (r: seq<T>)
    ensures o.None? ==> r == []
    ensures o.Some? ==> r == o.value
  {
    match o
    case None => []
    case Some(s) => s
  }

  /** The screens of the application. */
  datatype ViewState = Landing | Auth | DashboardView | LoanList | LoanDetail | Reports | Settings
  {
    function Text(): string
    {
      match this
      case Landing => "LANDING"
      case Auth => "AUTH"
      case DashboardView => "DASHBOARD"
      case LoanList => "LOAN_LIST"
      case LoanDetail => "LOAN_DETAIL"
      case Reports => "REPORTS"
      case Settings => "SETTINGS"
    }
  }

  const AllViewStates: seq<ViewState> := [Landing, Auth, DashboardView, LoanList, LoanDetail, Reports, Settings]

  /** The view whose name is `s`; `None` when no view has that name. It
      exists to state that the union's names are distinct and read back. */
  function ParseViewState(s: string): (r: Option<ViewState>)
    ensures r.Some? ==> r.value.Text() == s
    ensures r.None? ==> forall v :: v in AllViewStates ==> v.Text() != s
  {
    if s == "LANDING" then Some(Landing)
    else if s == "AUTH" then Some(Auth)
    else if s == "DASHBOARD" then Some(DashboardView)
    else if s == "LOAN_LIST" then Some(LoanList)
    else if s == "LOAN_DETAIL" then Some(LoanDetail)
    else if s == "REPORTS" then Some(Reports)
    else if s == "SETTINGS" then Some(Settings)
    else None
  }

  lemma ViewStateValues()
    ensures |AllViewStates| == 7
    ensures forall v: ViewState :: v in AllViewStates
    ensures forall i, j :: 0 <= i < j < 7 ==> AllViewStates[i].Text() != AllViewStates[j].Text()
    ensures forall v: ViewState :: ParseViewState(v.Text()) == Some(v)
  {
    forall v: ViewState ensures v in AllViewStates {
      match v
      case Landing => assert AllViewStates[0] == v;
      case Auth => assert AllViewStates[1] == v;
      case DashboardView => assert AllViewStates[2] == v;
      case LoanList => assert AllViewStates[3] == v;
      case LoanDetail => assert AllViewStates[4] == v;
      case Reports => assert AllViewStates[5] == v;
      case Settings => assert AllViewStates[6] == v;
    }
  }
}
