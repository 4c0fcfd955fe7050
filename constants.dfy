/** The in-memory sample portfolio (constants.ts) that every view reads. */
module Constants {
  import opened Types

  const Cov1: Covenant := Covenant(
    "cov_1", "Quarterly Financials", Reporting, Date(2024, 3, 31), Compliant, None, None,
    "Submission of unaudited quarterly financial statements within 45 days of quarter end.")

  const Cov2: Covenant := Covenant(
    "cov_2", "Leverage Ratio", Financial, Date(2024, 3, 31), AtRisk, Some("3.9x"), Some("< 4.0x"),
    "Total Net Debt to EBITDA must not exceed 4.0x.")

  const Cov3: Covenant := Covenant(
    "cov_3", "Interest Coverage", Financial, Date(2024, 6, 30), Upcoming, None, Some("> 2.5x"),
    "EBITDA to Interest Expense ratio must be maintained above 2.5x.")

  const Cov4: Covenant := Covenant(
    "cov_4", "Annual Audit", Reporting, Date(2023, 12, 31), Compliant, None, None,
    "Audited annual financials by KPMG or equivalent.")

  const Cov5: Covenant := Covenant(
    "cov_5", "Debt Service Coverage", Financial, Date(2024, 3, 31), Breached, Some("1.1x"), Some("> 1.25x"),
    "DSCR must be greater than 1.25x calculated on a rolling 12-month basis.")

  const Acme: Loan := Loan(
    "ln_001", "Acme Corp Industrial", 15_000_000, "USD", None,
    Date(2023, 1, 15), Date(2028, 1, 15), Active, 92, [Cov1, Cov2, Cov3], None, None, None)

  const Helios: Loan := Loan(
    "ln_002", "Helios Energy Ltd", 45_000_000, "USD", None,
    Date(2022, 6, 1), Date(2027, 6, 1), Active, 78, [Cov4, Cov5], None, None, None)

  const Omni: Loan := Loan(
    "ln_003", "Omni Retail Group", 8_500_000, "USD", None,
    Date(2023, 9, 1), Date(2026, 9, 1), Pending, 100, [], None, None, None)

  /** `MOCK_LOANS`. */
  const MockLoans: seq<Loan> := [Acme, Helios, Omni]
}
