/** What the three vendor parsers share: the rules they search a statement's text with, the
    first-match captures those rules yield, and the field record the parsers fill in. */
module Statement {
  import opened Wrappers
  import opened Currency
  import opened Dates

  /** One constructor per regular expression the parsers search with (each with
      re.IGNORECASE, except TiaaContractId). */
  datatype Rule =
    // Jackson (AnnuityStatementParser)
    | JacksonPeriod             // For the period of (<long date>) to (<long date>)
    | JacksonEndingDate         // Ending.Value.on.(mm/dd/yyyy)
    | JacksonBeginningDate      // Beginning.Value.on.(mm/dd/yyyy)
    | JacksonContractNumber     // Contract\s+Number[:\s]+(\d+)
    | JacksonPolicyNumber       // Policy\s+Number[:\s]+(\d+)
    | JacksonBeginning          // Beginning Value on <date> <amount>
    | JacksonEnding             // Ending.Value.on.<date>.<amount>
    | JacksonEndingAlt          // Ending Value, anything but '$' or digits, <amount>
    | JacksonPremium            // Total Premium <amount>
    | JacksonWithdrawals        // Total Withdrawals <amount>
    | JacksonTax                // Total Tax Withheld (or Withteld) <amount>
    | JacksonNetChange          // Net Change <amount>
    | JacksonNetChangeNegative  // Net Change (<amount>)
    | JacksonGuaranteedBalance  // Remaining Guaranteed Withdrawal Balance <amount>
    | JacksonDeathBenefit       // Death Benefit Value <amount>
    | JacksonEarningsBaseline   // Earnings Determination Baseline <amount>
    | JacksonBonusBase          // Guaranteed Withdrawal Balance Bonus Base <amount>
    // TIAA (TIAAStatementParser)
    | TiaaPeriod                // [FOR] (<long date>) to (<long date>)
    | TiaaContractId            // ([CU]\d{6}-\d), case-sensitive
    | TiaaBeginning             // Beginning balance $ <amount>
    | TiaaEnding                // Ending balance $ <amount>
    | TiaaOtherCredits          // Other Credits $ <amount>
    | TiaaGainsLoss             // Gains/Loss $ <amount>
    | TiaaInterest              // TIAA Interest $ <amount>
    | TiaaGainsLossNegative     // Gains/Loss ($ <amount>)
    // Valic (ValicStatementParser)
    | ValicPeriod               // (<long date>) - (<long date>)
    | ValicAccountNumber        // Account Number: (\d+)
    | ValicBeginning            // Beginning Value $ <amount>
    | ValicEnding               // Ending Value $ <amount>
    | ValicContributions        // Employer contributions $ <amount>
    | ValicNetChange            // Net change in value $ <amount>
    | ValicNetChangeNegative    // Net change in value ($ <amount>)

  /** The captures of the first match of each rule that matches a text (re.search): an amount
      rule captures `[\d,]+\.\d{2}`, a date rule one date string, a period rule two, an
      identifier rule the identifier. A rule absent from its map did not match. */
  datatype Matches = Matches(
    amounts: map<Rule, AmountText>,
    dates: map<Rule, string>,
    periods: map<Rule, (string, string)>,
    ids: map<Rule, string>)

  /** The parser's `data` dict: a field is None while its key is absent. */
  datatype StatementData = StatementData(
    statementDate: Option<Date>,
    periodStart: Option<Date>,
    periodEnd: Option<Date>,
    policyNumber: Option<string>,
    beginning: Option<int>,
    ending: Option<int>,
    premiums: Option<int>,
    withdrawals: Option<int>,
    taxWithholding: Option<int>,
    netChange: Option<int>,
    remainingGuaranteedBalance: Option<int>,
    deathBenefit: Option<int>,
    earningsDeterminationBaseline: Option<int>,
    bonusBaseline: Option<int>)

  /** The dict a freshly constructed parser starts with. */
  const Empty := StatementData(None, None, None, None, None, None, None, None, None, None, None, None, None, None)

  /** Why `parse` raises ValueError: no extraction stage gave enough text, or strptime rejected a
      captured date. */
  datatype ParseError = NoUsableText | BadDate

  /** The value in cents of the amount rule r captured, if r matched. */
  function Amount(m: Matches, r: Rule): (v: Option<int>)
    ensures v.Some? <==> r in m.amounts
    ensures v.Some? ==> v.value >= 0 && ParseCurrency(m.amounts[r]) == v
  {
    if r in m.amounts then Some(Cents(m.amounts[r])) else None
  }

  /** The value of a parenthesised amount: its magnitude negated. */
  function Negated(v: Option<int>): (w: Option<int>)
    ensures w.Some? <==> v.Some?
    ensures w.Some? ==> w.value + v.value == 0
  {
    if v.Some? then Some(-v.value) else None
  }

  /** The identifier rule r captured, if r matched. */
  function Id(m: Matches, r: Rule): (v: Option<string>)
    ensures v.Some? <==> r in m.ids
    ensures v.Some? ==> v.value == m.ids[r]
  {
    if r in m.ids then Some(m.ids[r]) else None
  }

  /** Both '%B %d, %Y' dates of a matched period phrase, or BadDate when strptime rejects
      either of them. */
  function PeriodDates(p: (string, string)): (r: Result<(Date, Date), ParseError>)
    ensures r.Ok? <==> ParseLongDate(p.0).Some? && ParseLongDate(p.1).Some?
    ensures r.Ok? ==> r.value == (ParseLongDate(p.0).value, ParseLongDate(p.1).value)
    ensures r.Err? ==> r.error == BadDate
  {
    var start := ParseLongDate(p.0);
    var end := ParseLongDate(p.1);
    if start.None? || end.None? then Err(BadDate) else Ok((start.value, end.value))
  }

  /** The update every vendor's `_parse_period_dates` makes when its period phrase matched:
      start and end from the phrase, and the statement date equal to the period end. */
  function WithPeriod(d: StatementData, start: Date, end: Date): (e: StatementData)
    ensures e.periodStart == Some(start) && e.periodEnd == Some(end) && e.statementDate == Some(end)
    ensures e.(statementDate := d.statementDate, periodStart := d.periodStart, periodEnd := d.periodEnd) == d
  {
    d.(periodStart := Some(start), periodEnd := Some(end), statementDate := Some(end))
  }

  /** What a vendor's period phrase (rule r) does to the data: nothing when it did not match;
      when it did, both its dates, with the statement date equal to the period end, or BadDate
      when strptime rejects either date. */
  function PeriodPhrase(m: Matches, r: Rule, d: StatementData): (res: Result<StatementData, ParseError>)
    ensures r !in m.periods ==> res == Ok(d)
    ensures r in m.periods ==> (res.Ok? <==> PeriodDates(m.periods[r]).Ok?)
    ensures r in m.periods && res.Ok? ==>
      && res.value.periodStart == ParseLongDate(m.periods[r].0)
      && res.value.statementDate == res.value.periodEnd == ParseLongDate(m.periods[r].1)
    ensures res.Ok? ==> res.value == d.(statementDate := res.value.statementDate,
      periodStart := res.value.periodStart, periodEnd := res.value.periodEnd)
    ensures res.Err? ==> res.error == BadDate
  {
    if r !in m.periods then Ok(d)
    else
      var p := PeriodDates(m.periods[r]);
      if p.Err? then Err(BadDate) else Ok(WithPeriod(d, p.value.0, p.value.1))
  }
}
