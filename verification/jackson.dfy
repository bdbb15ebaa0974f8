/** The Jackson parser (AnnuityStatementParser): the default parser, used for Jackson statements
    and for any statement the classifier does not recognise. */
module Jackson {
  import opened Wrappers
  import opened Currency
  import opened Dates
  import opened Statement
  import opened Recovery
  import opened Validation

  // ---------------------------------------------------------------------------------
  // What each `_parse_*` step does to the data, as functions of the matches.

  /** `_parse_contract_info`: the Contract Number, else the Policy Number, becomes the policy
      number; nothing else changes. */
  function ContractInfo(m: Matches, d: StatementData): (e: StatementData)
    ensures e == d.(policyNumber := e.policyNumber)
    ensures JacksonContractNumber in m.ids ==> e.policyNumber == Some(m.ids[JacksonContractNumber])
    ensures JacksonContractNumber !in m.ids && JacksonPolicyNumber in m.ids ==>
      e.policyNumber == Some(m.ids[JacksonPolicyNumber])
    ensures JacksonContractNumber !in m.ids && JacksonPolicyNumber !in m.ids ==> e == d
  {
    d.(policyNumber := Or(Or(Id(m, JacksonContractNumber), Id(m, JacksonPolicyNumber)), d.policyNumber))
  }

  /** A numeric date field that strptime('%m/%d/%Y') must read, or BadDate. */
  function NumericDate(m: Matches, r: Rule): (v: Result<Date, ParseError>)
    requires r in m.dates
    ensures v.Ok? <==> ParseNumericDate(m.dates[r]).Some?
    ensures v.Ok? ==> Some(v.value) == ParseNumericDate(m.dates[r])
  {
    var date := ParseNumericDate(m.dates[r]);
    if date.None? then Err(BadDate) else Ok(date.value)
  }

  /** `_parse_period_dates`: the period phrase sets start, end and statement date; when no
      statement date is known after that, "Ending Value on" sets the statement date and the
      period end; when no period start is known, "Beginning Value on" sets it. */
  function PeriodDatesOf(m: Matches, d: StatementData): (r: Result<StatementData, ParseError>)
    ensures r.Err? ==> r.error == BadDate
    ensures r.Ok? ==> r.value == d.(statementDate := r.value.statementDate,
      periodStart := r.value.periodStart, periodEnd := r.value.periodEnd)
  {
    var afterPeriod := PeriodPhrase(m, JacksonPeriod, d);
    if afterPeriod.Err? then afterPeriod
    else
      var d1 := afterPeriod.value;
      var afterEnding :=
        if d1.statementDate.Some? || JacksonEndingDate !in m.dates then Ok(d1)
        else
          var end := NumericDate(m, JacksonEndingDate);
          if end.Err? then Err(BadDate) else Ok(d1.(statementDate := Some(end.value), periodEnd := Some(end.value)));
      if afterEnding.Err? then afterEnding
      else
        var d2 := afterEnding.value;
        if d2.periodStart.Some? || JacksonBeginningDate !in m.dates then Ok(d2)
        else
          var start := NumericDate(m, JacksonBeginningDate);
          if start.Err? then Err(BadDate) else Ok(d2.(periodStart := Some(start.value)))
  }

  /** `_parse_contract_summary`: the six contract-summary figures. */
  function ContractSummary(m: Matches, d: StatementData): (e: StatementData)
    ensures e == d.(beginning := e.beginning, ending := e.ending, premiums := e.premiums,
      withdrawals := e.withdrawals, taxWithholding := e.taxWithholding, netChange := e.netChange)
    ensures e.beginning == (if JacksonBeginning in m.amounts then ParseCurrency(m.amounts[JacksonBeginning]) else d.beginning)
    ensures e.premiums == (if JacksonPremium in m.amounts then ParseCurrency(m.amounts[JacksonPremium]) else d.premiums)
    ensures e.withdrawals == (if JacksonWithdrawals in m.amounts then ParseCurrency(m.amounts[JacksonWithdrawals]) else d.withdrawals)
    ensures e.taxWithholding == (if JacksonTax in m.amounts then ParseCurrency(m.amounts[JacksonTax]) else d.taxWithholding)
  {
    d.(beginning := Or(Amount(m, JacksonBeginning), d.beginning),
       ending := Or(Or(Amount(m, JacksonEnding), Amount(m, JacksonEndingAlt)), d.ending),
       premiums := Or(Amount(m, JacksonPremium), d.premiums),
       withdrawals := Or(Amount(m, JacksonWithdrawals), d.withdrawals),
       taxWithholding := Or(Amount(m, JacksonTax), d.taxWithholding),
       netChange := Or(Or(Amount(m, JacksonNetChange), Negated(Amount(m, JacksonNetChangeNegative))), d.netChange))
  }

  /** `_parse_benefit_values`: the four benefit-base figures. */
  function BenefitValues(m: Matches, d: StatementData): (e: StatementData)
    ensures e == d.(remainingGuaranteedBalance := e.remainingGuaranteedBalance, deathBenefit := e.deathBenefit,
      earningsDeterminationBaseline := e.earningsDeterminationBaseline, bonusBaseline := e.bonusBaseline)
    ensures e.remainingGuaranteedBalance == (if JacksonGuaranteedBalance in m.amounts then ParseCurrency(m.amounts[JacksonGuaranteedBalance]) else d.remainingGuaranteedBalance)
    ensures e.deathBenefit == (if JacksonDeathBenefit in m.amounts then ParseCurrency(m.amounts[JacksonDeathBenefit]) else d.deathBenefit)
    ensures e.earningsDeterminationBaseline == (if JacksonEarningsBaseline in m.amounts then ParseCurrency(m.amounts[JacksonEarningsBaseline]) else d.earningsDeterminationBaseline)
    ensures e.bonusBaseline == (if JacksonBonusBase in m.amounts then ParseCurrency(m.amounts[JacksonBonusBase]) else d.bonusBaseline)
  {
    d.(remainingGuaranteedBalance := Or(Amount(m, JacksonGuaranteedBalance), d.remainingGuaranteedBalance),
       deathBenefit := Or(Amount(m, JacksonDeathBenefit), d.deathBenefit),
       earningsDeterminationBaseline := Or(Amount(m, JacksonEarningsBaseline), d.earningsDeterminationBaseline),
       bonusBaseline := Or(Amount(m, JacksonBonusBase), d.bonusBaseline))
  }

  /** The four steps in `parse`'s order on the matches of the chosen text. */
  function Fields(m: Matches, d: StatementData): (r: Result<StatementData, ParseError>)
    ensures r.Err? ==> r.error == BadDate
  {
    var dated := PeriodDatesOf(m, ContractInfo(m, d));
    if dated.Err? then dated else Ok(BenefitValues(m, ContractSummary(m, dated.value)))
  }

  /** `parse` from the data d: recover the text, then extract the fields from its matches. */
  function Parsed(doc: Document, scan: string -> Matches, d: StatementData): (r: Result<StatementData, ParseError>)
    ensures SequentialText(doc).Err? ==> r == Err(NoUsableText)
    ensures SequentialText(doc).Ok? ==> r == Fields(scan(SequentialText(doc).value), d)
  {
    var text := SequentialText(doc);
    if text.Err? then Err(text.error) else Fields(scan(text.value), d)
  }

  // ---------------------------------------------------------------------------------
  // The parser object.

  class JacksonParser {
    /** The statement the parser was constructed for (its pdf_path). */
    const doc: Document
    var data: StatementData

    constructor(doc: Document)
      ensures this.doc == doc && data == Empty
    {
      this.doc := doc;
      data := Empty;
    }

    method ParseContractInfo(m: Matches)
      modifies this
      ensures data == ContractInfo(m, old(data))
    {
      if JacksonContractNumber in m.ids {
        data := data.(policyNumber := Some(m.ids[JacksonContractNumber]));
      } else if JacksonPolicyNumber in m.ids {
        data := data.(policyNumber := Some(m.ids[JacksonPolicyNumber]));
      }
    }

    /** Returns false where strptime raises; the data is then left part-way. */
    method ParsePeriodDates(m: Matches) returns (ok: bool)
      modifies this
      ensures ok <==> PeriodDatesOf(m, old(data)).Ok?
      ensures ok ==> data == PeriodDatesOf(m, old(data)).value
    {
      if JacksonPeriod in m.periods {
        var (startText, endText) := m.periods[JacksonPeriod];
        var start := ParseLongDate(startText);
        if start.None? { return false; }
        data := data.(periodStart := start);
        var end := ParseLongDate(endText);
        if end.None? { return false; }
        data := data.(periodEnd := end);
        data := data.(statementDate := data.periodEnd);
      }
      if data.statementDate.None? && JacksonEndingDate in m.dates {
        var date := ParseNumericDate(m.dates[JacksonEndingDate]);
        if date.None? { return false; }
        data := data.(statementDate := date);
        data := data.(periodEnd := data.statementDate);
      }
      if data.periodStart.None? && JacksonBeginningDate in m.dates {
        var date := ParseNumericDate(m.dates[JacksonBeginningDate]);
        if date.None? { return false; }
        data := data.(periodStart := date);
      }
      return true;
    }

    method ParseContractSummary(m: Matches)
      modifies this
      ensures data == ContractSummary(m, old(data))
    {
      var beginning := Amount(m, JacksonBeginning);
      if beginning.Some? {
        data := data.(beginning := beginning);
      }
      var ending := Amount(m, JacksonEnding);
      if ending.Some? {
        data := data.(ending := ending);
      } else {
        var ending2 := Amount(m, JacksonEndingAlt);
        if ending2.Some? {
          data := data.(ending := ending2);
        }
      }
      var premium := Amount(m, JacksonPremium);
      if premium.Some? {
        data := data.(premiums := premium);
      }
      var withdrawal := Amount(m, JacksonWithdrawals);
      if withdrawal.Some? {
        data := data.(withdrawals := withdrawal);
      }
      var tax := Amount(m, JacksonTax);
      if tax.Some? {
        data := data.(taxWithholding := tax);
      }
      var netChange := Amount(m, JacksonNetChange);
      if netChange.Some? {
        data := data.(netChange := netChange);
      } else {
        var negative := Amount(m, JacksonNetChangeNegative);
        if negative.Some? {
          data := data.(netChange := Negated(negative));
        }
      }
    }

    method ParseBenefitValues(m: Matches)
      modifies this
      ensures data == BenefitValues(m, old(data))
    {
      if JacksonGuaranteedBalance in m.amounts {
        data := data.(remainingGuaranteedBalance := Some(Cents(m.amounts[JacksonGuaranteedBalance])));
      }
      if JacksonDeathBenefit in m.amounts {
        data := data.(deathBenefit := Some(Cents(m.amounts[JacksonDeathBenefit])));
      }
      if JacksonEarningsBaseline in m.amounts {
        data := data.(earningsDeterminationBaseline := Some(Cents(m.amounts[JacksonEarningsBaseline])));
      }
      if JacksonBonusBase in m.amounts {
        data := data.(bonusBaseline := Some(Cents(m.amounts[JacksonBonusBase])));
      }
    }

    /** `parse`: Err stands for the ValueError it raises. Without usable text nothing is parsed. */
    method Parse(scan: string -> Matches) returns (r: Result<StatementData, ParseError>)
      modifies this
      ensures r == Parsed(doc, scan, old(data))
      ensures r.Ok? ==> data == r.value
      ensures r == Err(NoUsableText) ==> data == old(data)
    {
      var text := SequentialText(doc);
      if text.Err? {
        return Err(NoUsableText);
      }
      var m := scan(text.value);
      ParseContractInfo(m);
      var ok := ParsePeriodDates(m);
      if !ok {
        return Err(BadDate);
      }
      ParseContractSummary(m);
      ParseBenefitValues(m);
      return Ok(data);
    }

    method Validate() returns (report: Report)
      ensures report == ValidationOf(data)
    {
      report := Validation.Validate(data);
    }
  }

  // ---------------------------------------------------------------------------------
  // What the Jackson extraction promises.

  /** Net change: the plain figure when there is one; only otherwise the parenthesised figure,
      negated; otherwise the field keeps its value. */
  lemma NetChangePlainThenNegative(m: Matches, d: StatementData)
    ensures var nc := ContractSummary(m, d).netChange;
      && (JacksonNetChange in m.amounts ==> nc == ParseCurrency(m.amounts[JacksonNetChange]))
      && (JacksonNetChange !in m.amounts && JacksonNetChangeNegative in m.amounts ==>
            nc.Some? && nc.value <= 0 && ParseCurrency(m.amounts[JacksonNetChangeNegative]) == Some(-nc.value))
      && (JacksonNetChange !in m.amounts && JacksonNetChangeNegative !in m.amounts ==> nc == d.netChange)
  {
  }

  /** The ending value comes from "Ending Value on <date>" and only falls back to the looser
      "Ending Value ... <amount>" pattern when that misses. */
  lemma EndingValueFallback(m: Matches, d: StatementData)
    ensures var e := ContractSummary(m, d).ending;
      && (JacksonEnding in m.amounts ==> e == ParseCurrency(m.amounts[JacksonEnding]))
      && (JacksonEnding !in m.amounts && JacksonEndingAlt in m.amounts ==> e == ParseCurrency(m.amounts[JacksonEndingAlt]))
      && (JacksonEnding !in m.amounts && JacksonEndingAlt !in m.amounts ==> e == d.ending)
  {
  }

  /** The period phrase takes precedence: when it matches, its dates are the period and the
      statement date is the period end, whatever the "Ending/Beginning Value on" dates say;
      a period date strptime rejects makes the parse fail. */
  lemma PeriodPhraseFirst(m: Matches, d: StatementData)
    requires JacksonPeriod in m.periods
    ensures var p := PeriodDates(m.periods[JacksonPeriod]);
      && (p.Err? ==> PeriodDatesOf(m, d) == Err(BadDate))
      && (p.Ok? ==> PeriodDatesOf(m, d) == Ok(WithPeriod(d, p.value.0, p.value.1)))
  {
  }

  /** Without the period phrase, on data with no dates yet, "Ending Value on" gives both the
      statement date and the period end, and "Beginning Value on" the period start. */
  lemma ValueOnDatesFallback(m: Matches, d: StatementData)
    requires JacksonPeriod !in m.periods && d.statementDate.None? && d.periodStart.None?
    requires PeriodDatesOf(m, d).Ok?
    ensures var e := PeriodDatesOf(m, d).value;
      && (JacksonEndingDate in m.dates ==>
            e.statementDate == e.periodEnd == ParseNumericDate(m.dates[JacksonEndingDate]))
      && (JacksonEndingDate !in m.dates ==> e.statementDate == None && e.periodEnd == d.periodEnd)
      && (JacksonBeginningDate in m.dates ==> e.periodStart == ParseNumericDate(m.dates[JacksonBeginningDate]))
      && (JacksonBeginningDate !in m.dates ==> e.periodStart == None)
  {
  }

  /** Every way `_parse_period_dates` sets the statement date sets the period end to the same
      date, so the two stay equal. */
  lemma StatementDateIsPeriodEnd(m: Matches, d: StatementData)
    requires d.statementDate == d.periodEnd
    ensures PeriodDatesOf(m, d).Ok? ==> PeriodDatesOf(m, d).value.statementDate == PeriodDatesOf(m, d).value.periodEnd
  {
  }

  /** A fresh parser that succeeds reports a statement date equal to its period end. */
  lemma ParsedStatementDate(doc: Document, scan: string -> Matches)
    ensures Parsed(doc, scan, Empty).Ok? ==> Parsed(doc, scan, Empty).value.statementDate == Parsed(doc, scan, Empty).value.periodEnd
  {
    if SequentialText(doc).Ok? {
      var m := scan(SequentialText(doc).value);
      StatementDateIsPeriodEnd(m, ContractInfo(m, Empty));
    }
  }

  /** From empty data, a figure whose label did not match stays absent. */
  lemma FieldsKeepAbsent(m: Matches)
    requires Fields(m, Empty).Ok?
    ensures var e := Fields(m, Empty).value;
      && (JacksonPremium !in m.amounts ==> e.premiums.None?)
      && (JacksonWithdrawals !in m.amounts ==> e.withdrawals.None?)
      && (JacksonTax !in m.amounts ==> e.taxWithholding.None?)
  {
    var dated := PeriodDatesOf(m, ContractInfo(m, Empty));
    assert dated.value.premiums.None? && dated.value.withdrawals.None? && dated.value.taxWithholding.None?;
    assert Fields(m, Empty).value == BenefitValues(m, ContractSummary(m, dated.value));
  }

  /** Unlike the TIAA and Valic parsers, the Jackson parser has no defaults: a fresh extraction
      from matches that lack the premium, withdrawal or tax figure fails validation on that field. */
  lemma MissingFigureIsAnError(m: Matches, e: StatementData)
    requires Fields(m, Empty) == Ok(e)
    ensures JacksonPremium !in m.amounts ==> MissingRequiredField(Premiums) in ValidationOf(e).errors
    ensures JacksonWithdrawals !in m.amounts ==> MissingRequiredField(Withdrawals) in ValidationOf(e).errors
    ensures JacksonTax !in m.amounts ==> MissingRequiredField(TaxWithholding) in ValidationOf(e).errors
  {
    FieldsKeepAbsent(m);
    AbsentFigureErrors(e);
  }
}
