/** The TIAA parser (TIAAStatementParser): OCR text first, several fields defaulted to zero, and a
    net change assembled from the Gains/Loss and TIAA Interest lines. */
module Tiaa {
  import opened Wrappers
  import opened Currency
  import opened Dates
  import opened Statement
  import opened Recovery
  import opened Validation

  /** `_parse_contract_info`: the first TIAA contract number ("C167959-0") is the policy number. */
  function ContractInfo(m: Matches, d: StatementData): (e: StatementData)
    ensures e == d.(policyNumber := e.policyNumber)
    ensures e.policyNumber == (if TiaaContractId in m.ids then Some(m.ids[TiaaContractId]) else d.policyNumber)
  {
    d.(policyNumber := Or(Id(m, TiaaContractId), d.policyNumber))
  }

  /** The Gains/Loss contribution to the net change: minus the parenthesised figure when there
      is one, else the plain figure, else 0. */
  function GainsLoss(m: Matches): (g: int)
    ensures TiaaGainsLossNegative in m.amounts ==> g <= 0 && ParseCurrency(m.amounts[TiaaGainsLossNegative]) == Some(-g)
    ensures TiaaGainsLossNegative !in m.amounts && TiaaGainsLoss in m.amounts ==>
      g >= 0 && ParseCurrency(m.amounts[TiaaGainsLoss]) == Some(g)
    ensures TiaaGainsLossNegative !in m.amounts && TiaaGainsLoss !in m.amounts ==> g == 0
  {
    var negative := Amount(m, TiaaGainsLossNegative);
    var gainsLoss := Amount(m, TiaaGainsLoss);
    if negative.Some? then -negative.value
    else if gainsLoss.Some? then gainsLoss.value
    else 0
  }

  /** The TIAA Interest figure, or 0. */
  function Interest(m: Matches): (i: int)
    ensures i >= 0
    ensures TiaaInterest in m.amounts ==> ParseCurrency(m.amounts[TiaaInterest]) == Some(i)
    ensures TiaaInterest !in m.amounts ==> i == 0
  {
    var interest := Amount(m, TiaaInterest);
    if interest.Some? then interest.value else 0
  }

  /** `_parse_account_values`: balances when found; premiums from Other Credits or 0; withdrawals
      and tax withholding 0; net change = Gains/Loss + TIAA Interest. */
  function AccountValues(m: Matches, d: StatementData): (e: StatementData)
    ensures e == d.(beginning := e.beginning, ending := e.ending, premiums := e.premiums,
      withdrawals := e.withdrawals, taxWithholding := e.taxWithholding, netChange := e.netChange)
    ensures e.premiums.Some? && e.withdrawals == Some(0) && e.taxWithholding == Some(0)
    ensures e.netChange == Some(GainsLoss(m) + Interest(m))
    ensures e.beginning == (if TiaaBeginning in m.amounts then ParseCurrency(m.amounts[TiaaBeginning]) else d.beginning)
    ensures e.ending == (if TiaaEnding in m.amounts then ParseCurrency(m.amounts[TiaaEnding]) else d.ending)
    ensures e.premiums == (if TiaaOtherCredits in m.amounts then ParseCurrency(m.amounts[TiaaOtherCredits]) else Some(0))
  {
    d.(beginning := Or(Amount(m, TiaaBeginning), d.beginning),
       ending := Or(Amount(m, TiaaEnding), d.ending),
       premiums := Or(Amount(m, TiaaOtherCredits), Some(0)),
       withdrawals := Some(0),
       taxWithholding := Some(0),
       netChange := Some(GainsLoss(m) + Interest(m)))
  }

  /** The three steps in `parse`'s order on the matches of the combined text. */
  function Fields(m: Matches, d: StatementData): (r: Result<StatementData, ParseError>)
    ensures r.Err? ==> r.error == BadDate
  {
    var dated := PeriodPhrase(m, TiaaPeriod, ContractInfo(m, d));
    if dated.Err? then dated else Ok(AccountValues(m, dated.value))
  }

  function Parsed(doc: Document, scan: string -> Matches, d: StatementData): (r: Result<StatementData, ParseError>)
    ensures TiaaText(doc).Err? ==> r == Err(NoUsableText)
    ensures TiaaText(doc).Ok? ==> r == Fields(scan(TiaaText(doc).value), d)
  {
    var text := TiaaText(doc);
    if text.Err? then Err(text.error) else Fields(scan(text.value), d)
  }

  class TiaaParser {
    const doc: Document
    var data: StatementData

    constructor(doc: Document)
      ensures this.doc == doc && data == Empty
    {
      this.doc := doc;
      data := Empty;
    }

    method ParsePeriodDates(m: Matches) returns (ok: bool)
      modifies this
      ensures ok <==> PeriodPhrase(m, TiaaPeriod, old(data)).Ok?
      ensures ok ==> data == PeriodPhrase(m, TiaaPeriod, old(data)).value
    {
      if TiaaPeriod in m.periods {
        var (startText, endText) := m.periods[TiaaPeriod];
        var start := ParseLongDate(startText);
        if start.None? { return false; }
        data := data.(periodStart := start);
        var end := ParseLongDate(endText);
        if end.None? { return false; }
        data := data.(periodEnd := end);
        data := data.(statementDate := data.periodEnd);
      }
      return true;
    }

    method ParseContractInfo(m: Matches)
      modifies this
      ensures data == ContractInfo(m, old(data))
    {
      if TiaaContractId in m.ids {
        data := data.(policyNumber := Some(m.ids[TiaaContractId]));
      }
    }

    method ParseAccountValues(m: Matches)
      modifies this
      ensures data == AccountValues(m, old(data))
    {
      var beginning := Amount(m, TiaaBeginning);
      if beginning.Some? {
        data := data.(beginning := beginning);
      }
      var ending := Amount(m, TiaaEnding);
      if ending.Some? {
        data := data.(ending := ending);
      }
      var credits := Amount(m, TiaaOtherCredits);
      if credits.Some? {
        data := data.(premiums := credits);
      } else {
        data := data.(premiums := Some(0));
      }
      data := data.(withdrawals := Some(0));
      data := data.(taxWithholding := Some(0));

      var netChange := NetChangeOf(m);
      data := data.(netChange := Some(netChange));
    }

    /** The net change `_parse_account_values` computes: Gains/Loss plus TIAA Interest, where a
        Gains/Loss in parentheses replaces the sum with its negation plus the interest. */
    method NetChangeOf(m: Matches) returns (netChange: int)
      ensures netChange == GainsLoss(m) + Interest(m)
    {
      var gainsLoss := Amount(m, TiaaGainsLoss);
      var interest := Amount(m, TiaaInterest);
      netChange := 0;
      if gainsLoss.Some? {
        netChange := netChange + gainsLoss.value;
      }
      if interest.Some? {
        netChange := netChange + interest.value;
      }
      var negative := Amount(m, TiaaGainsLossNegative);
      if negative.Some? {
        netChange := -negative.value;
        if interest.Some? {
          netChange := netChange + interest.value;
        }
      }
    }

    /** `parse`: Err stands for the ValueError it raises. Without usable text nothing is parsed. */
    method Parse(scan: string -> Matches) returns (r: Result<StatementData, ParseError>)
      modifies this
      ensures r == Parsed(doc, scan, old(data))
      ensures r.Ok? ==> data == r.value
      ensures r == Err(NoUsableText) ==> data == old(data)
    {
      var text := TiaaText(doc);
      if text.Err? {
        return Err(NoUsableText);
      }
      var m := scan(text.value);
      ParseContractInfo(m);
      var ok := ParsePeriodDates(m);
      if !ok {
        return Err(BadDate);
      }
      ParseAccountValues(m);
      return Ok(data);
    }

    method Validate() returns (report: Report)
      ensures report == ValidationOf(data)
    {
      report := Validation.Validate(data);
    }
  }

  // ---------------------------------------------------------------------------------
  // What the TIAA extraction promises.

  /** Premiums, withdrawals, tax withholding and net change are always set, so a successful
      TIAA parse never reports them missing; premiums is 0 when Other Credits is absent. */
  lemma DefaultsNeverMissing(doc: Document, scan: string -> Matches, d: StatementData)
    requires Parsed(doc, scan, d).Ok?
    ensures var e := Parsed(doc, scan, d).value;
      var m := scan(TiaaText(doc).value);
      && e.withdrawals == Some(0) && e.taxWithholding == Some(0)
      && (TiaaOtherCredits !in m.amounts ==> e.premiums == Some(0))
      && forall issue :: issue in ValidationOf(e).errors ==>
           issue.field in {StatementDate, PeriodStart, PeriodEnd, BeginningValue, EndingValue}
  {
    var m := scan(TiaaText(doc).value);
    assert Parsed(doc, scan, d) == Fields(m, d);
    FieldsDefaults(m, d);
    ActivityNeverMissing(Fields(m, d).value);
  }

  /** The defaults hold of every successful extraction from the matches. */
  lemma FieldsDefaults(m: Matches, d: StatementData)
    requires Fields(m, d).Ok?
    ensures var e := Fields(m, d).value;
      && e.premiums.Some? && e.netChange.Some?
      && e.withdrawals == Some(0) && e.taxWithholding == Some(0)
      && (TiaaOtherCredits !in m.amounts ==> e.premiums == Some(0))
  {
    var dated := PeriodPhrase(m, TiaaPeriod, ContractInfo(m, d));
    assert Fields(m, d).value == AccountValues(m, dated.value);
  }

  /** The net change is Gains/Loss plus TIAA Interest, each 0 when absent; a parenthesised
      Gains/Loss replaces the plain one and counts negatively. */
  lemma NetChangeFromGainsAndInterest(m: Matches, d: StatementData)
    ensures var nc := AccountValues(m, d).netChange.value;
      && (TiaaGainsLossNegative !in m.amounts ==>
            nc == Or(Amount(m, TiaaGainsLoss), Some(0)).value + Or(Amount(m, TiaaInterest), Some(0)).value)
      && (TiaaGainsLossNegative in m.amounts ==>
            nc == -Amount(m, TiaaGainsLossNegative).value + Or(Amount(m, TiaaInterest), Some(0)).value)
  {
  }

  /** A fresh parser that succeeds reports a statement date equal to its period end (both
      absent when the period phrase is missing). */
  lemma ParsedStatementDate(doc: Document, scan: string -> Matches)
    ensures Parsed(doc, scan, Empty).Ok? ==> Parsed(doc, scan, Empty).value.statementDate == Parsed(doc, scan, Empty).value.periodEnd
  {
    if TiaaText(doc).Ok? {
      var m := scan(TiaaText(doc).value);
      assert ContractInfo(m, Empty).statementDate == ContractInfo(m, Empty).periodEnd;
    }
  }
}
