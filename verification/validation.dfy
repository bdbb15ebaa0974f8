/** The `validate` method all three parsers share: one error per missing required field, then,
    only when nothing is missing, the one-dollar reconciliation check. */
module Validation {
  import opened Wrappers
  import opened Statement

  datatype Field =
    | StatementDate | PeriodStart | PeriodEnd | BeginningValue | EndingValue
    | Premiums | Withdrawals | TaxWithholding | NetChange

  /** The required fields in the order `validate` checks them. */
  const RequiredFields: seq<Field> := [StatementDate, PeriodStart, PeriodEnd, BeginningValue,
    EndingValue, Premiums, Withdrawals, TaxWithholding, NetChange]

  /** The position of f in RequiredFields. */
  function Rank(f: Field): (k: nat)
    ensures k < |RequiredFields| && RequiredFields[k] == f
  {
    match f
    case StatementDate => 0
    case PeriodStart => 1
    case PeriodEnd => 2
    case BeginningValue => 3
    case EndingValue => 4
    case Premiums => 5
    case Withdrawals => 6
    case TaxWithholding => 7
    case NetChange => 8
  }

  /** The key of f is in the parser's data. */
  predicate Has(d: StatementData, f: Field) {
    match f
    case StatementDate => d.statementDate.Some?
    case PeriodStart => d.periodStart.Some?
    case PeriodEnd => d.periodEnd.Some?
    case BeginningValue => d.beginning.Some?
    case EndingValue => d.ending.Some?
    case Premiums => d.premiums.Some?
    case Withdrawals => d.withdrawals.Some?
    case TaxWithholding => d.taxWithholding.Some?
    case NetChange => d.netChange.Some?
  }

  predicate Complete(d: StatementData) {
    forall f: Field :: Has(d, f)
  }

  datatype Issue =
    | MissingRequiredField(field: Field)
    | ReconciliationMismatch(expected: int, shown: int, difference: int)

  datatype Report = Report(errors: seq<Issue>, warnings: seq<Issue>)

  /** The errors for the fields of fs that d lacks, in the order of fs. */
  function MissingErrors(d: StatementData, fs: seq<Field>): (errs: seq<Issue>)
    ensures |errs| <= |fs|
    ensures forall e :: e in errs ==> e.MissingRequiredField? && e.field in fs && !Has(d, e.field)
    ensures forall f :: f in fs && !Has(d, f) ==> MissingRequiredField(f) in errs
    ensures (forall f :: f in fs ==> Has(d, f)) ==> errs == []
  {
    if fs == [] then []
    else
      var last := fs[|fs| - 1];
      assert fs == fs[..|fs| - 1] + [last];
      MissingErrors(d, fs[..|fs| - 1]) + (if Has(d, last) then [] else [MissingRequiredField(last)])
  }

  lemma MissingErrorsSnoc(d: StatementData, fs: seq<Field>, f: Field)
    ensures MissingErrors(d, fs + [f]) == MissingErrors(d, fs) + (if Has(d, f) then [] else [MissingRequiredField(f)])
  {
    assert (fs + [f])[..|fs|] == fs;
  }

  /** One more field of the required list adds its error, if it is missing. */
  lemma MissingErrorsStep(d: StatementData, i: int)
    requires 0 <= i < |RequiredFields|
    ensures MissingErrors(d, RequiredFields[..i + 1]) == MissingErrors(d, RequiredFields[..i])
      + (if Has(d, RequiredFields[i]) then [] else [MissingRequiredField(RequiredFields[i])])
  {
    assert RequiredFields[..i + 1] == RequiredFields[..i] + [RequiredFields[i]];
    MissingErrorsSnoc(d, RequiredFields[..i], RequiredFields[i]);
  }

  /** The ending value the other four figures imply. */
  function ExpectedEnding(d: StatementData): int
    requires Complete(d)
  {
    assert Has(d, BeginningValue) && Has(d, Premiums) && Has(d, NetChange);
    assert Has(d, Withdrawals) && Has(d, TaxWithholding);
    d.beginning.value + d.premiums.value + d.netChange.value - d.withdrawals.value - d.taxWithholding.value
  }

  function Abs(x: int): (a: int)
    ensures a >= 0 && (a == x || a == -x)
  {
    if x < 0 then -x else x
  }

  /** The ending value the statement shows. */
  function Shown(d: StatementData): int
    requires Complete(d)
  {
    assert Has(d, EndingValue);
    d.ending.value
  }

  /** How far the shown ending value is from the implied one. */
  function Difference(d: StatementData): (diff: int)
    requires Complete(d)
    ensures diff >= 0
  {
    Abs(Shown(d) - ExpectedEnding(d))
  }

  /** The warnings `validate` adds once no field is missing. */
  function ReconciliationWarnings(d: StatementData): (ws: seq<Issue>)
    requires Complete(d)
    ensures |ws| <= 1
  {
    if Difference(d) > 100 then [ReconciliationMismatch(ExpectedEnding(d), Shown(d), Difference(d))] else []
  }

  /** No required field reported missing means every field is present. */
  lemma NoErrorsComplete(d: StatementData)
    requires MissingErrors(d, RequiredFields) == []
    ensures Complete(d)
  {
    forall f: Field ensures Has(d, f) {
      assert RequiredFields[Rank(f)] == f;
    }
  }

  /** What `validate` returns for the data d. */
  function ValidationOf(d: StatementData): (r: Report)
    ensures r.errors == MissingErrors(d, RequiredFields)
    ensures r.errors != [] ==> r.warnings == []
  {
    var errors := MissingErrors(d, RequiredFields);
    if errors != [] then Report(errors, [])
    else
      NoErrorsComplete(d);
      Report(errors, ReconciliationWarnings(d))
  }

  /** `validate`: the loop over the required fields, then the reconciliation check. */
  method Validate(d: StatementData) returns (r: Report)
    ensures r == ValidationOf(d)
  {
    var errors := [];
    var i := 0;
    while i < |RequiredFields|
      invariant 0 <= i <= |RequiredFields|
      invariant errors == MissingErrors(d, RequiredFields[..i])
    {
      var field := RequiredFields[i];
      MissingErrorsStep(d, i);
      if !Has(d, field) {
        errors := errors + [MissingRequiredField(field)];
      }
      i := i + 1;
    }
    assert RequiredFields[..i] == RequiredFields;
    var warnings := [];
    if errors == [] {
      NoErrorsComplete(d);
      var expected := ExpectedEnding(d);
      var difference := Abs(Shown(d) - expected);
      if difference > 100 {
        warnings := warnings + [ReconciliationMismatch(expected, Shown(d), difference)];
      }
    }
    r := Report(errors, warnings);
  }

  // ---------------------------------------------------------------------------------
  // What `validate` promises.

  /** There is an error for a field exactly when the field is missing. */
  lemma ErrorIffMissing(d: StatementData, f: Field)
    ensures MissingRequiredField(f) in ValidationOf(d).errors <==> !Has(d, f)
  {
    assert RequiredFields[Rank(f)] == f;
  }

  /** A statement without a premium, withdrawal or tax figure is reported missing that field. */
  lemma AbsentFigureErrors(d: StatementData)
    ensures d.premiums.None? ==> MissingRequiredField(Premiums) in ValidationOf(d).errors
    ensures d.withdrawals.None? ==> MissingRequiredField(Withdrawals) in ValidationOf(d).errors
    ensures d.taxWithholding.None? ==> MissingRequiredField(TaxWithholding) in ValidationOf(d).errors
  {
    ErrorIffMissing(d, Premiums);
    ErrorIffMissing(d, Withdrawals);
    ErrorIffMissing(d, TaxWithholding);
  }

  /** With the activity figures present, only dates, values or the net change can be missing. */
  lemma ActivityNeverMissing(d: StatementData)
    requires d.premiums.Some? && d.withdrawals.Some? && d.taxWithholding.Some?
    ensures forall issue :: issue in ValidationOf(d).errors ==>
      issue.field in {StatementDate, PeriodStart, PeriodEnd, BeginningValue, EndingValue, NetChange}
    ensures d.netChange.Some? ==> forall issue :: issue in ValidationOf(d).errors ==>
      issue.field in {StatementDate, PeriodStart, PeriodEnd, BeginningValue, EndingValue}
  {
    forall issue | issue in ValidationOf(d).errors
      ensures !Has(d, issue.field)
    {
    }
  }

  /** Only missing-field errors, and no error when nothing is missing. */
  lemma ErrorsOnlyMissing(d: StatementData)
    ensures forall e :: e in ValidationOf(d).errors ==> e.MissingRequiredField?
    ensures ValidationOf(d).errors == [] <==> Complete(d)
  {
    if !Complete(d) {
      var f: Field :| !Has(d, f);
      ErrorIffMissing(d, f);
    }
  }

  /** The errors follow the order of the required fields, so none is reported twice. */
  lemma {:induction false} MissingErrorsOrdered(d: StatementData, fs: seq<Field>, i: int, j: int)
    requires forall a, b :: 0 <= a < b < |fs| ==> Rank(fs[a]) < Rank(fs[b])
    requires 0 <= i < j < |MissingErrors(d, fs)|
    ensures Rank(MissingErrors(d, fs)[i].field) < Rank(MissingErrors(d, fs)[j].field)
  {
    var init := fs[..|fs| - 1];
    var last := fs[|fs| - 1];
    var prefix := MissingErrors(d, init);
    if j < |prefix| {
      MissingErrorsOrdered(d, init, i, j);
    } else {
      assert MissingErrors(d, fs)[j].field == last;
      assert MissingErrors(d, fs)[i] == prefix[i];
      assert prefix[i] in prefix;
      var k :| 0 <= k < |init| && init[k] == prefix[i].field;
      assert Rank(fs[k]) < Rank(fs[|fs| - 1]);
    }
  }

  lemma RankIsPosition()
    ensures forall k :: 0 <= k < |RequiredFields| ==> Rank(RequiredFields[k]) == k
  {
    forall k | 0 <= k < |RequiredFields| ensures Rank(RequiredFields[k]) == k {
    }
  }

  lemma ErrorsInFieldOrder(d: StatementData, i: int, j: int)
    requires 0 <= i < j < |ValidationOf(d).errors|
    ensures Rank(ValidationOf(d).errors[i].field) < Rank(ValidationOf(d).errors[j].field)
  {
    RankIsPosition();
    MissingErrorsOrdered(d, RequiredFields, i, j);
  }

  /** With every field present, there is exactly one warning when the shown ending value
      is more than one dollar off the implied one, and none otherwise (a difference of
      exactly $1.00 is clean). */
  lemma WarningIffOffByMoreThanADollar(d: StatementData)
    requires Complete(d)
    ensures ValidationOf(d).errors == []
    ensures |ValidationOf(d).warnings| == (if Difference(d) > 100 then 1 else 0)
    ensures ValidationOf(d).warnings != [] ==>
      ValidationOf(d).warnings[0] == ReconciliationMismatch(ExpectedEnding(d), Shown(d), Difference(d))
  {
    ErrorsOnlyMissing(d);
  }
}
