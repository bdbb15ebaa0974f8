# investco statement engine — a Dafny model

This project models the statement-ingestion and statement-ledger core of investco, a Django
application that tracks a household's investments, annuities among them. It covers three parts.

- **Statement extraction** (`investco/pdf_parser.py`). Three vendor parsers (Jackson, TIAA,
  Valic/Corebridge) read the first page of an annuity statement and fill a `data` dict. Each one
  first picks the text to read from three extraction stages, then applies an ordered list of
  label→amount rules. Last comes the shared `validate`: one error per missing required field,
  then a one-dollar reconciliation check. `_detect_statement_type` chooses the parser and
  `parse_annuity_statement` dispatches to it.
- **The statement ledger** (`investco/models.py`). This part covers:
  - per-statement reconciliation to the cent;
  - the predecessor of a statement, chain continuity with it and the signed gap;
  - the gap audit over an annuity's history;
  - the current-value fallback and `Transaction.total_amount`;
  - the transactions a saved statement generates, deleted and recreated on every save.
- **The value series and the allocation report** (`investco/views.py`). The series is the
  running-total walk over an annuity's transactions, with one chart point per calendar day. The
  report adds each investment to its investment type's bucket.

Modelling choices:

- Money is integer cents. Share counts are millionths of a share. `total_amount` is in
  micro-cents.
- Statement dates are day numbers. Transaction times are seconds, and a calendar day is
  `time / 86400`.
- Regular-expression matching is abstracted. A scanner `scan: string -> Matches` gives the
  captures of the first match of each rule, with one `Rule` constructor per pattern in the
  parsers. Amount captures have the pattern's shape `[\d,]+\.\d{2}`. Date captures are plain
  strings, and `strptime` is modelled on them: it may reject them.
- The parsers are classes whose `data` field the `_parse_*` methods update. Each method is proved
  equal to a function of the matches and the old data.
- The ledger and the transaction table use the same pattern. The statement history is a
  sequence, and the transaction table is a field of a `Database` class that `Save` updates.

Files:

| file | contents |
|---|---|
| `wrappers.dfy` | `Option`, `Result` |
| `text.dfy` | Python's `str.isspace`, `strip`, case-insensitive search, digit strings |
| `currency.dfy` | `_parse_currency` and its inverse (printing cents) |
| `dates.dfy` | `strptime` for `'%B %d, %Y'` and `'%m/%d/%Y'`, with printers and round trips |
| `statement.dfy` | the rules, the match record, the parser's data record, shared period-phrase step |
| `recovery.dfy` | which extraction stage's text a parser reads |
| `validation.dfy` | `validate` |
| `jackson.dfy`, `tiaa.dfy`, `valic.dfy` | the three parser classes |
| `dispatch.dfy` | `_detect_statement_type`, `parse_annuity_statement` |
| `transactions.dfy` | `Transaction`, `total_amount`, the sign rule |
| `ledger.dfy` | `AnnuityStatement` reconciliation and chaining, `get_statement_gaps`, `current_value` |
| `store.dfy` | `save`, `_create_transactions` |
| `series.dfy` | the cumulative value series of `investment_performance` |
| `allocation.dfy` | the per-type accumulation of `asset_allocation_report` |

## Model

| member | source | states |
|---|---|---|
| Currency.Clean | investco/pdf_parser.py:222-223 | Cleaning removes every '$' and ',' and nothing else. A string without them is returned unchanged. |
| Currency.DecimalCents | investco/pdf_parser.py:224 | A cleaned amount has a value exactly when it is integer digits, a point and two digits. The value is never negative. |
| Currency.Cents | investco/pdf_parser.py:212-224 | Parsing any amount the extraction patterns capture succeeds. |
| Currency.CleanIdempotent | investco/pdf_parser.py:222-224 | Cleaning twice is cleaning once, so an already clean amount parses to the same value. |
| Currency.SeparatorIgnored | investco/pdf_parser.py:212-224 | Inserting a '$' or ',' anywhere does not change the parsed value, so "$1,234.56" and "1234.56" are equal. |
| Currency.Group | investco/pdf_parser.py:217 | Thousands grouping with ',' cleans back to the plain digits. |
| Currency.FormatRoundTrip | investco/pdf_parser.py:212-224 | Printing cents as "$1,234.56" and parsing the result gives back the cents. |
| Currency.FormatShape | investco/pdf_parser.py:148 | A printed amount without its '$' has the captured-amount shape. |
| Dates.DaysInMonth | investco/pdf_parser.py:111-112 | Months have 28 to 31 days. Only February of a leap year has 29. |
| Dates.MonthNumber | investco/pdf_parser.py:111-112 | '%B' reads the month whose full name the field spells in any case. Any other field is rejected. |
| Dates.MakeDate | investco/pdf_parser.py:111-112 | Three fields give a date exactly when that date exists in years 1 to 9999. |
| Dates.ParseLongDate | investco/pdf_parser.py:111-112 | Every date read as '%B %d, %Y' exists. |
| Dates.ParseNumericDate | investco/pdf_parser.py:117-128 | Every date read as '%m/%d/%Y' exists. The only strings read are printed dates; see `NumericDateOnlyPrinted`. |
| Dates.MonthNamesDistinct | investco/pdf_parser.py:111-112 | There are twelve distinct month names. |
| Dates.CapitalizedNamesMonth | investco/pdf_parser.py:111-112 | A capitalised month name ("July") reads as its month number. |
| Dates.NumericDateRoundTrip | investco/pdf_parser.py:120 | Printing a valid date as MM/DD/YYYY and reading it back gives the date. |
| Dates.NumericDateOnlyPrinted | investco/pdf_parser.py:117-128 | A string read as a date is that date printed as MM/DD/YYYY. So an impossible date such as 02/30/2024 is rejected (BadDate), never read as another date. |
| Dates.LongDateFields | investco/pdf_parser.py:107-112 | A string of the shape "Month D, YYYY" is read field by field. |
| Dates.LongDateRoundTrip | investco/pdf_parser.py:111-112 | Printing a valid date as "July 1, 2024" and reading it back gives the date. |
| Statement.Amount | investco/pdf_parser.py:148-150 | A rule's amount is present exactly when the rule matched. It is then the non-negative parsed capture. |
| Statement.Negated | investco/pdf_parser.py:186-188 | A parenthesised amount is the magnitude negated. |
| Statement.Id | investco/pdf_parser.py:130-140 | An identifier is present exactly when its rule matched, and it is the capture. |
| Statement.PeriodDates | investco/pdf_parser.py:109-112 | Both dates of a period phrase are read, or BadDate is reported when strptime rejects either. |
| Statement.WithPeriod | investco/pdf_parser.py:111-113 | A matched period sets start and end, and sets the statement date to the end. No other field changes. |
| Statement.PeriodPhrase | investco/pdf_parser.py:507-516 | A vendor's period step changes nothing without a match. With a match it either succeeds with `WithPeriod` or fails with BadDate, and only the three date fields change. |
| Recovery.OcrText | investco/pdf_parser.py:77-102 | OCR yields its text, or "" when it is unavailable. |
| Recovery.SequentialText | investco/pdf_parser.py:40-61 | Recovery succeeds exactly when some stage is usable (at least 100 characters after strip), and the text it returns is usable. Otherwise it fails with NoUsableText. |
| Recovery.FirstUsableStageWins | investco/pdf_parser.py:43-55 | A usable first stage is used whatever the later stages hold. The second stage is used only when the first is not usable, and OCR only when neither is. |
| Recovery.TiaaText | investco/pdf_parser.py:289-310 | The TIAA text is the OCR text, a newline and the regular text: pdfplumber's when usable, else PyPDF2's, else "". The parse succeeds exactly when that joined text has at least 100 characters after strip. Otherwise it fails with NoUsableText. |
| Recovery.TiaaTextParts | investco/pdf_parser.py:289-304 | The TIAA text always starts with the OCR text and a newline. When pdfplumber's text is usable, that text follows. |
| Recovery.TiaaTextIgnoresPyPdf | investco/pdf_parser.py:289-304 | When pdfplumber's text is usable, PyPDF2's text does not change the TIAA text. |
| Recovery.TiaaTextWheneverSequential | investco/pdf_parser.py:40-61 | Whenever the Jackson/Valic recovery finds a usable stage, the TIAA recovery succeeds too. |
| Recovery.ExtractedText | investco/pdf_parser.py:617-632 | The extracted text is pdfplumber's text, a newline and PyPDF2's text, each "" when missing. |
| Recovery.DetectionText | investco/pdf_parser.py:634-644 | The detection text starts with the extracted text. It is exactly the extracted text when OCR gave nothing or the extracted text has at least 100 characters after strip. |
| Recovery.DetectionOcrOnlyWhenShort | investco/pdf_parser.py:634-644 | OCR changes the detection text only when the extracted text is under 100 characters after strip. |
| Validation.Rank | investco/pdf_parser.py:237-241 | Each required field has exactly one position in the required list. |
| Validation.MissingErrors | investco/pdf_parser.py:243-245 | The errors name exactly the missing fields of the list. There are none when all are present. |
| Validation.ValidationOf | investco/pdf_parser.py:226-270 | The errors are the missing-field errors. Any error suppresses the reconciliation warnings. |
| Validation.Validate | investco/pdf_parser.py:233-270 | The loop over the required fields plus the reconciliation check returns `ValidationOf`. |
| Validation.ErrorIffMissing | investco/pdf_parser.py:243-245 | There is an error for a field if and only if the field is missing. |
| Validation.ErrorsOnlyMissing | investco/pdf_parser.py:243-248 | Every error is a missing-field error. There are no errors exactly when every field is present. |
| Validation.NoErrorsComplete | investco/pdf_parser.py:243-248 | No missing-field error means every required field is present. |
| Validation.AbsentFigureErrors | investco/pdf_parser.py:237-245 | A missing premium, withdrawal or tax figure is each reported as that field's error. |
| Validation.ActivityNeverMissing | investco/pdf_parser.py:237-245 | With premiums, withdrawals and tax present, only dates, values or the net change can be reported missing. With the net change present too, only dates and values can. |
| Validation.MissingErrorsOrdered | investco/pdf_parser.py:243-245 | Errors follow the order of the list given to the check, so none repeats. |
| Validation.RankIsPosition | investco/pdf_parser.py:237-241 | A field's rank is its index in the required list. |
| Validation.ErrorsInFieldOrder | investco/pdf_parser.py:237-245 | `validate`'s errors appear in required-field order. |
| Validation.WarningIffOffByMoreThanADollar | investco/pdf_parser.py:247-264 | With every field present there is no error, and exactly one warning iff the shown ending differs from the implied one by more than 100 cents. The warning carries both values and the difference. |
| Jackson.ContractInfo | investco/pdf_parser.py:130-140 | The Contract Number, or else the Policy Number, becomes the policy number. Nothing else changes. |
| Jackson.NumericDate | investco/pdf_parser.py:117-128 | A numeric date capture is read, or BadDate is reported. |
| Jackson.PeriodDatesOf | investco/pdf_parser.py:104-128 | Only the three date fields change, and a failure is always BadDate. |
| Jackson.ContractSummary | investco/pdf_parser.py:142-188 | Only the six summary figures change. Beginning value, premiums, withdrawals and tax are each the capture's currency value when its label matched, and unchanged otherwise. |
| Jackson.BenefitValues | investco/pdf_parser.py:190-210 | Only the four benefit figures change. Each is its capture's currency value when its label matched, and unchanged otherwise. |
| Jackson.Fields | investco/pdf_parser.py:63-73 | The four steps in order fail only with BadDate. |
| Jackson.Parsed | investco/pdf_parser.py:24-75 | Without usable text the parse fails with NoUsableText. Otherwise it is the four steps on the matches of the recovered text. |
| Jackson.JacksonParser.constructor | investco/pdf_parser.py:20-22 | A new parser has empty data. |
| Jackson.JacksonParser.ParseContractInfo | investco/pdf_parser.py:130-140 | The data becomes `ContractInfo` of the old data. |
| Jackson.JacksonParser.ParsePeriodDates | investco/pdf_parser.py:104-128 | It succeeds exactly when `PeriodDatesOf` does, and the data is then its result. |
| Jackson.JacksonParser.ParseContractSummary | investco/pdf_parser.py:142-188 | The data becomes `ContractSummary` of the old data. |
| Jackson.JacksonParser.ParseBenefitValues | investco/pdf_parser.py:190-210 | The data becomes `BenefitValues` of the old data. |
| Jackson.JacksonParser.Parse | investco/pdf_parser.py:24-75 | The result is `Parsed`. On success the data is the result. Without usable text the data is untouched. |
| Jackson.JacksonParser.Validate | investco/pdf_parser.py:226-270 | The report is `ValidationOf` the data, and the data does not change. |
| Jackson.NetChangePlainThenNegative | investco/pdf_parser.py:178-188 | The plain net change wins. Only without it is the parenthesised one used, negated. Without either the field is unchanged. |
| Jackson.EndingValueFallback | investco/pdf_parser.py:152-161 | "Ending Value on <date>" wins over the looser "Ending Value" pattern, which is used only as a fallback. |
| Jackson.PeriodPhraseFirst | investco/pdf_parser.py:107-113 | When the period phrase matches and its dates are read, they set start, end and statement date, and the fallbacks do nothing. |
| Jackson.ValueOnDatesFallback | investco/pdf_parser.py:115-128 | Without the phrase, "Ending Value on" gives statement date and period end, and "Beginning Value on" gives period start. |
| Jackson.StatementDateIsPeriodEnd | investco/pdf_parser.py:104-128 | Every path through the period step keeps the statement date equal to the period end. |
| Jackson.ParsedStatementDate | investco/pdf_parser.py:24-75 | A successful parse from empty data has statement date equal to period end. |
| Jackson.FieldsKeepAbsent | investco/pdf_parser.py:163-176 | From empty data, a premium, withdrawal or tax figure whose label did not match stays absent after the four steps. |
| Jackson.MissingFigureIsAnError | investco/pdf_parser.py:163-188 | A Jackson figure whose label did not match is reported as missing. |
| Tiaa.ContractInfo | investco/pdf_parser.py:348-354 | The first contract id becomes the policy number. Nothing else changes. |
| Tiaa.GainsLoss | investco/pdf_parser.py:380-395 | A parenthesised Gains/Loss counts negated and wins. Otherwise the plain figure counts, and 0 when there is none. |
| Tiaa.Interest | investco/pdf_parser.py:381-387 | TIAA Interest counts, and 0 when absent. |
| Tiaa.AccountValues | investco/pdf_parser.py:356-397 | Beginning and ending come from their captures, or are unchanged. Premiums come from Other Credits, or are 0. Withdrawals and tax are 0, and the net change is Gains/Loss plus Interest. Only these six fields change. |
| Tiaa.Fields | investco/pdf_parser.py:313-315 | The three steps in order fail only with BadDate. |
| Tiaa.Parsed | investco/pdf_parser.py:280-317 | Without usable TIAA text the parse fails. Otherwise it is the three steps on its matches. |
| Tiaa.TiaaParser.constructor | investco/pdf_parser.py:276-278 | A new parser has empty data. |
| Tiaa.TiaaParser.ParsePeriodDates | investco/pdf_parser.py:336-346 | It succeeds exactly when the period phrase step does, and the data is then its result. |
| Tiaa.TiaaParser.ParseContractInfo | investco/pdf_parser.py:348-354 | The data becomes `ContractInfo` of the old data. |
| Tiaa.TiaaParser.ParseAccountValues | investco/pdf_parser.py:356-397 | The two-phase net-change computation gives exactly `AccountValues`. |
| Tiaa.TiaaParser.NetChangeOf | investco/pdf_parser.py:379-397 | The two-phase computation yields Gains/Loss plus Interest. |
| Tiaa.TiaaParser.Parse | investco/pdf_parser.py:280-317 | The result is `Parsed`. On success the data is the result. Without usable text the data is untouched. |
| Tiaa.TiaaParser.Validate | investco/pdf_parser.py:404-444 | The report is `ValidationOf` the data. |
| Tiaa.DefaultsNeverMissing | investco/pdf_parser.py:368-397 | After a successful TIAA parse, premiums, withdrawals, tax and net change are present, so no error names them. |
| Tiaa.FieldsDefaults | investco/pdf_parser.py:356-397 | Every successful extraction has premiums and net change present, and withdrawals and tax at 0. Without Other Credits, premiums are 0. |
| Tiaa.NetChangeFromGainsAndInterest | investco/pdf_parser.py:379-397 | The net change is Gains/Loss plus Interest, each 0 when missing. With a parenthesised Gains/Loss it is minus that magnitude plus Interest. |
| Tiaa.ParsedStatementDate | investco/pdf_parser.py:280-346 | A successful parse from empty data has statement date equal to period end. |
| Valic.AccountInfo | investco/pdf_parser.py:518-523 | The Account Number becomes the policy number. Nothing else changes. |
| Valic.ValueSummary | investco/pdf_parser.py:525-556 | Beginning and ending come from their captures, or are unchanged. Premiums come from employer contributions, or are 0. Withdrawals and tax are 0. Only the six figures change. |
| Valic.Fields | investco/pdf_parser.py:484-486 | The three steps in order fail only with BadDate. |
| Valic.Parsed | investco/pdf_parser.py:453-488 | Without usable text the parse fails with NoUsableText. Otherwise it is the three steps on the recovered text's matches. |
| Valic.ValicParser.constructor | investco/pdf_parser.py:449-451 | A new parser has empty data. |
| Valic.ValicParser.ParsePeriodDates | investco/pdf_parser.py:507-516 | It succeeds exactly when the period phrase step does, and the data is then its result. |
| Valic.ValicParser.ParseAccountInfo | investco/pdf_parser.py:518-523 | The data becomes `AccountInfo` of the old data. |
| Valic.ValicParser.ParseValueSummary | investco/pdf_parser.py:525-556 | The data becomes `ValueSummary` of the old data. |
| Valic.ValicParser.Parse | investco/pdf_parser.py:453-488 | The result is `Parsed`. On success the data is the result. Without usable text the data is untouched. |
| Valic.ValicParser.Validate | investco/pdf_parser.py:563-602 | The report is `ValidationOf` the data. |
| Valic.NetChangePlainThenNegative | investco/pdf_parser.py:544-552 | The plain net change wins. Only without it is the parenthesised one used, negated. |
| Valic.DefaultsNeverMissing | investco/pdf_parser.py:537-556 | After a successful Valic parse, premiums, withdrawals and tax are present, so no error names them. |
| Valic.FieldsDefaults | investco/pdf_parser.py:525-556 | Every successful extraction has premiums present, and withdrawals and tax at 0. Without Contributions, premiums are 0. |
| Valic.ParsedStatementDate | investco/pdf_parser.py:453-516 | A successful parse from empty data has statement date equal to period end. |
| Dispatch.Classify | investco/pdf_parser.py:646-661 | Each vendor answer implies that vendor's keywords are present. |
| Dispatch.WithValidation | investco/pdf_parser.py:693-696 | A successful parse is returned with its validation. A failure passes through unchanged. |
| Dispatch.ParsedStatement | investco/pdf_parser.py:668-696 | The returned report is always the validation of the returned data. |
| Dispatch.ParseAnnuityStatement | investco/pdf_parser.py:668-696 | Detection, parser choice, parse and validate return `ParsedStatement`. |
| Dispatch.RunValic | investco/pdf_parser.py:682-694 | A fresh Valic parser's parse and validate give `WithValidation` of the Valic parse from empty data. |
| Dispatch.RunTiaa | investco/pdf_parser.py:685-694 | A fresh TIAA parser's parse and validate give `WithValidation` of the TIAA parse from empty data. |
| Dispatch.RunJackson | investco/pdf_parser.py:687-694 | A fresh Jackson parser's parse and validate give `WithValidation` of the Jackson parse from empty data. |
| Dispatch.ShortTextIsUnknown | investco/pdf_parser.py:646-647 | Text under 50 characters after strip is 'unknown', whatever it contains. |
| Dispatch.FirstKeywordWins | investco/pdf_parser.py:649-661 | Valic/Corebridge beats TIAA/CREF, which beats Jackson/"Contract Number". Without any of them the answer is 'unknown'. |
| Dispatch.UnknownParsesAsJackson | investco/pdf_parser.py:689-691 | An unknown statement is parsed exactly as a Jackson one. |
| Dispatch.StatementDateIsPeriodEnd | investco/pdf_parser.py:113 | Whichever parser runs, a parsed statement's date is its period end. |
| Transactions.Day | investco/views.py:375 | A time lies within its calendar day. |
| Transactions.TotalAmount | investco/models.py:710-719 | A lump sum is amount plus fee. Otherwise it is shares times price plus fee, with missing values as 0. |
| Transactions.AmountOverridesShares | investco/models.py:713-715 | Once an amount is set, shares and price do not matter. |
| Transactions.Signed | investco/views.py:363-372 | Premiums and net changes add their amount, and withdrawals and tax subtract it. Other types and a missing amount count 0. |
| Transactions.TotalAppend | investco/views.py:339-372 | The running total over two runs of transactions is the sum of their totals. |
| Transactions.ActivityTotalIsTotal | investco/models.py:354-365 | The per-type sums of the current-value fallback equal the running total under the sign rule. |
| Ledger.CalculatedChange | investco/models.py:866-871 | Defined exactly when beginning and ending are present. It exceeds the beginning by premiums + net change − withdrawals − tax. |
| Ledger.Reconciles | investco/models.py:873-878 | None exactly when the calculated value is. Otherwise true iff it equals the ending value (within a cent on whole cents). |
| Ledger.Previous | investco/models.py:880-885 | None iff no statement is earlier. Otherwise a statement of the history, strictly earlier, with the greatest such date. |
| Ledger.ChainsWithPrevious | investco/models.py:887-902 | True for a first statement, and None when the predecessor is not an annuity statement. With an annuity predecessor it is defined exactly when both values are present, and then true iff the beginning equals the predecessor's ending, that is, within a cent on whole cents. |
| Ledger.ChainGap | investco/models.py:904-915 | Defined exactly when the predecessor is an annuity statement and both values are present. The gap is then beginning − predecessor's ending. |
| Ledger.ChainGapAgrees | investco/models.py:887-915 | Whenever the gap is defined, the chain holds iff the gap is zero. Otherwise continuity is defined only for a first statement, where it is true. |
| Ledger.PairGap | investco/models.py:425-437 | A pair of annuity statements yields a gap exactly when the current beginning differs from the previous ending. The gap records both dates, both values and their non-zero difference. Other pairs yield none. |
| Ledger.GetStatementGaps | investco/models.py:411-439 | The loop over adjacent pairs returns `Gaps`. |
| Ledger.GapsArePairs | investco/models.py:421-439 | Every recorded gap is the gap of some adjacent pair, and every adjacent pair's gap is recorded. |
| Ledger.GapsAtMostPairs | investco/models.py:421-439 | A history of n statements has at most n − 1 gaps. |
| Ledger.GapsInDateOrder | investco/models.py:411-439 | In a date-ordered history the gaps come out in date order, each dated after its previous date. |
| Ledger.PreviousIsPredecessor | investco/models.py:880-885 | With strictly increasing dates the predecessor is the statement just before, and a first statement has none. |
| Ledger.GapIffNotChained | investco/models.py:411-439 | The audit records a pair iff its later statement does not chain with its predecessor. |
| Ledger.Latest | investco/models.py:349-351 | The latest statement is a statement of the history with the greatest date. |
| Ledger.CurrentValue | investco/models.py:338-365 | An annuity latest statement gives its ending value. |
| Ledger.FallbackIsRunningTotal | investco/models.py:352-365 | Without an annuity latest statement the value is the transactions' running total. |
| Store.Derived | investco/models.py:932-986 | A statement generates at most four transactions. |
| Store.DerivedShape | investco/models.py:943-986 | There is exactly one transaction per positive premium, withdrawal or tax and one per non-zero net change, and no other. The count is the number of such fields. Each belongs to the statement's investment, is dated at the statement date with no fee, and is sourced from the statement. |
| Store.DerivedAmounts | investco/models.py:943-986 | Each generated transaction's amount is its statement field. |
| Store.DerivedTotal | investco/models.py:866-871 | The generated transactions move the value from beginning to the calculated ending. |
| Store.DerivedExample | investco/models.py:943-986 | 500.00 of premiums and −20.00 of net change give exactly a premium and a net change. |
| Store.WithoutSource | investco/models.py:926-927 | Deleting a statement's transactions keeps exactly the others, in order. |
| Store.WithoutSourceAppend | investco/models.py:926-927 | Deletion distributes over concatenation. |
| Store.SaveIdempotent | investco/models.py:917-930 | Saving the same statement twice leaves the same rows as saving once, with no duplicates. |
| Store.SaveKeepsOthers | investco/models.py:917-930 | Rows from other sources are untouched, and the statement's own rows are exactly what it generates. |
| Store.Database.constructor | investco/models.py:917-930 | The store starts empty and valid. |
| Store.Database.CreateTransactions | investco/models.py:932-986 | For a stored statement, appends exactly `Derived`, changes no statement and keeps the store valid. |
| Store.Database.Save | investco/models.py:917-930 | A new statement gets a fresh key. The statement is stored, and the rows become the old rows without its transactions followed by its generated ones. The store stays valid. |
| Series.Earliest | investco/views.py:325 | The earliest statement is a statement of the history whose date is minimal, and there is none only for an empty history. |
| Series.InitialBalance | investco/views.py:323-336 | The starting balance is the earliest statement's beginning value, or 0 when there is no statement or no value. |
| Series.Before | investco/views.py:339 | Exactly the transactions dated before the start; see `BeforeCounts` and `BeforeAppend` for copies and order. |
| Series.BeforeCounts | investco/views.py:339 | Every copy of a transaction dated before the start is kept, and every other copy dropped. |
| Series.BeforeAppend | investco/views.py:339 | Filtering a concatenation concatenates the filtered parts, so the kept transactions keep their order. |
| Series.Within | investco/views.py:358 | Exactly the transactions dated from start to end; see `WithinCounts` and `WithinAppend` for copies and order. |
| Series.WithinCounts | investco/views.py:358 | Every copy of a transaction dated in the period is kept, and every other copy dropped. |
| Series.WithinAppend | investco/views.py:358 | Filtering a concatenation concatenates the filtered parts, so the kept transactions keep their order. |
| Series.Place | investco/views.py:374-388 | A same-day transaction overwrites the last point's value. Otherwise a point is appended. Either way the last point carries the running total on the transaction's day. |
| Series.ValueSeries | investco/views.py:316-388 | Both loops, with `last_added_date`, compute `SeriesOf`. |
| Series.WalkPeriod | investco/views.py:357-388 | The loop over the period's transactions, with `last_added_date`, computes `Walk`. |
| Series.PlaceStep | investco/views.py:373-388 | One iteration computes `Place` and keeps `last_added_date` equal to the day of the last point. |
| Series.WalkKeepsDaysDistinct | investco/views.py:374-388 | No two consecutive points share a calendar day. |
| Series.SeriesDaysDistinct | investco/views.py:374-388 | The series never has two consecutive points on the same day. |
| Series.WalkLastPoint | investco/views.py:360-388 | After any in-period transaction, the last point holds the running total and is on the last transaction's day. |
| Series.SeriesEndsAtTotal | investco/views.py:336-388 | With an in-period transaction, the last value is the starting balance plus every pre-period and in-period transaction. |
| Series.SameDayAddsNoPoint | investco/views.py:374-388 | A transaction on the previous one's day adds no point. |
| Series.NewDayAddsPoint | investco/views.py:380-385 | A transaction on a new day adds exactly one point. |
| Series.WalkLength | investco/views.py:360-388 | The walk adds at most one point per transaction. |
| Series.StartPoint | investco/views.py:350-355 | There is a start-of-period point iff the opening value is positive or any transaction exists. Otherwise there is no point at all. |
| Series.WalkPrefix | investco/views.py:374-388 | The walk keeps the first point's day. |
| Allocation.GainLoss | investco/models.py:60-62 | Gain/loss plus total cost is the current value. |
| Allocation.Allocate | investco/views.py:636-651 | The loop gives `Grouped`, with keys in first-appearance order. |
| Allocation.KeysAreKinds | investco/views.py:645-651 | A type has a bucket iff it appears in the key order. |
| Allocation.BucketIsSummary | investco/views.py:645-651 | Each type's bucket is the count, the sums and the list of exactly that type's investments. |
| Allocation.OfMembers | investco/views.py:645-651 | A type's members are exactly the investments of that type. |
| Allocation.KindsDistinctAndCover | investco/views.py:645-651 | The key order lists each type once, and every investment's type. |
| Allocation.BucketGainLoss | investco/views.py:645-651 | In every bucket gain/loss is total value − total cost, and the count is the number of members. |
| Allocation.PartitionSum | investco/views.py:645-651 | Summing type by type over distinct, covering types gives the overall sum. |
| Allocation.AllocationTotals | investco/views.py:645-651 | The counts add up to the number of investments, and the values to the portfolio's total value. |

## Left out

- PDF reading, PyPDF2, pdf2image and Tesseract are foreign I/O. Their outputs are the fields of
  `Recovery.Document`. The exceptions they raise are not modelled, including
  `_detect_statement_type`'s catch-all that answers 'unknown'.
- Python's `re` is left out. Each pattern is a `Rule` whose first-match captures a scanner
  parameter supplies. What text a pattern matches is not modelled.
- `Currency.ParseCurrency` reads only the `digits.dd` shape every capture has. Other strings that
  `Decimal` accepts, such as "12" or "1e3", give None.
- `Text.IsDigit` accepts the ASCII digits only. Python's `\d` in the capture patterns, `strptime`'s
  numeric fields and `Decimal` also accept other Unicode decimal digits. Statements with such
  digits are therefore read by the source but rejected by the model.
- `Dates.ParseLongDate`: `strptime`'s month names are the English full names compared
  case-insensitively. Locale-dependent names and abbreviations are not modelled.
- `Jackson.JacksonParser.ParsePeriodDates` does not specify the data left behind when `strptime`
  rejects a date. The same holds for `Parse` of each parser on BadDate, since the source
  raises part-way.
- Percentages are left out. These are `asset_allocation_report`'s percentage and
  gain/loss-percentage pass and `Investment.gain_loss_percentage`, and they divide Decimals.
- The chart formatting of the series (`strftime`, `float`) is left out.
- The ORM is replaced by sequences. Query order comes in as sequence order: transactions
  ordered by date for the series and statements ordered by date for the audit.
- Time zones are left out. Statement dates become midnight in plain seconds.
- Ties between statements with the same date are broken by taking the first in the sequence.
  This affects `Ledger.Previous`, `Ledger.Latest` and `Series.Earliest`.
- `Ledger.GetStatementGaps` and `Ledger.CurrentValue` require stored annuity statements to carry
  both values, as their NOT NULL columns do.
- Transaction atomicity of `save` is left out. Statement fields other than the figures are left
  out too: notes, PDF file and timestamps.
- Statement kinds other than annuity statements are reduced to a date and an optional beginning
  value. Their models are not part of this model.
