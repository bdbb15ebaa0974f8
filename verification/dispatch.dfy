/** `_detect_statement_type` and `parse_annuity_statement`: classify the first page's text by
    vendor keywords, then run that vendor's parser and its validation. */
module Dispatch {
  import opened Wrappers
  import opened Text
  import opened Statement
  import opened Recovery
  import opened Validation
  import Jackson
  import Tiaa
  import Valic

  datatype StatementType = JacksonType | TiaaType | ValicType | UnknownType

  predicate IsValicText(text: string) {
    ContainsWord(text, "corebridge") || ContainsWord(text, "valic")
  }

  predicate IsTiaaText(text: string) {
    ContainsWord(text, "tiaa") || ContainsWord(text, "cref")
  }

  predicate IsJacksonText(text: string) {
    ContainsWord(text, "jackson") || ContainsSpacedWords(text, "contract", "number")
  }

  /** The keyword checks, in order: too little text is 'unknown'; then Valic/Corebridge, then
      TIAA/CREF, then Jackson/"Contract Number"; the first that hits decides. */
  function Classify(text: string): (k: StatementType)
    ensures k == ValicType ==> IsValicText(text)
    ensures k == TiaaType ==> IsTiaaText(text)
    ensures k == JacksonType ==> IsJacksonText(text)
  {
    if |Strip(text)| < 50 then UnknownType
    else if IsValicText(text) then ValicType
    else if IsTiaaText(text) then TiaaType
    else if IsJacksonText(text) then JacksonType
    else UnknownType
  }

  /** `_detect_statement_type` on the document's stage outputs. */
  function DetectStatementType(doc: Document): StatementType {
    Classify(DetectionText(doc))
  }

  /** `parse_annuity_statement`'s result for a parser's outcome: the data with its validation,
      or the parser's error. */
  function WithValidation(parsed: Result<StatementData, ParseError>): (r: Result<(StatementData, Report), ParseError>)
    ensures r.Ok? <==> parsed.Ok?
    ensures r.Ok? ==> r.value == (parsed.value, ValidationOf(parsed.value))
    ensures r.Err? ==> r.error == parsed.error
  {
    if parsed.Err? then Err(parsed.error) else Ok((parsed.value, ValidationOf(parsed.value)))
  }

  /** What `parse_annuity_statement` returns: the detected vendor's parser, the Jackson parser
      for 'jackson' and 'unknown' alike. */
  function ParsedStatement(doc: Document, scan: string -> Matches): (r: Result<(StatementData, Report), ParseError>)
    ensures r.Ok? ==> r.value.1 == ValidationOf(r.value.0)
  {
    match DetectStatementType(doc)
    case ValicType => WithValidation(Valic.Parsed(doc, scan, Empty))
    case TiaaType => WithValidation(Tiaa.Parsed(doc, scan, Empty))
    case JacksonType => WithValidation(Jackson.Parsed(doc, scan, Empty))
    case UnknownType => WithValidation(Jackson.Parsed(doc, scan, Empty))
  }

  /** `parse_annuity_statement`: detect, construct the parser, parse, validate. */
  method ParseAnnuityStatement(doc: Document, scan: string -> Matches) returns (r: Result<(StatementData, Report), ParseError>)
    ensures r == ParsedStatement(doc, scan)
  {
    var statementType := DetectStatementType(doc);
    if statementType == ValicType {
      r := RunValic(doc, scan);
    } else if statementType == TiaaType {
      r := RunTiaa(doc, scan);
    } else {
      r := RunJackson(doc, scan);
    }
  }

  /** The Valic branch: a fresh parser's result and its validation. */
  method RunValic(doc: Document, scan: string -> Matches) returns (r: Result<(StatementData, Report), ParseError>)
    ensures r == WithValidation(Valic.Parsed(doc, scan, Empty))
  {
    var parser := new Valic.ValicParser(doc);
    var data := parser.Parse(scan);
    if data.Err? {
      return Err(data.error);
    }
    var validation := parser.Validate();
    return Ok((data.value, validation));
  }

  /** The TIAA branch: a fresh parser's result and its validation. */
  method RunTiaa(doc: Document, scan: string -> Matches) returns (r: Result<(StatementData, Report), ParseError>)
    ensures r == WithValidation(Tiaa.Parsed(doc, scan, Empty))
  {
    var parser := new Tiaa.TiaaParser(doc);
    var data := parser.Parse(scan);
    if data.Err? {
      return Err(data.error);
    }
    var validation := parser.Validate();
    return Ok((data.value, validation));
  }

  /** The Jackson branch, also taken for an unknown statement: a fresh parser's result and its
      validation. */
  method RunJackson(doc: Document, scan: string -> Matches) returns (r: Result<(StatementData, Report), ParseError>)
    ensures r == WithValidation(Jackson.Parsed(doc, scan, Empty))
  {
    var parser := new Jackson.JacksonParser(doc);
    var data := parser.Parse(scan);
    if data.Err? {
      return Err(data.error);
    }
    var validation := parser.Validate();
    return Ok((data.value, validation));
  }

  // ---------------------------------------------------------------------------------
  // What classification and dispatch promise.

  /** Fewer than 50 characters after stripping is 'unknown', whatever keywords they hold. */
  lemma ShortTextIsUnknown(text: string)
    requires |Strip(text)| < 50
    ensures Classify(text) == UnknownType
  {
  }

  /** The checks run in a fixed order and the first hit wins: Valic keywords beat TIAA ones,
      which beat Jackson ones; a text with enough characters and no keyword is 'unknown'. */
  lemma FirstKeywordWins(text: string)
    requires |Strip(text)| >= 50
    ensures IsValicText(text) ==> Classify(text) == ValicType
    ensures !IsValicText(text) && IsTiaaText(text) ==> Classify(text) == TiaaType
    ensures !IsValicText(text) && !IsTiaaText(text) && IsJacksonText(text) ==> Classify(text) == JacksonType
    ensures !IsValicText(text) && !IsTiaaText(text) && !IsJacksonText(text) ==> Classify(text) == UnknownType
  {
  }

  /** An unrecognised statement is parsed exactly as a Jackson statement. */
  lemma UnknownParsesAsJackson(doc: Document, scan: string -> Matches)
    requires DetectStatementType(doc) == UnknownType
    ensures ParsedStatement(doc, scan) == WithValidation(Jackson.Parsed(doc, scan, Empty))
  {
  }

  /** Whatever the vendor, a parsed statement's date is its period end. */
  lemma StatementDateIsPeriodEnd(doc: Document, scan: string -> Matches)
    requires ParsedStatement(doc, scan).Ok?
    ensures ParsedStatement(doc, scan).value.0.statementDate == ParsedStatement(doc, scan).value.0.periodEnd
  {
    match DetectStatementType(doc)
    case ValicType => Valic.ParsedStatementDate(doc, scan);
    case TiaaType => Tiaa.ParsedStatementDate(doc, scan);
    case JacksonType => Jackson.ParsedStatementDate(doc, scan);
    case UnknownType => Jackson.ParsedStatementDate(doc, scan);
  }
}
