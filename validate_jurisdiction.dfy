/** The record, dataset and diff validators that guard every scraped dataset
    (`scripts/auto-update/validate-jurisdiction.ts`).  Each validator collects
    errors and warnings; a result is valid exactly when it has no errors.
    Messages are kept as tagged findings carrying the values the text shows. */
module Validation {
  import opened Wrappers
  import opened Strings
  import opened Numbers
  import opened Json
  import opened Regex

  // ---------------------------------------------------------------------------
  // The pattern catalogue

  datatype Pattern =
    // cross-site scripting
    | ScriptTag | JavaScriptProtocol | OnErrorHandler | OnLoadHandler | IframeTag | EmbedTag
    // SQL injection
    | SqlDrop | SqlDelete | SqlInsert | SqlUpdate | SqlComment | SqlOrBypass
    // path traversal
    | PathTraversal | UnixSystemPath | WindowsSystemPath
    // spreadsheet formula injection
    | CsvFormula | ExcelSum | ExcelCommand
    // shell command injection
    | BacktickCommand | CommandSubstitution
    // suspicious Unicode
    | NullByte | ZeroWidthNoBreakSpace | ZeroWidthCharacter

  // The literal words of the patterns.  (Naming them keeps the verifier from
  // expanding every word into its terms wherever the catalogue is mentioned.)
  const ScriptWord := "<script"
  const JavaScriptWord := "javascript:"
  const OnErrorWord := "onerror"
  const OnLoadWord := "onload"
  const IframeWord := "<iframe"
  const EmbedWord := "<embed"
  const DropWord := "DROP"
  const TableWord := "TABLE"
  const DeleteWord := "DELETE"
  const FromWord := "FROM"
  const InsertWord := "INSERT"
  const IntoWord := "INTO"
  const UpdateWord := "UPDATE"
  const SetWord := "SET"
  const CommentWord := "--"
  const OrWord := "OR"
  const OneWord := "'1'"
  const ParentWord := ".."
  const EtcWord := "/etc/"
  const WindowsWord := "\\\\windows\\"
  const SumWord := "@SUM("
  const CmdWord := "=cmd|"
  const SubstitutionWord := "$("

  /** The regular expression each pattern stands for, term by term. */
  function RegexOf(p: Pattern): Regex {
    match p
    case ScriptTag => Regex(false, true, [Word(ScriptWord)])
    case JavaScriptProtocol => Regex(false, true, [Word(JavaScriptWord)])
    case OnErrorHandler => Regex(false, true, [Word(OnErrorWord), Star(Space), Once(Lit('='))])
    case OnLoadHandler => Regex(false, true, [Word(OnLoadWord), Star(Space), Once(Lit('='))])
    case IframeTag => Regex(false, true, [Word(IframeWord)])
    case EmbedTag => Regex(false, true, [Word(EmbedWord)])
    case SqlDrop => Regex(false, true, [Word(DropWord), Plus(Space), Word(TableWord)])
    case SqlDelete => Regex(false, true, [Word(DeleteWord), Plus(Space), Word(FromWord)])
    case SqlInsert => Regex(false, true, [Word(InsertWord), Plus(Space), Word(IntoWord)])
    case SqlUpdate =>
      Regex(false, true, [Word(UpdateWord), Plus(Space), Star(AnyButNewline), Plus(Space), Word(SetWord)])
    case SqlComment => Regex(false, false, [Once(Lit(';')), Star(Space), Word(CommentWord)])
    case SqlOrBypass =>
      Regex(false, true, [Once(Lit('\'')), Plus(Space), Word(OrWord), Plus(Space), Word(OneWord),
                          Star(Space), Once(Lit('='))])
    case PathTraversal => Regex(false, false, [Word(ParentWord), Once(OneOf("/\\"))])
    case UnixSystemPath => Regex(false, true, [Word(EtcWord)])
    case WindowsSystemPath => Regex(false, true, [Word(WindowsWord)])
    case CsvFormula => Regex(true, false, [Once(OneOf("=+-@"))])
    case ExcelSum => Regex(false, true, [Word(SumWord)])
    case ExcelCommand => Regex(false, true, [Word(CmdWord)])
    case BacktickCommand => Regex(false, false, [Once(Lit('`')), Star(AnyButNewline), Once(Lit('`'))])
    case CommandSubstitution => Regex(false, false, [Word(SubstitutionWord), Star(AnyButNewline), Once(Lit(')'))])
    case NullByte => Regex(false, false, [Once(Lit('\0'))])
    case ZeroWidthNoBreakSpace => Regex(false, false, [Once(Lit('\U{FEFF}'))])
    case ZeroWidthCharacter => Regex(false, false, [Once(OneOf("\U{200B}\U{200C}\U{200D}\U{FEFF}"))])
  }

  /** The injection patterns, in the order they are scanned. */
  const DangerousPatterns: seq<Pattern> :=
    [ScriptTag, JavaScriptProtocol, OnErrorHandler, OnLoadHandler, IframeTag, EmbedTag,
     SqlDrop, SqlDelete, SqlInsert, SqlUpdate, SqlComment, SqlOrBypass,
     PathTraversal, UnixSystemPath, WindowsSystemPath,
     CsvFormula, ExcelSum, ExcelCommand,
     BacktickCommand, CommandSubstitution]

  const SuspiciousUnicodePatterns: seq<Pattern> := [NullByte, ZeroWidthNoBreakSpace, ZeroWidthCharacter]

  // ---------------------------------------------------------------------------
  // Findings

  datatype Field = LocationField | CountyField | TypeField | NotesField

  datatype Issue =
    // one record
    | MissingLocation | MissingCounty | MissingRate
    | LocationTooLong(length: nat) | CountyTooLong(length: nat) | NotesTooLong(length: nat)
    | Injection(pattern: Pattern, field: Field, value: Value)
    | RateNotANumber(raw: Value) | RateNotFinite(raw: Value)
    | RateBelowMinimum(rate: real) | RateAboveMaximum(rate: real) | UnusuallyHighRate(rate: real)
    | UnusualType(typ: Value)
    | SuspiciousUnicode(pattern: Pattern, field: Field)
    // a whole dataset
    | MissingMetadata | MissingJurisdictions
    | TooFewJurisdictions(count: nat, min: nat) | TooManyJurisdictions(count: nat, max: nat)
    | MetadataCountMismatch(claimed: Value, count: nat)
    | DuplicateJurisdictions(shown: seq<string>, more: nat)
    | InvalidJurisdiction(location: Value, errors: seq<Issue>)
    | MoreInvalidJurisdictions(count: nat)
    | StatisticalOutliers(count: nat)
    | Outlier(location: Value, rawRate: Value, mean: real)
    // old against new
    | LargeCountChange(oldCount: nat, newCount: nat)
    | SignificantCountChange(oldCount: nat, newCount: nat)
    | SourceChanged(oldSource: Value, newSource: Value)
    | MassRemoval(removed: nat)
    | ManyRemoved(removed: nat)

  /** The findings that are only ever reported as warnings. */
  predicate WarningKind(i: Issue) {
    i.NotesTooLong? || i.UnusuallyHighRate? || i.UnusualType? || i.SuspiciousUnicode? ||
    i.MetadataCountMismatch? || i.StatisticalOutliers? || i.Outlier? ||
    i.SignificantCountChange? || i.SourceChanged? || i.ManyRemoved?
  }

  datatype ValidationResult = ValidationResult(valid: bool, errors: seq<Issue>, warnings: seq<Issue>)

  // ---------------------------------------------------------------------------
  // validateJurisdiction

  const MaxLocationLength := 200
  const MaxCountyLength := 100
  const MaxNotesLength := 500
  const MinRate := 0.0
  const MaxRate := 0.20
  const WarnRate := 0.15
  const ValidTypes: seq<string> :=
    ["State", "City", "County", "District", "Special", "Unincorporated Area", "Transit District"]

  /** The field as read with either spelling, `j.location || j.Location` and so on. */
  function FieldValue(j: Record, f: Field): Value {
    match f
    case LocationField => Or(Get(j, "location"), Get(j, "Location"))
    case CountyField => Or(Get(j, "county"), Get(j, "County"))
    case TypeField => Or(Get(j, "type"), Get(j, "Type"))
    case NotesField => Or(Get(j, "notes"), Get(j, "Notes"))
  }

  /** `j.rate !== undefined ? j.rate : j.Rate`. */
  function RateOf(j: Record): Value {
    if Get(j, "rate") != Undefined then Get(j, "rate") else Get(j, "Rate")
  }

  /** The fields the pattern scans visit, in order. */
  const CheckedFields: seq<Field> := [LocationField, CountyField, TypeField, NotesField]

  predicate NonEmptyText(v: Value) {
    v.Str? && v.s != ""
  }

  function RequiredErrors(j: Record): seq<Issue> {
    (if !NonEmptyText(FieldValue(j, LocationField)) then [MissingLocation] else []) +
    (if !NonEmptyText(FieldValue(j, CountyField)) then [MissingCounty] else []) +
    (if RateOf(j) == Undefined then [MissingRate] else [])
  }

  /** The length caps; only a string has a length to exceed them. */
  function LengthErrors(j: Record): seq<Issue> {
    var location := FieldValue(j, LocationField);
    var county := FieldValue(j, CountyField);
    (if location.Str? && Utf16Length(location.s) > MaxLocationLength then [LocationTooLong(Utf16Length(location.s))] else []) +
    (if county.Str? && Utf16Length(county.s) > MaxCountyLength then [CountyTooLong(Utf16Length(county.s))] else [])
  }

  function NotesWarnings(j: Record): seq<Issue> {
    var notes := FieldValue(j, NotesField);
    if notes.Str? && Utf16Length(notes.s) > MaxNotesLength then [NotesTooLong(Utf16Length(notes.s))] else []
  }

  /** One error per pattern of `ps` that matches the text of `v`, in catalogue order. */
  function InjectionScan(f: Field, v: Value, ps: seq<Pattern>): seq<Issue>
    decreases |ps|
  {
    if ps == [] then []
    else
      var p := ps[|ps| - 1];
      InjectionScan(f, v, ps[..|ps| - 1]) + (if Test(RegexOf(p), Text(v)) then [Injection(p, f, v)] else [])
  }

  /** The injection scan over the fields `fs`; a falsy field is skipped. */
  function FieldInjections(j: Record, fs: seq<Field>): seq<Issue>
    decreases |fs|
  {
    if fs == [] then []
    else
      var f := fs[|fs| - 1];
      var v := FieldValue(j, f);
      FieldInjections(j, fs[..|fs| - 1]) + (if Truthy(v) then InjectionScan(f, v, DangerousPatterns) else [])
  }

  /** One warning per Unicode pattern of `ps` that matches the text of `v`. */
  function UnicodeScan(f: Field, v: Value, ps: seq<Pattern>): seq<Issue>
    decreases |ps|
  {
    if ps == [] then []
    else
      var p := ps[|ps| - 1];
      UnicodeScan(f, v, ps[..|ps| - 1]) + (if Test(RegexOf(p), Text(v)) then [SuspiciousUnicode(p, f)] else [])
  }

  function FieldUnicode(j: Record, fs: seq<Field>): seq<Issue>
    decreases |fs|
  {
    if fs == [] then []
    else
      var f := fs[|fs| - 1];
      var v := FieldValue(j, f);
      FieldUnicode(j, fs[..|fs| - 1]) + (if Truthy(v) then UnicodeScan(f, v, SuspiciousUnicodePatterns) else [])
  }

  /** Every finding of the injection scan names the field, the value and a
      listed pattern that matches. */
  lemma {:induction false} ScanFindings(f: Field, v: Value, ps: seq<Pattern>)
    ensures forall e :: e in InjectionScan(f, v, ps) ==>
              e.Injection? && e.field == f && e.value == v && e.pattern in ps && Test(RegexOf(e.pattern), Text(v))
    decreases |ps|
  {
    if ps != [] {
      ScanFindings(f, v, ps[..|ps| - 1]);
    }
  }

  /** Every listed pattern that matches is reported. */
  lemma {:induction false} ScanReports(f: Field, v: Value, ps: seq<Pattern>, p: Pattern)
    requires p in ps && Test(RegexOf(p), Text(v))
    ensures Injection(p, f, v) in InjectionScan(f, v, ps)
    decreases |ps|
  {
    if p != ps[|ps| - 1] {
      assert p in ps[..|ps| - 1];
      ScanReports(f, v, ps[..|ps| - 1], p);
    }
  }

  /** Every finding of the Unicode scan names the field and a listed pattern that matches. */
  lemma {:induction false} UnicodeFindings(f: Field, v: Value, ps: seq<Pattern>)
    ensures forall e :: e in UnicodeScan(f, v, ps) ==>
              e.SuspiciousUnicode? && e.field == f && e.pattern in ps && Test(RegexOf(e.pattern), Text(v))
    decreases |ps|
  {
    if ps != [] {
      UnicodeFindings(f, v, ps[..|ps| - 1]);
    }
  }

  /** Every listed Unicode pattern that matches is reported. */
  lemma {:induction false} UnicodeReports(f: Field, v: Value, ps: seq<Pattern>, p: Pattern)
    requires p in ps && Test(RegexOf(p), Text(v))
    ensures SuspiciousUnicode(p, f) in UnicodeScan(f, v, ps)
    decreases |ps|
  {
    if p != ps[|ps| - 1] {
      assert p in ps[..|ps| - 1];
      UnicodeReports(f, v, ps[..|ps| - 1], p);
    }
  }

  /** The rate errors: NaN, an infinity, below 0 or above 20%. */
  function RateErrors(raw: Value): (r: seq<Issue>)
    ensures |r| <= 1
    ensures raw == Undefined ==> r == [RateNotANumber(Undefined)]
    ensures AsNumber(raw).Finite? ==>
              (r != [] <==> AsNumber(raw).x < MinRate || AsNumber(raw).x > MaxRate)
  {
    var n := AsNumber(raw);
    match n
    case NaN => [RateNotANumber(raw)]
    case Infinity(_) => [RateNotFinite(raw)]
    case Finite(x) =>
      (if x < MinRate then [RateBelowMinimum(x)] else []) +
      (if x > MaxRate then [RateAboveMaximum(x)] else [])
  }

  /** The rate warning: a finite rate above 15% that is not already an error above 20%. */
  function RateWarnings(raw: Value): (r: seq<Issue>)
    ensures |r| + |RateErrors(raw)| <= 1
    ensures AsNumber(raw).Finite? ==>
              (r != [] <==> WarnRate < AsNumber(raw).x <= MaxRate)
  {
    var n := AsNumber(raw);
    if n.Finite? && !(n.x > MaxRate) && n.x > WarnRate then [UnusuallyHighRate(n.x)] else []
  }

  predicate RecognisedType(t: Value) {
    t.Str? && t.s in ValidTypes
  }

  function TypeWarnings(t: Value): seq<Issue> {
    if Truthy(t) && !RecognisedType(t) then [UnusualType(t)] else []
  }

  function RecordErrors(j: Record): seq<Issue> {
    RequiredErrors(j) + LengthErrors(j) + FieldInjections(j, CheckedFields) + RateErrors(RateOf(j))
  }

  function RecordWarnings(j: Record): seq<Issue> {
    NotesWarnings(j) + RateWarnings(RateOf(j)) + TypeWarnings(FieldValue(j, TypeField)) +
    FieldUnicode(j, CheckedFields)
  }

  /** What `validateJurisdiction` returns for `j`. */
  function CheckJurisdiction(j: Record): ValidationResult {
    ValidationResult(RecordErrors(j) == [], RecordErrors(j), RecordWarnings(j))
  }

  /** The inner loop of the injection scan: every dangerous pattern against one field value. */
  method ScanInjections(f: Field, v: Value) returns (found: seq<Issue>)
    ensures found == InjectionScan(f, v, DangerousPatterns)
  {
    var ps := DangerousPatterns;
    found := [];
    for k := 0 to |ps|
      invariant found == InjectionScan(f, v, ps[..k])
    {
      InjectionScanStep(f, v, ps, k);
      var p := ps[k];
      if Test(RegexOf(p), Text(v)) {
        found := found + [Injection(p, f, v)];
      }
    }
    assert ps[..|ps|] == ps;
  }

  /** One more pattern of the injection scan. */
  lemma InjectionScanStep(f: Field, v: Value, ps: seq<Pattern>, k: nat)
    requires k < |ps|
    ensures InjectionScan(f, v, ps[..k + 1]) ==
              InjectionScan(f, v, ps[..k]) + (if Test(RegexOf(ps[k]), Text(v)) then [Injection(ps[k], f, v)] else [])
  {
    assert ps[..k + 1][..k] == ps[..k];
  }

  /** One more pattern of the Unicode scan. */
  lemma UnicodeScanStep(f: Field, v: Value, ps: seq<Pattern>, k: nat)
    requires k < |ps|
    ensures UnicodeScan(f, v, ps[..k + 1]) ==
              UnicodeScan(f, v, ps[..k]) + (if Test(RegexOf(ps[k]), Text(v)) then [SuspiciousUnicode(ps[k], f)] else [])
  {
    assert ps[..k + 1][..k] == ps[..k];
  }

  /** The inner loop of the Unicode scan: every suspicious-Unicode pattern against one field value. */
  method ScanUnicode(f: Field, v: Value) returns (found: seq<Issue>)
    ensures found == UnicodeScan(f, v, SuspiciousUnicodePatterns)
  {
    var ps := SuspiciousUnicodePatterns;
    found := [];
    for k := 0 to |ps|
      invariant found == UnicodeScan(f, v, ps[..k])
    {
      UnicodeScanStep(f, v, ps, k);
      var p := ps[k];
      if Test(RegexOf(p), Text(v)) {
        found := found + [SuspiciousUnicode(p, f)];
      }
    }
    assert ps[..|ps|] == ps;
  }

  /** Step 3, the injection scan: each truthy field against every dangerous pattern. */
  method ScanFieldsForInjections(j: Record) returns (found: seq<Issue>)
    ensures found == FieldInjections(j, CheckedFields)
  {
    found := [];
    for i := 0 to |CheckedFields|
      invariant found == FieldInjections(j, CheckedFields[..i])
    {
      var f := CheckedFields[i];
      var v := FieldValue(j, f);
      assert CheckedFields[..i + 1][..i] == CheckedFields[..i];
      if Truthy(v) {
        var hits := ScanInjections(f, v);
        found := found + hits;
      }
    }
    assert CheckedFields[..|CheckedFields|] == CheckedFields;
  }

  /** Step 6, the Unicode scan: each truthy field against every suspicious-Unicode pattern. */
  method ScanFieldsForUnicode(j: Record) returns (found: seq<Issue>)
    ensures found == FieldUnicode(j, CheckedFields)
  {
    found := [];
    for i := 0 to |CheckedFields|
      invariant found == FieldUnicode(j, CheckedFields[..i])
    {
      var f := CheckedFields[i];
      var v := FieldValue(j, f);
      assert CheckedFields[..i + 1][..i] == CheckedFields[..i];
      if Truthy(v) {
        var hits := ScanUnicode(f, v);
        found := found + hits;
      }
    }
    assert CheckedFields[..|CheckedFields|] == CheckedFields;
  }

  /** Step 4, the rate band, on the rate as read from the record. */
  method CheckRate(rate: Value) returns (rateErrors: seq<Issue>, rateWarnings: seq<Issue>)
    ensures rateErrors == RateErrors(rate) && rateWarnings == RateWarnings(rate)
  {
    rateErrors := [];
    rateWarnings := [];
    match AsNumber(rate) {
      case NaN =>
        rateErrors := [RateNotANumber(rate)];
      case Infinity(_) =>
        rateErrors := [RateNotFinite(rate)];
      case Finite(x) =>
        if x < MinRate {
          rateErrors := rateErrors + [RateBelowMinimum(x)];
        }
        if x > MaxRate {
          rateErrors := rateErrors + [RateAboveMaximum(x)];
        } else if x > WarnRate {
          rateWarnings := [UnusuallyHighRate(x)];
        }
    }
  }

  /** `validateJurisdiction(j, state)`; the state argument is not consulted. */
  method ValidateJurisdiction(j: Record) returns (r: ValidationResult)
    ensures r == CheckJurisdiction(j)
    ensures r.valid <==> r.errors == []
  {
    // 1-2: required fields and length caps
    var errors := RequiredErrors(j) + LengthErrors(j);
    var warnings := NotesWarnings(j);

    // 3: the injection scan
    var injections := ScanFieldsForInjections(j);
    errors := errors + injections;

    // 4: the rate band
    var rateErrors, rateWarnings := CheckRate(RateOf(j));
    errors := errors + rateErrors;
    warnings := warnings + rateWarnings;

    // 5: the type
    var typ := FieldValue(j, TypeField);
    if Truthy(typ) && !RecognisedType(typ) {
      warnings := warnings + [UnusualType(typ)];
    }

    // 6: the Unicode scan
    var unicode := ScanFieldsForUnicode(j);
    warnings := warnings + unicode;

    r := ValidationResult(|errors| == 0, errors, warnings);
  }

  // ---------------------------------------------------------------------------
  // Properties of validateJurisdiction

  /** None of the patterns `ps` matches `s`. */
  predicate NoneMatches(ps: seq<Pattern>, s: string) {
    forall p :: p in ps ==> !Test(RegexOf(p), s)
  }

  /** A record free of injections: no truthy checked field matches a dangerous pattern. */
  predicate NoInjection(j: Record) {
    forall f :: f in CheckedFields && Truthy(FieldValue(j, f)) ==> NoneMatches(DangerousPatterns, Text(FieldValue(j, f)))
  }

  /** The record conditions that together make a record acceptable. */
  predicate AcceptableRecord(j: Record) {
    var location := FieldValue(j, LocationField);
    var county := FieldValue(j, CountyField);
    var n := AsNumber(RateOf(j));
    NonEmptyText(location) && Utf16Length(location.s) <= MaxLocationLength &&
    NonEmptyText(county) && Utf16Length(county.s) <= MaxCountyLength &&
    RateOf(j) != Undefined &&
    n.Finite? && MinRate <= n.x <= MaxRate &&
    NoInjection(j)
  }


  lemma {:induction false} FieldInjectionsEmpty(j: Record, fs: seq<Field>)
    ensures FieldInjections(j, fs) == [] <==>
            forall f :: f in fs && Truthy(FieldValue(j, f)) ==> NoneMatches(DangerousPatterns, Text(FieldValue(j, f)))
    decreases |fs|
  {
    if fs != [] {
      var f := fs[|fs| - 1];
      FieldInjectionsEmpty(j, fs[..|fs| - 1]);
      assert forall g :: g in fs <==> g in fs[..|fs| - 1] || g == f;
      ScanEmpty(f, FieldValue(j, f), DangerousPatterns);
    }
  }

  lemma ScanEmpty(f: Field, v: Value, ps: seq<Pattern>)
    ensures InjectionScan(f, v, ps) == [] <==> NoneMatches(ps, Text(v))
  {
  }

  lemma RateErrorsEmpty(raw: Value)
    ensures RateErrors(raw) == [] <==> AsNumber(raw).Finite? && MinRate <= AsNumber(raw).x <= MaxRate
  {
  }

  /** A record is valid exactly when every acceptance condition holds; the
      warnings (notes length, a high rate, an unusual type, suspicious
      Unicode) play no part. */
  lemma JurisdictionValidity(j: Record)
    ensures CheckJurisdiction(j).valid <==> AcceptableRecord(j)
  {
    FieldInjectionsEmpty(j, CheckedFields);
    RateErrorsEmpty(RateOf(j));
    assert RecordErrors(j) == [] <==>
      RequiredErrors(j) == [] && LengthErrors(j) == [] && FieldInjections(j, CheckedFields) == [] &&
      RateErrors(RateOf(j)) == [];
  }

  /** Required fields: a missing, empty or non-string location or county is
      an error, and a missing rate is reported twice, as missing and as not a
      number. */
  lemma MissingFieldErrors(j: Record)
    ensures !NonEmptyText(FieldValue(j, LocationField)) ==> MissingLocation in CheckJurisdiction(j).errors
    ensures !NonEmptyText(FieldValue(j, CountyField)) ==> MissingCounty in CheckJurisdiction(j).errors
    ensures RateOf(j) == Undefined ==>
              MissingRate in CheckJurisdiction(j).errors && RateNotANumber(Undefined) in CheckJurisdiction(j).errors
  {
  }

  /** The length caps: a long location or county is an error, long notes only a warning. */
  lemma LengthCaps(j: Record)
    ensures var l := FieldValue(j, LocationField);
            l.Str? && Utf16Length(l.s) > MaxLocationLength ==> LocationTooLong(Utf16Length(l.s)) in CheckJurisdiction(j).errors
    ensures var c := FieldValue(j, CountyField);
            c.Str? && Utf16Length(c.s) > MaxCountyLength ==> CountyTooLong(Utf16Length(c.s)) in CheckJurisdiction(j).errors
    ensures var n := FieldValue(j, NotesField);
            n.Str? && Utf16Length(n.s) > MaxNotesLength ==>
              NotesTooLong(Utf16Length(n.s)) in CheckJurisdiction(j).warnings &&
              NotesTooLong(Utf16Length(n.s)) !in CheckJurisdiction(j).errors
  {
    RecordKinds(j);
  }

  /** Lengths are JavaScript's, in UTF-16 code units: 101 characters from
      outside the Basic Multilingual Plane are 202 units, over the 200 cap,
      and make the record invalid. */
  lemma AstralLocationTooLong(j: Record, c: char)
    requires c as int > 0xFFFF
    requires FieldValue(j, LocationField) == Str(Repeat(c, 101))
    ensures LocationTooLong(202) in CheckJurisdiction(j).errors
    ensures !CheckJurisdiction(j).valid
  {
    Utf16LengthOfAstralRun(c, 101);
    LengthCaps(j);
  }

  lemma {:induction false} FieldInjectionsKinds(j: Record, fs: seq<Field>)
    ensures forall e :: e in FieldInjections(j, fs) ==> e.Injection?
    decreases |fs|
  {
    if fs != [] {
      var f := fs[|fs| - 1];
      FieldInjectionsKinds(j, fs[..|fs| - 1]);
      ScanFindings(f, FieldValue(j, f), DangerousPatterns);
    }
  }

  lemma {:induction false} FieldUnicodeKinds(j: Record, fs: seq<Field>)
    ensures forall e :: e in FieldUnicode(j, fs) ==> e.SuspiciousUnicode?
    decreases |fs|
  {
    if fs != [] {
      var f := fs[|fs| - 1];
      FieldUnicodeKinds(j, fs[..|fs| - 1]);
      UnicodeFindings(f, FieldValue(j, f), SuspiciousUnicodePatterns);
    }
  }

  /** Errors and warnings never mix: an unusual type, suspicious Unicode,
      long notes and a high rate are only ever warnings, and everything else
      only ever an error. */
  lemma RecordKinds(j: Record)
    ensures forall e :: e in CheckJurisdiction(j).errors ==> !WarningKind(e)
    ensures forall w :: w in CheckJurisdiction(j).warnings ==> WarningKind(w)
  {
    RecordErrorKinds(j);
    RecordWarningKinds(j);
  }

  lemma RecordErrorKinds(j: Record)
    ensures forall e :: e in RecordErrors(j) ==> !WarningKind(e)
  {
    FieldInjectionsKinds(j, CheckedFields);
    PlainErrorKinds(j);
    var a, b, c, d := RequiredErrors(j), LengthErrors(j), FieldInjections(j, CheckedFields), RateErrors(RateOf(j));
    assert RecordErrors(j) == a + b + c + d;
    forall e | e in a + b + c + d ensures !WarningKind(e) {
      assert e in a || e in b || e in c || e in d;
    }
  }

  /** The required-field, length and rate checks report errors only. */
  lemma PlainErrorKinds(j: Record)
    ensures forall e :: e in RequiredErrors(j) ==> !WarningKind(e)
    ensures forall e :: e in LengthErrors(j) ==> !WarningKind(e)
    ensures forall e :: e in RateErrors(RateOf(j)) ==> !WarningKind(e)
  {
  }

  lemma RecordWarningKinds(j: Record)
    ensures forall w :: w in RecordWarnings(j) ==> WarningKind(w)
  {
    FieldUnicodeKinds(j, CheckedFields);
    var w, x, y, z := NotesWarnings(j), RateWarnings(RateOf(j)), TypeWarnings(FieldValue(j, TypeField)),
                      FieldUnicode(j, CheckedFields);
    assert forall e :: e in w + x + y + z ==> e in w || e in x || e in y || e in z;
  }

  /** Warnings for an unrecognised type: exactly when the type is truthy and not in the list. */
  lemma UnusualTypeWarning(j: Record)
    ensures var t := FieldValue(j, TypeField);
            UnusualType(t) in CheckJurisdiction(j).warnings <==> Truthy(t) && !RecognisedType(t)
  {
    FieldUnicodeKinds(j, CheckedFields);
    var t := FieldValue(j, TypeField);
    var w, x, y, z := NotesWarnings(j), RateWarnings(RateOf(j)), TypeWarnings(t), FieldUnicode(j, CheckedFields);
    assert UnusualType(t) in w + x + y + z <==> UnusualType(t) in w || UnusualType(t) in x || UnusualType(t) in y || UnusualType(t) in z;
    assert UnusualType(t) !in w && UnusualType(t) !in x && UnusualType(t) !in z;
  }

  /** The injection scan reports a pattern as often as `ps` lists it, when
      it matches. */
  lemma {:induction false} ScanCount(f: Field, v: Value, ps: seq<Pattern>, p: Pattern)
    ensures multiset(InjectionScan(f, v, ps))[Injection(p, f, v)] ==
            if Test(RegexOf(p), Text(v)) then multiset(ps)[p] else 0
    decreases |ps|
  {
    if ps != [] {
      var init, q := ps[..|ps| - 1], ps[|ps| - 1];
      var tail := if Test(RegexOf(q), Text(v)) then [Injection(q, f, v)] else [];
      ScanCount(f, v, init, p);
      assert ps == init + [q];
      assert multiset(ps) == multiset(init) + multiset([q]);
      assert multiset(InjectionScan(f, v, ps)) == multiset(InjectionScan(f, v, init)) + multiset(tail);
      ScanTail(f, v, q, p);
    }
  }

  /** What one step of the scan adds for the pattern `p`. */
  lemma ScanTail(f: Field, v: Value, q: Pattern, p: Pattern)
    ensures multiset(if Test(RegexOf(q), Text(v)) then [Injection(q, f, v)] else [])[Injection(p, f, v)] ==
            if q == p && Test(RegexOf(p), Text(v)) then 1 else 0
  {
  }

  lemma {:induction false} FieldInjectionsCount(j: Record, fs: seq<Field>, f: Field, p: Pattern)
    requires forall a, b :: 0 <= a < b < |fs| ==> fs[a] != fs[b]
    ensures var v := FieldValue(j, f);
            multiset(FieldInjections(j, fs))[Injection(p, f, v)] ==
              if f in fs && Truthy(v) then multiset(InjectionScan(f, v, DangerousPatterns))[Injection(p, f, v)] else 0
    decreases |fs|
  {
    if fs != [] {
      var g := fs[|fs| - 1];
      var v := FieldValue(j, g);
      FieldInjectionsCount(j, fs[..|fs| - 1], f, p);
      assert f in fs <==> f in fs[..|fs| - 1] || f == g;
      if g == f {
        assert f !in fs[..|fs| - 1];
      } else if Truthy(v) {
        ScanFindings(g, v, DangerousPatterns);
        assert Injection(p, f, FieldValue(j, f)) !in InjectionScan(g, v, DangerousPatterns);
      }
    }
  }

  /** A sequence without repetitions holds each of its elements once. */
  lemma {:induction false} DistinctCount<T>(s: seq<T>, x: T)
    requires forall a, b :: 0 <= a < b < |s| ==> s[a] != s[b]
    ensures multiset(s)[x] == if x in s then 1 else 0
    decreases |s|
  {
    if s != [] {
      DistinctCount(s[1..], x);
      assert s == [s[0]] + s[1..];
      if x == s[0] {
        assert x !in s[1..];
      }
    }
  }

  /** The position of each pattern in the catalogue. */
  ghost function Rank(p: Pattern): nat {
    match p
    case ScriptTag => 0 case JavaScriptProtocol => 1 case OnErrorHandler => 2 case OnLoadHandler => 3
    case IframeTag => 4 case EmbedTag => 5 case SqlDrop => 6 case SqlDelete => 7 case SqlInsert => 8
    case SqlUpdate => 9 case SqlComment => 10 case SqlOrBypass => 11 case PathTraversal => 12
    case UnixSystemPath => 13 case WindowsSystemPath => 14 case CsvFormula => 15 case ExcelSum => 16
    case ExcelCommand => 17 case BacktickCommand => 18 case CommandSubstitution => 19
    case NullByte => 20 case ZeroWidthNoBreakSpace => 21 case ZeroWidthCharacter => 22
  }

  /** The injection catalogue lists each pattern once. */
  lemma CatalogueOnce(p: Pattern)
    ensures multiset(DangerousPatterns)[p] == if p in DangerousPatterns then 1 else 0
  {
    CatalogueRanked();
    RankedOnce(DangerousPatterns, p);
  }

  /** Each catalogue entry sits at its own rank. */
  lemma CatalogueRanked()
    ensures forall k :: 0 <= k < |DangerousPatterns| ==> Rank(DangerousPatterns[k]) == k
  {
  }

  /** A sequence whose entries sit at their own ranks lists each pattern once. */
  lemma RankedOnce(s: seq<Pattern>, p: Pattern)
    requires forall k :: 0 <= k < |s| ==> Rank(s[k]) == k
    ensures multiset(s)[p] == if p in s then 1 else 0
  {
    assert forall a, b :: 0 <= a < b < |s| ==> s[a] != s[b];
    DistinctCount(s, p);
  }

  /** The injection scan reports each (truthy field, matching pattern) pair
      exactly once. */
  lemma InjectionReportedOnce(j: Record, f: Field, p: Pattern)
    ensures var v := FieldValue(j, f);
            multiset(CheckJurisdiction(j).errors)[Injection(p, f, v)] ==
              if Truthy(v) && p in DangerousPatterns && Test(RegexOf(p), Text(v)) then 1 else 0
  {
    ScanReportsOnce(j, f, p);
    OnlyScanReportsInjections(j, f, p);
  }

  lemma ScanReportsOnce(j: Record, f: Field, p: Pattern)
    ensures var v := FieldValue(j, f);
            multiset(FieldInjections(j, CheckedFields))[Injection(p, f, v)] ==
              if Truthy(v) && p in DangerousPatterns && Test(RegexOf(p), Text(v)) then 1 else 0
  {
    var v := FieldValue(j, f);
    var e := Injection(p, f, v);
    CheckedFieldsOnce(f);
    FieldInjectionsCount(j, CheckedFields, f, p);
    var c := FieldInjections(j, CheckedFields);
    var s := InjectionScan(f, v, DangerousPatterns);
    assert multiset(c)[e] == if Truthy(v) then multiset(s)[e] else 0;
    CatalogueOnce(p);
    ScanCount(f, v, DangerousPatterns, p);
  }

  lemma OnlyScanReportsInjections(j: Record, f: Field, p: Pattern)
    ensures var e := Injection(p, f, FieldValue(j, f));
            multiset(CheckJurisdiction(j).errors)[e] == multiset(FieldInjections(j, CheckedFields))[e]
  {
    var e := Injection(p, f, FieldValue(j, f));
    var a, c, d := RequiredErrors(j) + LengthErrors(j), FieldInjections(j, CheckedFields), RateErrors(RateOf(j));
    NoInjectionElsewhere(j, e);
    assert e !in a && e !in d;
    assert RecordErrors(j) == a + c + d;
    assert multiset(a + c + d)[e] == multiset(a)[e] + multiset(c)[e] + multiset(d)[e];
  }

  /** Every field is scanned, and once. */
  lemma CheckedFieldsOnce(f: Field)
    ensures f in CheckedFields
    ensures forall a, b :: 0 <= a < b < |CheckedFields| ==> CheckedFields[a] != CheckedFields[b]
  {
  }

  lemma NoInjectionElsewhere(j: Record, e: Issue)
    requires e.Injection?
    ensures e !in RequiredErrors(j) + LengthErrors(j) + RateErrors(RateOf(j))
  {
  }

  // ---------------------------------------------------------------------------
  // Selected patterns in plain terms

  /** The formula-injection pattern: the text starts with `=`, `+`, `-` or `@`. */
  lemma CsvFormulaMeaning(s: string)
    ensures Test(RegexOf(CsvFormula), s) <==> |s| > 0 && s[0] in "=+-@"
  {
    var t := RegexOf(CsvFormula).terms;
    assert t == [Once(OneOf("=+-@"))];
    if |s| > 0 {
      assert t[1..] == [];
      assert MatchHere(t, false, s, 0) <==> AtomMatches(OneOf("=+-@"), false, s[0]);
      if s[0] in "=+-@" {
        var k :| 0 <= k < 4 && "=+-@"[k] == s[0];
        assert SameChar(false, s[0], "=+-@"[k]);
      }
    }
  }

  /** The path-traversal pattern: the text contains `../` or `..\`. */
  lemma PathTraversalMeaning(s: string)
    ensures Test(RegexOf(PathTraversal), s) <==> Contains(s, "../") || Contains(s, "..\\")
  {
    var rest := [Once(OneOf("/\\"))];
    forall i | 0 <= i <= |s|
      ensures MatchHere(RegexOf(PathTraversal).terms, false, s, i) <==> OccursAt(s, "../", i) || OccursAt(s, "..\\", i)
    {
      assert RegexOf(PathTraversal).terms[1..] == rest;
      if i + 3 <= |s| {
        assert s[i..i + 3] == [s[i], s[i + 1], s[i + 2]];
        assert rest[1..] == [];
        assert MatchHere(rest, false, s, i + 2) <==> AtomMatches(OneOf("/\\"), false, s[i + 2]);
        assert AtomMatches(OneOf("/\\"), false, s[i + 2]) <==> s[i + 2] == '/' || s[i + 2] == '\\' by {
          if s[i + 2] == '/' {
            assert SameChar(false, s[i + 2], "/\\"[0]);
          }
          if s[i + 2] == '\\' {
            assert SameChar(false, s[i + 2], "/\\"[1]);
          }
        }
        assert LiteralAt(ParentWord, false, s, i) <==> s[i] == '.' && s[i + 1] == '.' by {
          assert ParentWord == "..";
          if LiteralAt(ParentWord, false, s, i) {
            assert SameChar(false, s[i + 0], ParentWord[0]) && SameChar(false, s[i + 1], ParentWord[1]);
          }
        }
      } else {
        assert !(LiteralAt(ParentWord, false, s, i) && MatchHere(rest, false, s, i + 2));
      }
    }
  }

  /** Every literal pattern is a case-insensitive substring search. */
  lemma LiteralPatternMeaning(p: Pattern, w: string, s: string)
    requires (p, w) in {(ScriptTag, ScriptWord), (JavaScriptProtocol, JavaScriptWord), (IframeTag, IframeWord),
                        (EmbedTag, EmbedWord), (UnixSystemPath, EtcWord), (WindowsSystemPath, WindowsWord),
                        (ExcelSum, SumWord), (ExcelCommand, CmdWord)}
    ensures Test(RegexOf(p), s) <==> exists i :: 0 <= i <= |s| && LiteralAt(w, true, s, i)
  {
    LiteralTest(w, true, s);
  }

  /** A spreadsheet command payload such as `=cmd|'/c calc'!A1` in the location
      is reported twice: once as a formula and once as a command execution. */
  lemma CommandPayloadFlagged(j: Record, rest: string)
    requires FieldValue(j, LocationField) == Str("=cmd|" + rest)
    ensures Injection(CsvFormula, LocationField, FieldValue(j, LocationField)) in CheckJurisdiction(j).errors
    ensures Injection(ExcelCommand, LocationField, FieldValue(j, LocationField)) in CheckJurisdiction(j).errors
    ensures !CheckJurisdiction(j).valid
  {
    var s := "=cmd|" + rest;
    CsvFormulaMeaning(s);
    assert CmdWord == "=cmd|";
    assert LiteralAt(CmdWord, true, s, 0);
    LiteralPatternMeaning(ExcelCommand, CmdWord, s);
    InjectionReportedOnce(j, LocationField, CsvFormula);
    InjectionReportedOnce(j, LocationField, ExcelCommand);
  }
}
