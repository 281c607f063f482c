/** The dataset and diff validators of
    `scripts/auto-update/validate-jurisdiction.ts`: `validateDataset` checks a
    whole per-state file, `validateDiff` compares a new file against the one
    it replaces.  Both build on the record validator. */
module DatasetValidation {
  import opened Wrappers
  import opened Strings
  import opened Numbers
  import opened Json
  import opened Validation

  // ---------------------------------------------------------------------------
  // validateDataset

  /** States whose scraper covers every jurisdiction, lower-cased. */
  const FullyScrapedStates: seq<string> := ["ca"]
  const MaxJurisdictions := 5000
  const ShownDuplicates := 10
  const ReportedInvalid := 10
  const ShownOutliers := 5

  /** The smallest plausible count: 50 for a fully scraped state (in any letter case), else 1. */
  function MinJurisdictions(state: string): (r: nat)
    ensures r == if Lower(state) == "ca" then 50 else 1
  {
    if Lower(state) in FullyScrapedStates then 50 else 1
  }

  function CountErrors(count: nat, state: string): seq<Issue> {
    (if count < MinJurisdictions(state) then [TooFewJurisdictions(count, MinJurisdictions(state))] else []) +
    (if count > MaxJurisdictions then [TooManyJurisdictions(count, MaxJurisdictions)] else [])
  }

  /** The warning when `metadata.jurisdictionCount !== count`. */
  function MismatchWarnings(metadata: Option<Metadata>, count: nat): seq<Issue> {
    if metadata.Some? && !StrictEquals(metadata.value.jurisdictionCount, Num(Finite(count as real)))
    then [MetadataCountMismatch(metadata.value.jurisdictionCount, count)]
    else []
  }

  /** The duplicate key: `${location}|${county}|${type}`, lower-cased. */
  function DuplicateKey(j: Record): string {
    Lower(RecordKey(j))
  }

  /** How a duplicate is shown: `${location} (${county})`. */
  function DuplicateLabel(j: Record): string {
    Text(Get(j, "location")) + " (" + Text(Get(j, "county")) + ")"
  }

  /** The keys met in `js`: the `seen` set after visiting them. */
  function SeenKeys(js: seq<Record>, key: Record -> string): set<string>
    decreases |js|
  {
    if js == [] then {} else SeenKeys(js[..|js| - 1], key) + {key(js[|js| - 1])}
  }

  /** The `duplicates` array after visiting `js`: one label per record whose
      key occurred earlier, in order. */
  function Duplicates(js: seq<Record>, key: Record -> string, show: Record -> string): seq<string>
    decreases |js|
  {
    if js == [] then []
    else
      var j := js[|js| - 1];
      var pre := js[..|js| - 1];
      Duplicates(pre, key, show) + (if key(j) in SeenKeys(pre, key) then [show(j)] else [])
  }

  predicate KeysDistinct(js: seq<Record>, key: Record -> string) {
    forall a, b :: 0 <= a < b < |js| ==> key(js[a]) != key(js[b])
  }

  /** The single duplicate error: the first ten labels and how many more there are. */
  function DuplicateErrors(js: seq<Record>): seq<Issue> {
    var ds := Duplicates(js, DuplicateKey, DuplicateLabel);
    if |ds| > 0
    then [DuplicateJurisdictions(Take(ds, ShownDuplicates), if |ds| > ShownDuplicates then |ds| - ShownDuplicates else 0)]
    else []
  }

  /** One report per record that `check` finds invalid, in order. */
  function InvalidReports(js: seq<Record>, check: Record -> ValidationResult): (r: seq<Issue>)
    ensures forall k :: 0 <= k < |r| ==> r[k].InvalidJurisdiction?
    decreases |js|
  {
    if js == [] then []
    else
      var j := js[|js| - 1];
      InvalidReports(js[..|js| - 1], check) +
      (if !check(j).valid then [InvalidJurisdiction(Get(j, "location"), check(j).errors)] else [])
  }

  /** The first ten reports, then one line for the rest. */
  function InvalidErrors(js: seq<Record>, check: Record -> ValidationResult): seq<Issue> {
    var rs := InvalidReports(js, check);
    Take(rs, ReportedInvalid) + (if |rs| > ReportedInvalid then [MoreInvalidJurisdictions(|rs| - ReportedInvalid)] else [])
  }

  /** Every record's warnings, record after record. */
  function RecordWarningsOf(js: seq<Record>, check: Record -> ValidationResult): seq<Issue>
    decreases |js|
  {
    if js == [] then [] else RecordWarningsOf(js[..|js| - 1], check) + check(js[|js| - 1]).warnings
  }

  // Statistical outliers, on exact reals.

  /** `parseFloat(j.rate)` of every record, NaN dropped. */
  function SampleRates(js: seq<Record>): (r: seq<Number>)
    ensures forall k :: 0 <= k < |r| ==> !r[k].NaN?
    decreases |js|
  {
    if js == [] then []
    else
      var n := AsNumber(Get(js[|js| - 1], "rate"));
      SampleRates(js[..|js| - 1]) + (if n.NaN? then [] else [n])
  }

  predicate AllFinite(ns: seq<Number>) {
    forall k :: 0 <= k < |ns| ==> ns[k].Finite?
  }

  function Values(ns: seq<Number>): (r: seq<real>)
    requires AllFinite(ns)
    ensures |r| == |ns|
    decreases |ns|
  {
    if ns == [] then [] else Values(ns[..|ns| - 1]) + [ns[|ns| - 1].x]
  }

  function Sum(xs: seq<real>): real
    decreases |xs|
  {
    if xs == [] then 0.0 else Sum(xs[..|xs| - 1]) + xs[|xs| - 1]
  }

  function SquaredDeviations(xs: seq<real>, mean: real): (r: real)
    ensures r >= 0.0
    decreases |xs|
  {
    if xs == [] then 0.0
    else
      var d := xs[|xs| - 1] - mean;
      SquaredDeviations(xs[..|xs| - 1], mean) + d * d
  }

  /** `|rate - mean| > 3 * stdDev`, squared on both sides. */
  predicate IsOutlier(j: Record, mean: real, variance: real) {
    var n := AsNumber(Get(j, "rate"));
    n.Finite? && (n.x - mean) * (n.x - mean) > 9.0 * variance
  }

  function Outliers(js: seq<Record>, mean: real, variance: real): (r: seq<Record>)
    ensures |r| <= |js|
    decreases |js|
  {
    if js == [] then []
    else
      var j := js[|js| - 1];
      Outliers(js[..|js| - 1], mean, variance) + (if IsOutlier(j, mean, variance) then [j] else [])
  }

  function OutlierDetails(os: seq<Record>, mean: real): (r: seq<Issue>)
    ensures |r| == |os|
    ensures forall k :: 0 <= k < |r| ==> r[k].Outlier?
    decreases |os|
  {
    if os == [] then []
    else OutlierDetails(os[..|os| - 1], mean) + [Outlier(Get(os[|os| - 1], "location"), Get(os[|os| - 1], "rate"), mean)]
  }

  /** The outlier warnings: a count, then the first five outliers.  An
      infinite sample makes the mean or the deviation NaN, and then no
      record compares as an outlier. */
  function OutlierWarnings(js: seq<Record>): (r: seq<Issue>)
    ensures forall w :: w in r ==> w.StatisticalOutliers? || w.Outlier?
    ensures |r| <= 1 + ShownOutliers
  {
    var ns := SampleRates(js);
    if ns == [] || !AllFinite(ns) then []
    else
      var xs := Values(ns);
      var mean := Sum(xs) / |xs| as real;
      var variance := SquaredDeviations(xs, mean) / |xs| as real;
      var os := Outliers(js, mean, variance);
      if os == [] then []
      else [StatisticalOutliers(|os|)] + OutlierDetails(Take(os, ShownOutliers), mean)
  }

  /** The errors `validateDataset(data, state)` reports when every record
      goes through `check`: a missing array ends the list early. */
  function DatasetErrors(d: Dataset, state: string, check: Record -> ValidationResult): seq<Issue> {
    var structure := if d.metadata.None? then [MissingMetadata] else [];
    if d.jurisdictions.None? then structure + [MissingJurisdictions]
    else
      var js := d.jurisdictions.value;
      structure + CountErrors(|js|, state) + DuplicateErrors(js) + InvalidErrors(js, check)
  }

  /** The warnings `validateDataset(data, state)` reports. */
  function DatasetWarnings(d: Dataset, check: Record -> ValidationResult): seq<Issue> {
    if d.jurisdictions.None? then []
    else
      var js := d.jurisdictions.value;
      MismatchWarnings(d.metadata, |js|) + RecordWarningsOf(js, check) + OutlierWarnings(js)
  }

  /** What `validateDataset(data, state)` returns when every record goes
      through `check`; the validator proper uses `CheckJurisdiction`. */
  function CheckDataset(d: Dataset, state: string, check: Record -> ValidationResult): ValidationResult {
    var errors := DatasetErrors(d, state, check);
    ValidationResult(errors == [], errors, DatasetWarnings(d, check))
  }

  /** Step 4: the duplicate scan with its `seen` set. */
  method FindDuplicates(js: seq<Record>, key: Record -> string, show: Record -> string) returns (duplicates: seq<string>)
    ensures duplicates == Duplicates(js, key, show)
  {
    var seen: set<string> := {};
    duplicates := [];
    for i := 0 to |js|
      invariant seen == SeenKeys(js[..i], key)
      invariant duplicates == Duplicates(js[..i], key, show)
    {
      var j := js[i];
      assert js[..i + 1][..i] == js[..i];
      if key(j) in seen {
        duplicates := duplicates + [show(j)];
      }
      seen := seen + {key(j)};
    }
    assert js[..|js|] == js;
  }

  /** One step of the record loop: the count, the first ten reports and the
      warnings grow by the verdict on the next record. */
  lemma RecordStep(js: seq<Record>, i: nat, check: Record -> ValidationResult)
    requires i < |js|
    ensures var rs := InvalidReports(js[..i], check);
            var v := check(js[i]);
            var report := InvalidJurisdiction(Get(js[i], "location"), v.errors);
            |InvalidReports(js[..i + 1], check)| == |rs| + (if v.valid then 0 else 1) &&
            Take(InvalidReports(js[..i + 1], check), ReportedInvalid) ==
              (if !v.valid && |rs| < ReportedInvalid then Take(rs, ReportedInvalid) + [report] else Take(rs, ReportedInvalid)) &&
            RecordWarningsOf(js[..i + 1], check) == RecordWarningsOf(js[..i], check) + v.warnings
  {
    assert js[..i + 1][..i] == js[..i];
    var rs := InvalidReports(js[..i], check);
    TakeAppend(rs, InvalidJurisdiction(Get(js[i], "location"), check(js[i]).errors), ReportedInvalid);
  }

  /** Step 5: every record through the record validator `check`. */
  method CheckEachRecord(js: seq<Record>, check: Record -> ValidationResult)
    returns (reported: seq<Issue>, invalidCount: nat, warnings: seq<Issue>)
    ensures invalidCount == |InvalidReports(js, check)|
    ensures reported == Take(InvalidReports(js, check), ReportedInvalid)
    ensures warnings == RecordWarningsOf(js, check)
  {
    reported, invalidCount, warnings := [], 0, [];
    for i := 0 to |js|
      invariant invalidCount == |InvalidReports(js[..i], check)|
      invariant reported == Take(InvalidReports(js[..i], check), ReportedInvalid)
      invariant warnings == RecordWarningsOf(js[..i], check)
    {
      var j := js[i];
      RecordStep(js, i, check);
      var result := check(j);
      if !result.valid {
        invalidCount := invalidCount + 1;
        if invalidCount <= ReportedInvalid {
          reported := reported + [InvalidJurisdiction(Get(j, "location"), result.errors)];
        }
      }
      warnings := warnings + result.warnings;
    }
    assert js[..|js|] == js;
  }

  /** `validateDataset(data, state)`, with the record validator passed in as
      `check`: the validator proper is `ValidateDataset(d, state, CheckJurisdiction)`. */
  /** Step 5: the first ten invalid records, a line for the rest, and
      every record's warnings. */
  method CheckRecords(js: seq<Record>, check: Record -> ValidationResult)
    returns (invalidErrors: seq<Issue>, warnings: seq<Issue>)
    ensures invalidErrors == InvalidErrors(js, check)
    ensures warnings == RecordWarningsOf(js, check)
  {
    var reported, invalidCount;
    reported, invalidCount, warnings := CheckEachRecord(js, check);
    invalidErrors := reported;
    if invalidCount > ReportedInvalid {
      invalidErrors := invalidErrors + [MoreInvalidJurisdictions(invalidCount - ReportedInvalid)];
    }
  }

  method ValidateDataset(d: Dataset, state: string, check: Record -> ValidationResult) returns (r: ValidationResult)
    ensures r == CheckDataset(d, state, check)
    ensures r.valid <==> r.errors == []
  {
    // 1: structure
    var structure: seq<Issue> := [];
    if d.metadata.None? {
      structure := [MissingMetadata];
    }
    if d.jurisdictions.None? {
      return ValidationResult(false, structure + [MissingJurisdictions], []);
    }
    var js := d.jurisdictions.value;

    // 2: count bounds
    var count := |js|;
    var minCount := MinJurisdictions(state);
    var countErrors: seq<Issue> := [];
    if count < minCount {
      countErrors := countErrors + [TooFewJurisdictions(count, minCount)];
    }
    if count > MaxJurisdictions {
      countErrors := countErrors + [TooManyJurisdictions(count, MaxJurisdictions)];
    }
    assert countErrors == CountErrors(count, state);

    // 3: metadata consistency
    var mismatch: seq<Issue> := [];
    if d.metadata.Some? && !StrictEquals(d.metadata.value.jurisdictionCount, Num(Finite(count as real))) {
      mismatch := [MetadataCountMismatch(d.metadata.value.jurisdictionCount, count)];
    }
    assert mismatch == MismatchWarnings(d.metadata, count);

    // 4: duplicates
    var duplicates := FindDuplicates(js, DuplicateKey, DuplicateLabel);
    var duplicateErrors: seq<Issue> := [];
    if |duplicates| > 0 {
      var more := if |duplicates| > ShownDuplicates then |duplicates| - ShownDuplicates else 0;
      duplicateErrors := [DuplicateJurisdictions(Take(duplicates, ShownDuplicates), more)];
    }
    assert duplicateErrors == DuplicateErrors(js);

    // 5: every record
    var invalidErrors, recordWarnings := CheckRecords(js, check);

    // 6: statistical outliers
    var outliers := OutlierWarnings(js);

    var errors := structure + countErrors + duplicateErrors + invalidErrors;
    assert errors == DatasetErrors(d, state, check);
    assert mismatch + recordWarnings + outliers == DatasetWarnings(d, check);
    r := ValidationResult(|errors| == 0, errors, mismatch + recordWarnings + outliers);
  }

  // ---------------------------------------------------------------------------
  // Properties of validateDataset

  lemma {:induction false} SeenKeysMeaning(js: seq<Record>, key: Record -> string, k: string)
    ensures k in SeenKeys(js, key) <==> exists a :: 0 <= a < |js| && key(js[a]) == k
    decreases |js|
  {
    if js != [] {
      var pre := js[..|js| - 1];
      SeenKeysMeaning(pre, key, k);
      assert forall a :: 0 <= a < |pre| ==> pre[a] == js[a];
    }
  }

  /** No duplicate is reported exactly when the keys are pairwise distinct. */
  lemma {:induction false} DuplicatesEmpty(js: seq<Record>, key: Record -> string, show: Record -> string)
    ensures Duplicates(js, key, show) == [] <==> KeysDistinct(js, key)
    decreases |js|
  {
    if js != [] {
      var pre := js[..|js| - 1];
      var last := js[|js| - 1];
      DuplicatesEmpty(pre, key, show);
      SeenKeysMeaning(pre, key, key(last));
      assert forall a :: 0 <= a < |pre| ==> pre[a] == js[a];
      if KeysDistinct(js, key) {
        assert KeysDistinct(pre, key);
        assert key(last) !in SeenKeys(pre, key);
      }
      if Duplicates(js, key, show) == [] {
        assert Duplicates(pre, key, show) == [] && key(last) !in SeenKeys(pre, key);
        forall a, b | 0 <= a < b < |js| ensures key(js[a]) != key(js[b]) {
          if b < |js| - 1 {
            assert key(pre[a]) != key(pre[b]);
          }
        }
      }
    }
  }

  lemma {:induction false} InvalidReportsEmpty(js: seq<Record>, check: Record -> ValidationResult)
    ensures InvalidReports(js, check) == [] <==> forall k :: 0 <= k < |js| ==> check(js[k]).valid
    decreases |js|
  {
    if js != [] {
      var pre := js[..|js| - 1];
      InvalidReportsEmpty(pre, check);
      assert forall a :: 0 <= a < |pre| ==> pre[a] == js[a];
    }
  }

  /** With the array present, a dataset is valid exactly when the metadata is
      there, the count lies within the bounds, no case-folded key repeats and
      every record passes the record check; the metadata count and the
      outliers do not matter. */
  lemma DatasetValidity(d: Dataset, state: string, check: Record -> ValidationResult)
    requires d.jurisdictions.Some?
    ensures var js := d.jurisdictions.value;
            CheckDataset(d, state, check).valid <==>
              d.metadata.Some? &&
              MinJurisdictions(state) <= |js| <= MaxJurisdictions &&
              KeysDistinct(js, DuplicateKey) &&
              forall k :: 0 <= k < |js| ==> check(js[k]).valid
  {
    var js := d.jurisdictions.value;
    DuplicatesEmpty(js, DuplicateKey, DuplicateLabel);
    InvalidReportsEmpty(js, check);
  }

  /** A missing jurisdictions array ends the check at once. */
  lemma MissingArrayShortCircuits(d: Dataset, state: string, check: Record -> ValidationResult)
    requires d.jurisdictions.None?
    ensures !CheckDataset(d, state, check).valid
    ensures CheckDataset(d, state, check).errors ==
            (if d.metadata.None? then [MissingMetadata] else []) + [MissingJurisdictions]
    ensures CheckDataset(d, state, check).warnings == []
  {
  }

  /** The number of issues of one kind. */
  function CountKind(s: seq<Issue>, kind: Issue -> bool): nat
    decreases |s|
  {
    if s == [] then 0 else CountKind(s[..|s| - 1], kind) + (if kind(s[|s| - 1]) then 1 else 0)
  }

  lemma {:induction false} CountKindAppend(a: seq<Issue>, b: seq<Issue>, kind: Issue -> bool)
    ensures CountKind(a + b, kind) == CountKind(a, kind) + CountKind(b, kind)
    decreases |b|
  {
    if b == [] {
      assert a + b == a;
    } else {
      CountKindAppend(a, b[..|b| - 1], kind);
      assert (a + b)[..|a + b| - 1] == a + b[..|b| - 1];
    }
  }

  lemma {:induction false} CountKindAll(s: seq<Issue>, kind: Issue -> bool)
    requires forall k :: 0 <= k < |s| ==> kind(s[k])
    ensures CountKind(s, kind) == |s|
    decreases |s|
  {
    if s != [] {
      CountKindAll(s[..|s| - 1], kind);
    }
  }

  lemma {:induction false} CountKindNone(s: seq<Issue>, kind: Issue -> bool)
    requires forall k :: 0 <= k < |s| ==> !kind(s[k])
    ensures CountKind(s, kind) == 0
    decreases |s|
  {
    if s != [] {
      CountKindNone(s[..|s| - 1], kind);
    }
  }

  lemma CountKindSingle(e: Issue, kind: Issue -> bool)
    ensures CountKind([e], kind) == if kind(e) then 1 else 0
  {
    assert [e][..0] == [];
  }

  const IsDuplicateReport: Issue -> bool := (e: Issue) => e.DuplicateJurisdictions?
  const IsInvalidReport: Issue -> bool := (e: Issue) => e.InvalidJurisdiction?
  const IsMoreInvalid: Issue -> bool := (e: Issue) => e.MoreInvalidJurisdictions?

  /** The structure and count errors are none of the three kinds counted below. */
  lemma FirstErrorsCount(d: Dataset, state: string)
    requires d.jurisdictions.Some?
    ensures var a := (if d.metadata.None? then [MissingMetadata] else []) + CountErrors(|d.jurisdictions.value|, state);
            CountKind(a, IsDuplicateReport) == 0 && CountKind(a, IsInvalidReport) == 0 && CountKind(a, IsMoreInvalid) == 0
  {
    var a: seq<Issue> := (if d.metadata.None? then [MissingMetadata] else []) + CountErrors(|d.jurisdictions.value|, state);
    assert forall k :: 0 <= k < |a| ==> a[k].MissingMetadata? || a[k].TooFewJurisdictions? || a[k].TooManyJurisdictions?;
    CountKindNone(a, IsDuplicateReport);
    CountKindNone(a, IsInvalidReport);
    CountKindNone(a, IsMoreInvalid);
  }

  /** All duplicates go into one error. */
  lemma DuplicateErrorsCount(js: seq<Record>)
    ensures var b := DuplicateErrors(js);
            CountKind(b, IsDuplicateReport) == (if KeysDistinct(js, DuplicateKey) then 0 else 1) &&
            CountKind(b, IsInvalidReport) == 0 && CountKind(b, IsMoreInvalid) == 0
  {
    DuplicatesEmpty(js, DuplicateKey, DuplicateLabel);
    var b := DuplicateErrors(js);
    if b != [] {
      CountKindSingle(b[0], IsDuplicateReport);
      CountKindSingle(b[0], IsInvalidReport);
      CountKindSingle(b[0], IsMoreInvalid);
    }
  }

  /** How the errors of the steps before the record loop count. */
  lemma EarlyErrorsCount(d: Dataset, state: string)
    requires d.jurisdictions.Some?
    ensures var js := d.jurisdictions.value;
            var early := (if d.metadata.None? then [MissingMetadata] else []) + CountErrors(|js|, state) + DuplicateErrors(js);
            CountKind(early, IsDuplicateReport) == (if KeysDistinct(js, DuplicateKey) then 0 else 1) &&
            CountKind(early, IsInvalidReport) == 0 &&
            CountKind(early, IsMoreInvalid) == 0
  {
    var js := d.jurisdictions.value;
    var a: seq<Issue> := (if d.metadata.None? then [MissingMetadata] else []) + CountErrors(|js|, state);
    var b := DuplicateErrors(js);
    FirstErrorsCount(d, state);
    DuplicateErrorsCount(js);
    CountKindAppend(a, b, IsDuplicateReport);
    CountKindAppend(a, b, IsInvalidReport);
    CountKindAppend(a, b, IsMoreInvalid);
  }

  /** How the errors of the record loop count. */
  lemma InvalidErrorsCount(js: seq<Record>, check: Record -> ValidationResult)
    ensures var n := |InvalidReports(js, check)|;
            var c := InvalidErrors(js, check);
            CountKind(c, IsDuplicateReport) == 0 &&
            CountKind(c, IsInvalidReport) == (if n <= ReportedInvalid then n else ReportedInvalid) &&
            CountKind(c, IsMoreInvalid) == (if n > ReportedInvalid then 1 else 0) &&
            (n > ReportedInvalid ==> MoreInvalidJurisdictions(n - ReportedInvalid) in c)
  {
    var rs := InvalidReports(js, check);
    var t := Take(rs, ReportedInvalid);
    var m: seq<Issue> := if |rs| > ReportedInvalid then [MoreInvalidJurisdictions(|rs| - ReportedInvalid)] else [];
    assert InvalidErrors(js, check) == t + m;
    CountKindAppend(t, m, IsDuplicateReport);
    CountKindAppend(t, m, IsInvalidReport);
    CountKindAppend(t, m, IsMoreInvalid);
    CountKindNone(t, IsDuplicateReport);
    CountKindAll(t, IsInvalidReport);
    CountKindNone(t, IsMoreInvalid);
    if m != [] {
      CountKindSingle(m[0], IsDuplicateReport);
      CountKindSingle(m[0], IsInvalidReport);
      CountKindSingle(m[0], IsMoreInvalid);
    }
  }

  /** How the dataset errors report duplicates and invalid records: one
      error for all duplicates, at most ten invalid-record lines, and one
      "and N more" line exactly when more than ten records are invalid. */
  lemma DatasetReportCounts(d: Dataset, state: string, check: Record -> ValidationResult)
    requires d.jurisdictions.Some?
    ensures var js := d.jurisdictions.value;
            var errors := DatasetErrors(d, state, check);
            var n := |InvalidReports(js, check)|;
            CountKind(errors, IsDuplicateReport) == (if KeysDistinct(js, DuplicateKey) then 0 else 1) &&
            CountKind(errors, IsInvalidReport) == (if n <= ReportedInvalid then n else ReportedInvalid) &&
            CountKind(errors, IsMoreInvalid) == (if n > ReportedInvalid then 1 else 0) &&
            (n > ReportedInvalid ==> MoreInvalidJurisdictions(n - ReportedInvalid) in errors)
  {
    var js := d.jurisdictions.value;
    var early := (if d.metadata.None? then [MissingMetadata] else []) + CountErrors(|js|, state) + DuplicateErrors(js);
    var c := InvalidErrors(js, check);
    assert DatasetErrors(d, state, check) == early + c;
    EarlyErrorsCount(d, state);
    InvalidErrorsCount(js, check);
    CountKindAppend(early, c, IsDuplicateReport);
    CountKindAppend(early, c, IsInvalidReport);
    CountKindAppend(early, c, IsMoreInvalid);
  }

  /** A record check whose errors are never of a warning kind and whose warnings always are. */
  predicate KindsSeparated(r: ValidationResult) {
    (forall e :: e in r.errors ==> !WarningKind(e)) && (forall w :: w in r.warnings ==> WarningKind(w))
  }

  lemma {:induction false} RecordWarningsKinds(js: seq<Record>, check: Record -> ValidationResult)
    requires forall k :: 0 <= k < |js| ==> KindsSeparated(check(js[k]))
    ensures forall w :: w in RecordWarningsOf(js, check) ==> WarningKind(w)
    decreases |js|
  {
    if js != [] {
      RecordWarningsKinds(js[..|js| - 1], check);
      assert KindsSeparated(check(js[|js| - 1]));
    }
  }

  /** When the record check keeps the kinds apart, so does the dataset
      check: the metadata count and the outlier step only ever add warnings. */
  lemma DatasetErrorKinds(d: Dataset, state: string, check: Record -> ValidationResult)
    ensures forall e :: e in DatasetErrors(d, state, check) ==> !WarningKind(e)
  {
    if d.jurisdictions.Some? {
      var js := d.jurisdictions.value;
      var a: seq<Issue> := if d.metadata.None? then [MissingMetadata] else [];
      var b, c, x := CountErrors(|js|, state), DuplicateErrors(js), InvalidErrors(js, check);
      CountErrorsKinds(|js|, state);
      InvalidErrorsKinds(js, check);
      assert forall e :: e in c ==> e.DuplicateJurisdictions?;
      assert DatasetErrors(d, state, check) == a + b + c + x;
      forall e | e in a + b + c + x ensures !WarningKind(e) {
        assert e in a || e in b || e in c || e in x;
      }
    }
  }

  lemma CountErrorsKinds(count: nat, state: string)
    ensures forall e :: e in CountErrors(count, state) ==> e.TooFewJurisdictions? || e.TooManyJurisdictions?
  {
  }

  lemma InvalidErrorsKinds(js: seq<Record>, check: Record -> ValidationResult)
    ensures forall e :: e in InvalidErrors(js, check) ==> e.InvalidJurisdiction? || e.MoreInvalidJurisdictions?
  {
    var rs := InvalidReports(js, check);
    assert forall e :: e in Take(rs, ReportedInvalid) ==> e.InvalidJurisdiction?;
  }

  lemma DatasetWarningKinds(d: Dataset, check: Record -> ValidationResult)
    requires d.jurisdictions.Some? ==> forall k :: 0 <= k < |d.jurisdictions.value| ==> KindsSeparated(check(d.jurisdictions.value[k]))
    ensures forall w :: w in DatasetWarnings(d, check) ==> WarningKind(w)
  {
    if d.jurisdictions.Some? {
      var js := d.jurisdictions.value;
      RecordWarningsKinds(js, check);
      var x, y, z := MismatchWarnings(d.metadata, |js|), RecordWarningsOf(js, check), OutlierWarnings(js);
      assert forall w :: w in x + y + z ==> w in x || w in y || w in z;
    }
  }

  /** When the record check keeps the kinds apart, so does the dataset
      check: the metadata count and the outlier step only ever add warnings. */
  lemma DatasetKinds(d: Dataset, state: string, check: Record -> ValidationResult)
    requires d.jurisdictions.Some? ==> forall k :: 0 <= k < |d.jurisdictions.value| ==> KindsSeparated(check(d.jurisdictions.value[k]))
    ensures KindsSeparated(CheckDataset(d, state, check))
  {
    DatasetErrorKinds(d, state, check);
    DatasetWarningKinds(d, check);
  }

  /** The validator proper keeps the kinds apart. */
  lemma ValidatorKinds(d: Dataset, state: string)
    ensures KindsSeparated(CheckDataset(d, state, CheckJurisdiction))
  {
    forall j | true ensures KindsSeparated(CheckJurisdiction(j)) {
      RecordKinds(j);
    }
    DatasetKinds(d, state, CheckJurisdiction);
  }

  // ---------------------------------------------------------------------------
  // validateDiff

  const ErrorSwingPercent := 20
  const WarnSwingPercent := 10
  const MassRemovalCount := 50
  const ManyRemovedCount := 20

  /** The distinct `location` values of the records. */
  function Locations(js: seq<Record>): set<Value> {
    set k | 0 <= k < |js| :: Get(js[k], "location")
  }

  /** The old locations missing from the new data. */
  function Removed(oldData: Dataset, newData: Dataset): set<Value> {
    Locations(Records(oldData)) - Locations(Records(newData))
  }

  /** `countChangePercent`: the count swing as a percentage of the old count, 0 when that is 0. */
  function CountChangePercent(oldCount: nat, newCount: nat): (r: real)
    ensures r >= 0.0
  {
    var diff := if newCount >= oldCount then newCount - oldCount else oldCount - newCount;
    if oldCount > 0 then (diff as real / oldCount as real) * 100.0 else 0.0
  }

  /** Step 1: more than 20% is an error, more than 10% a warning. */
  function SwingIssues(oldCount: nat, newCount: nat): (seq<Issue>, seq<Issue>) {
    var percent := CountChangePercent(oldCount, newCount);
    if percent > ErrorSwingPercent as real then ([LargeCountChange(oldCount, newCount)], [])
    else if percent > WarnSwingPercent as real then ([], [SignificantCountChange(oldCount, newCount)])
    else ([], [])
  }

  /** Step 2: a different `metadata.source` is a warning. */
  function SourceWarnings(oldSource: Value, newSource: Value): seq<Issue> {
    if !StrictEquals(oldSource, newSource) then [SourceChanged(oldSource, newSource)] else []
  }

  /** Step 3: more than 50 vanished locations is an error, more than 20 a warning. */
  function RemovalIssues(removed: nat): (seq<Issue>, seq<Issue>) {
    if removed > MassRemovalCount then ([MassRemoval(removed)], [])
    else if removed > ManyRemovedCount then ([], [ManyRemoved(removed)])
    else ([], [])
  }

  /** What `validateDiff(oldData, newData, state)` returns; a missing side is None. */
  function CheckDiff(oldData: Option<Dataset>, newData: Option<Dataset>): ValidationResult {
    if oldData.None? || newData.None? then ValidationResult(true, [], [])
    else
      var swing := SwingIssues(Count(oldData.value), Count(newData.value));
      var removal := RemovalIssues(|Removed(oldData.value, newData.value)|);
      var errors := swing.0 + removal.0;
      var warnings := swing.1 + SourceWarnings(Source(oldData.value), Source(newData.value)) + removal.1;
      ValidationResult(errors == [], errors, warnings)
  }

  /** `validateDiff(oldData, newData, state)`; the state argument is not consulted. */
  method ValidateDiff(oldData: Option<Dataset>, newData: Option<Dataset>) returns (r: ValidationResult)
    ensures r == CheckDiff(oldData, newData)
    ensures r.valid <==> r.errors == []
  {
    if oldData.None? || newData.None? {
      return ValidationResult(true, [], []);
    }
    var errors: seq<Issue> := [];
    var warnings: seq<Issue> := [];

    // 1: count swing
    var oldCount, newCount := Count(oldData.value), Count(newData.value);
    var percent := CountChangePercent(oldCount, newCount);
    if percent > ErrorSwingPercent as real {
      errors := [LargeCountChange(oldCount, newCount)];
    } else if percent > WarnSwingPercent as real {
      warnings := [SignificantCountChange(oldCount, newCount)];
    }
    assert (errors, warnings) == SwingIssues(oldCount, newCount);

    // 2: source change
    var oldSource, newSource := Source(oldData.value), Source(newData.value);
    if !StrictEquals(oldSource, newSource) {
      warnings := warnings + [SourceChanged(oldSource, newSource)];
    }

    // 3: mass removals
    var removed := |Removed(oldData.value, newData.value)|;
    var removal := RemovalIssues(removed);
    if removed > MassRemovalCount {
      errors := errors + [MassRemoval(removed)];
    } else if removed > ManyRemovedCount {
      warnings := warnings + [ManyRemoved(removed)];
    }
    assert errors == SwingIssues(oldCount, newCount).0 + removal.0;

    r := ValidationResult(|errors| == 0, errors, warnings);
  }

  /** The percentage thresholds are cross-multiplications on the counts. */
  lemma SwingThresholds(oldCount: nat, newCount: nat, limit: nat)
    ensures var diff := if newCount >= oldCount then newCount - oldCount else oldCount - newCount;
            CountChangePercent(oldCount, newCount) > limit as real <==> oldCount > 0 && diff * 100 > limit * oldCount
  {
    var diff := if newCount >= oldCount then newCount - oldCount else oldCount - newCount;
    if oldCount > 0 {
      var o, l := oldCount as real, limit as real;
      var p := (diff as real / o) * 100.0;
      assert p * o == diff as real * 100.0;
      if p > l {
        assert p * o > l * o;
      } else {
        assert p * o <= l * o;
      }
    }
  }

  /** The count swing: an error above 20% of the old count, else a warning
      above 10%, each stated on the counts themselves. */
  lemma SwingFindings(o: nat, n: nat)
    ensures var diff := if n >= o then n - o else o - n;
            var (errors, warnings) := SwingIssues(o, n);
            (errors != [] <==> o > 0 && diff * 100 > ErrorSwingPercent * o) &&
            (warnings != [] <==> o > 0 && diff * 100 > WarnSwingPercent * o && diff * 100 <= ErrorSwingPercent * o) &&
            errors + warnings != [SignificantCountChange(o, n), LargeCountChange(o, n)] &&
            |errors| + |warnings| <= 1
  {
    SwingThresholds(o, n, ErrorSwingPercent);
    SwingThresholds(o, n, WarnSwingPercent);
  }

  /** Vanished locations: an error above 50, else a warning above 20. */
  lemma RemovalFindings(removed: nat)
    ensures var (errors, warnings) := RemovalIssues(removed);
            (errors == [MassRemoval(removed)] <==> removed > MassRemovalCount) &&
            (warnings == [ManyRemoved(removed)] <==> ManyRemovedCount < removed <= MassRemovalCount) &&
            (errors == [] || warnings == [])
  {
  }

  /** A diff is valid exactly when a side is missing, or the count swing is
      at most 20% and at most 50 locations disappeared. */
  lemma DiffValidity(oldData: Option<Dataset>, newData: Option<Dataset>)
    ensures oldData.None? || newData.None? ==> CheckDiff(oldData, newData) == ValidationResult(true, [], [])
    ensures oldData.Some? && newData.Some? ==>
              var o, n := Count(oldData.value), Count(newData.value);
              var diff := if n >= o then n - o else o - n;
              (CheckDiff(oldData, newData).valid <==>
                 !(o > 0 && diff * 100 > ErrorSwingPercent * o) &&
                 |Removed(oldData.value, newData.value)| <= MassRemovalCount)
  {
    if oldData.Some? && newData.Some? {
      SwingFindings(Count(oldData.value), Count(newData.value));
      RemovalFindings(|Removed(oldData.value, newData.value)|);
    }
  }

  /** A change of `metadata.source` is reported exactly when the sources
      differ, and only ever as a warning. */
  lemma SourceChangeOnlyWarns(oldData: Dataset, newData: Dataset)
    ensures var s, t := Source(oldData), Source(newData);
            var r := CheckDiff(Some(oldData), Some(newData));
            (SourceChanged(s, t) in r.warnings <==> !StrictEquals(s, t)) &&
            (forall e :: e in r.errors ==> e.LargeCountChange? || e.MassRemoval?)
  {
    var s, t := Source(oldData), Source(newData);
    var swing := SwingIssues(Count(oldData), Count(newData));
    var removal := RemovalIssues(|Removed(oldData, newData)|);
    var r := CheckDiff(Some(oldData), Some(newData));
    assert r.errors == swing.0 + removal.0;
    assert r.warnings == swing.1 + SourceWarnings(s, t) + removal.1;
    assert forall e :: e in swing.0 ==> e.LargeCountChange?;
    assert forall e :: e in removal.0 ==> e.MassRemoval?;
    assert SourceChanged(s, t) !in swing.1;
    assert SourceChanged(s, t) !in removal.1;
  }

  /** Diffing a dataset against itself finds nothing (a source read from JSON is never NaN). */
  lemma DiffAgainstItself(d: Dataset)
    requires Source(d) != Num(NaN)
    ensures CheckDiff(Some(d), Some(d)) == ValidationResult(true, [], [])
  {
    assert Removed(d, d) == {};
  }
}
