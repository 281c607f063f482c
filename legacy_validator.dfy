/** `validateData` of `scripts/update-tax-rates.ts`, the older California
    update script's check of a parsed CDTFA table: a row count, required
    cells, a rate band and repeated rows, every row checked. */
module LegacyValidator {
  import opened Strings
  import opened Numbers
  import opened Csv

  /** At least this many rows are expected. */
  const MinRows := 500
  const MinRate := 0.07
  const MaxRate := 0.15

  /** The findings, by kind; rows are numbered from 1. */
  datatype LegacyError =
    | TooFewRows(found: nat)
    | MissingFields(row: nat)
    | InvalidRate(row: nat)
    | RateOutOfRange(row: nat, rate: Number)
    | DuplicateRow(row: nat, location: string)

  datatype LegacyResult = LegacyResult(valid: bool, errors: seq<LegacyError>)

  /** `!row.Location || !row.Rate || !row.County || !row.Type`. */
  predicate MissesField(row: map<string, string>) {
    FieldOf(row, "Location") == "" || FieldOf(row, "Rate") == "" ||
    FieldOf(row, "County") == "" || FieldOf(row, "Type") == ""
  }

  /** A cell as a template literal writes it: a missing one is "undefined". */
  function KeyPart(row: map<string, string>, name: string): string {
    if name in row then row[name] else "undefined"
  }

  /** `${row.Location}|${row.County}|${row.Type}`. */
  function RowKey(row: map<string, string>): string {
    KeyPart(row, "Location") + "|" + KeyPart(row, "County") + "|" + KeyPart(row, "Type")
  }

  /** `parseFloat(row.Rate)`: NaN when the column is missing. */
  function RateOf(row: map<string, string>): Number {
    ParseFloat(FieldOf(row, "Rate"))
  }

  /** The parsed rate of every row. */
  function Rates(data: seq<map<string, string>>): (r: seq<Number>)
    ensures |r| == |data|
    decreases |data|
  {
    if data == [] then [] else Rates(data[..|data| - 1]) + [RateOf(data[|data| - 1])]
  }

  /** The findings of the first `forEach` for the row numbered `n`, whose
      rate parses to `rate`. */
  function RowErrors(row: map<string, string>, rate: Number, n: nat): seq<LegacyError> {
    (if MissesField(row) then [MissingFields(n)] else []) +
    (if rate.NaN? then [InvalidRate(n)]
     else if Less(rate, Finite(MinRate)) || Above(rate, MaxRate) then [RateOutOfRange(n, rate)]
     else [])
  }

  /** The findings of the first `forEach` over the rows, given their rates. */
  function FieldErrors(data: seq<map<string, string>>, rates: seq<Number>): seq<LegacyError>
    requires |rates| == |data|
    decreases |data|
  {
    if data == [] then []
    else
      var n := |data| - 1;
      FieldErrors(data[..n], rates[..n]) + RowErrors(data[n], rates[n], |data|)
  }

  /** The keys of the rows. */
  function KeysOf(data: seq<map<string, string>>): set<string>
    decreases |data|
  {
    if data == [] then {} else KeysOf(data[..|data| - 1]) + {RowKey(data[|data| - 1])}
  }

  /** The findings of the second `forEach`: one per row whose key an earlier
      row already had. */
  function DuplicateErrors(data: seq<map<string, string>>): seq<LegacyError>
    decreases |data|
  {
    if data == [] then []
    else
      var init, row := data[..|data| - 1], data[|data| - 1];
      DuplicateErrors(init) +
      (if RowKey(row) in KeysOf(init) then [DuplicateRow(|data|, KeyPart(row, "Location"))] else [])
  }

  /** The result of `validateData` for rows whose rates parse to `rates`. */
  function Check(data: seq<map<string, string>>, rates: seq<Number>): LegacyResult
    requires |rates| == |data|
  {
    var errors := (if |data| < MinRows then [TooFewRows(|data|)] else []) +
                  FieldErrors(data, rates) + DuplicateErrors(data);
    LegacyResult(errors == [], errors)
  }

  /** `validateData`. */
  function ValidateData(data: seq<map<string, string>>): LegacyResult {
    Check(data, Rates(data))
  }

  /** The findings for the row numbered `n`, whose rate parses to `rate`. */
  method RowFindings(row: map<string, string>, rate: Number, n: nat) returns (found: seq<LegacyError>)
    ensures found == RowErrors(row, rate, n)
  {
    found := [];
    if MissesField(row) {
      found := found + [MissingFields(n)];
    }
    if rate.NaN? {
      found := found + [InvalidRate(n)];
    } else if Less(rate, Finite(MinRate)) || Above(rate, MaxRate) {
      found := found + [RateOutOfRange(n, rate)];
    }
  }

  /** The first loop of `validateData`: the findings of each row in turn. */
  method FieldFindings(data: seq<map<string, string>>) returns (errors: seq<LegacyError>)
    ensures errors == FieldErrors(data, Rates(data))
  {
    errors := [];
    for i := 0 to |data|
      invariant errors == FieldErrors(data[..i], Rates(data[..i]))
    {
      assert data[..i + 1][..i] == data[..i];
      var rate := RateOf(data[i]);
      var found := RowFindings(data[i], rate, i + 1);
      errors := errors + found;
    }
    assert data[..|data|] == data;
  }

  /** The second loop of `validateData`: a finding for each row whose key
      was already seen. */
  method DuplicateFindings(data: seq<map<string, string>>) returns (errors: seq<LegacyError>)
    ensures errors == DuplicateErrors(data)
  {
    errors := [];
    var locations: set<string> := {};
    for i := 0 to |data|
      invariant locations == KeysOf(data[..i])
      invariant errors == DuplicateErrors(data[..i])
    {
      assert data[..i + 1][..i] == data[..i];
      var key := RowKey(data[i]);
      if key in locations {
        errors := errors + [DuplicateRow(i + 1, KeyPart(data[i], "Location"))];
      }
      locations := locations + {key};
    }
    assert data[..|data|] == data;
  }

  /** `validateData`: the count check, then the two loops. */
  method Validate(data: seq<map<string, string>>) returns (result: LegacyResult)
    ensures result == ValidateData(data)
  {
    var errors: seq<LegacyError> := [];
    if |data| < MinRows {
      errors := [TooFewRows(|data|)];
    }
    var fieldErrors := FieldFindings(data);
    var duplicateErrors := DuplicateFindings(data);
    errors := errors + fieldErrors + duplicateErrors;
    result := LegacyResult(errors == [], errors);
  }

  // ---------------------------------------------------------------------------
  // Properties

  /** The row, whose rate parses to `rate`, is acceptable to the first loop. */
  predicate RowAcceptable(row: map<string, string>, rate: Number) {
    !MissesField(row) && rate.Finite? && MinRate <= rate.x <= MaxRate
  }

  lemma RowErrorsEmpty(row: map<string, string>, rate: Number, n: nat)
    ensures RowErrors(row, rate, n) == [] <==> RowAcceptable(row, rate)
  {
  }

  /** A finding of some row is reported by the first loop. */
  lemma {:induction false} FieldErrorsHas(data: seq<map<string, string>>, rates: seq<Number>, k: int, e: LegacyError)
    requires |rates| == |data| && 0 <= k < |data|
    requires e in RowErrors(data[k], rates[k], k + 1)
    ensures e in FieldErrors(data, rates)
    decreases |data|
  {
    var n := |data| - 1;
    if k < n {
      var init, initRates := data[..n], rates[..n];
      assert init[k] == data[k] && initRates[k] == rates[k];
      FieldErrorsHas(init, initRates, k, e);
    }
  }

  /** Every finding of the first loop is a finding of some row. */
  lemma {:induction false} FieldErrorsFrom(data: seq<map<string, string>>, rates: seq<Number>, e: LegacyError)
    requires |rates| == |data|
    requires e in FieldErrors(data, rates)
    ensures exists k :: 0 <= k < |data| && e in RowErrors(data[k], rates[k], k + 1)
    decreases |data|
  {
    var n := |data| - 1;
    var init, initRates := data[..n], rates[..n];
    if e in FieldErrors(init, initRates) {
      FieldErrorsFrom(init, initRates, e);
      var k :| 0 <= k < n && e in RowErrors(init[k], initRates[k], k + 1);
      assert init[k] == data[k] && initRates[k] == rates[k];
    } else {
      assert e in RowErrors(data[n], rates[n], n + 1);
    }
  }

  /** The first loop reports exactly the findings of each row, so no row is
      skipped. */
  lemma FieldErrorsMeaning(data: seq<map<string, string>>, rates: seq<Number>, e: LegacyError)
    requires |rates| == |data|
    ensures e in FieldErrors(data, rates) <==> exists k :: 0 <= k < |data| && e in RowErrors(data[k], rates[k], k + 1)
  {
    if e in FieldErrors(data, rates) {
      FieldErrorsFrom(data, rates, e);
    }
    forall k | 0 <= k < |data| && e in RowErrors(data[k], rates[k], k + 1) {
      FieldErrorsHas(data, rates, k, e);
    }
  }

  /** Some earlier row has the same key as row `k`. */
  predicate Repeats(data: seq<map<string, string>>, k: int)
    requires 0 <= k < |data|
  {
    exists j :: 0 <= j < k && RowKey(data[j]) == RowKey(data[k])
  }

  /** Each row's key is among the rows' keys. */
  lemma {:induction false} KeysOfHas(data: seq<map<string, string>>, k: int)
    requires 0 <= k < |data|
    ensures RowKey(data[k]) in KeysOf(data)
    decreases |data|
  {
    var n := |data| - 1;
    if k < n {
      var init := data[..n];
      assert init[k] == data[k];
      KeysOfHas(init, k);
    }
  }

  /** Each of the rows' keys is some row's key. */
  lemma {:induction false} KeysOfFrom(data: seq<map<string, string>>, key: string)
    requires key in KeysOf(data)
    ensures exists k :: 0 <= k < |data| && RowKey(data[k]) == key
    decreases |data|
  {
    var n := |data| - 1;
    var init := data[..n];
    if key in KeysOf(init) {
      KeysOfFrom(init, key);
      var k :| 0 <= k < n && RowKey(init[k]) == key;
      assert init[k] == data[k];
    } else {
      assert RowKey(data[n]) == key;
    }
  }

  /** A key is among the rows' keys exactly when some row has it. */
  lemma KeysOfMeaning(data: seq<map<string, string>>, key: string)
    ensures key in KeysOf(data) <==> exists k :: 0 <= k < |data| && RowKey(data[k]) == key
  {
    if key in KeysOf(data) {
      KeysOfFrom(data, key);
    }
    forall k | 0 <= k < |data| && RowKey(data[k]) == key {
      KeysOfHas(data, k);
    }
  }

  /** A row that repeats an earlier row's key is reported. */
  lemma {:induction false} DuplicateErrorsHas(data: seq<map<string, string>>, k: int)
    requires 0 <= k < |data| && Repeats(data, k)
    ensures DuplicateRow(k + 1, KeyPart(data[k], "Location")) in DuplicateErrors(data)
    decreases |data|
  {
    var n := |data| - 1;
    var init := data[..n];
    var j :| 0 <= j < k && RowKey(data[j]) == RowKey(data[k]);
    assert init[j] == data[j];
    if k < n {
      assert init[k] == data[k];
      assert Repeats(init, k);
      DuplicateErrorsHas(init, k);
    } else {
      KeysOfHas(init, j);
    }
  }

  /** Every duplicate finding is of a row that repeats an earlier key. */
  lemma {:induction false} DuplicateErrorsFrom(data: seq<map<string, string>>, e: LegacyError)
    requires e in DuplicateErrors(data)
    ensures exists k :: 0 <= k < |data| && Repeats(data, k) && e == DuplicateRow(k + 1, KeyPart(data[k], "Location"))
    decreases |data|
  {
    var n := |data| - 1;
    var init := data[..n];
    if e in DuplicateErrors(init) {
      DuplicateErrorsFrom(init, e);
      var k :| 0 <= k < n && Repeats(init, k) && e == DuplicateRow(k + 1, KeyPart(init[k], "Location"));
      var j :| 0 <= j < k && RowKey(init[j]) == RowKey(init[k]);
      assert init[j] == data[j] && init[k] == data[k];
      assert Repeats(data, k);
    } else {
      KeysOfFrom(init, RowKey(data[n]));
      var j :| 0 <= j < n && RowKey(init[j]) == RowKey(data[n]);
      assert init[j] == data[j];
      assert Repeats(data, n);
    }
  }

  /** The second loop reports each row that repeats an earlier row's key,
      once, and nothing else. */
  lemma DuplicateErrorsMeaning(data: seq<map<string, string>>, e: LegacyError)
    ensures e in DuplicateErrors(data) <==>
              exists k :: 0 <= k < |data| && Repeats(data, k) && e == DuplicateRow(k + 1, KeyPart(data[k], "Location"))
  {
    if e in DuplicateErrors(data) {
      DuplicateErrorsFrom(data, e);
    }
    forall k | 0 <= k < |data| && Repeats(data, k) && e == DuplicateRow(k + 1, KeyPart(data[k], "Location")) {
      DuplicateErrorsHas(data, k);
    }
  }

  /** There are as many duplicate findings as rows beyond the distinct keys. */
  lemma {:induction false} DuplicateCount(data: seq<map<string, string>>)
    ensures |DuplicateErrors(data)| == |data| - |KeysOf(data)|
    decreases |data|
  {
    if data != [] {
      var init, row := data[..|data| - 1], data[|data| - 1];
      DuplicateCount(init);
      if RowKey(row) in KeysOf(init) {
        assert KeysOf(data) == KeysOf(init);
      } else {
        assert |KeysOf(data)| == |KeysOf(init)| + 1;
      }
    }
  }

  /** The count finding is reported once, first, exactly when there are
      fewer than 500 rows. */
  lemma CountError(data: seq<map<string, string>>, rates: seq<Number>)
    requires |rates| == |data|
    ensures |data| < MinRows ==> Check(data, rates).errors[0] == TooFewRows(|data|)
    ensures forall n :: TooFewRows(n) in Check(data, rates).errors <==> |data| < MinRows && n == |data|
  {
    forall n ensures TooFewRows(n) !in FieldErrors(data, rates) && TooFewRows(n) !in DuplicateErrors(data) {
      FieldErrorsMeaning(data, rates, TooFewRows(n));
      DuplicateErrorsMeaning(data, TooFewRows(n));
    }
  }

  /** The first loop finds nothing exactly when every row is acceptable. */
  lemma FieldErrorsEmpty(data: seq<map<string, string>>, rates: seq<Number>)
    requires |rates| == |data|
    ensures FieldErrors(data, rates) == [] <==> forall k :: 0 <= k < |data| ==> RowAcceptable(data[k], rates[k])
  {
    if FieldErrors(data, rates) != [] {
      FieldErrorsFrom(data, rates, FieldErrors(data, rates)[0]);
    } else {
      forall k | 0 <= k < |data|
        ensures RowAcceptable(data[k], rates[k])
      {
        RowErrorsEmpty(data[k], rates[k], k + 1);
        if RowErrors(data[k], rates[k], k + 1) != [] {
          FieldErrorsHas(data, rates, k, RowErrors(data[k], rates[k], k + 1)[0]);
        }
      }
    }
  }

  /** The second loop finds nothing exactly when the rows' keys are distinct. */
  lemma DuplicateErrorsEmpty(data: seq<map<string, string>>)
    ensures DuplicateErrors(data) == [] <==> forall i, j :: 0 <= i < j < |data| ==> RowKey(data[i]) != RowKey(data[j])
  {
    if DuplicateErrors(data) != [] {
      DuplicateErrorsFrom(data, DuplicateErrors(data)[0]);
    } else {
      forall i, j | 0 <= i < j < |data|
        ensures RowKey(data[i]) != RowKey(data[j])
      {
        if RowKey(data[i]) == RowKey(data[j]) {
          assert Repeats(data, j);
          DuplicateErrorsHas(data, j);
        }
      }
    }
  }

  /** The table is valid exactly when it has at least 500 rows, every row
      has its four cells and a rate in [0.07, 0.15], and no two rows share a
      key; `rates` are the rows' parsed rates. */
  lemma ValidIff(data: seq<map<string, string>>, rates: seq<Number>)
    requires |rates| == |data|
    ensures Check(data, rates).valid <==>
              |data| >= MinRows &&
              (forall k :: 0 <= k < |data| ==> RowAcceptable(data[k], rates[k])) &&
              (forall i, j :: 0 <= i < j < |data| ==> RowKey(data[i]) != RowKey(data[j]))
  {
    FieldErrorsEmpty(data, rates);
    DuplicateErrorsEmpty(data);
  }
}
