/** The pre-commit gate of `scripts/auto-update/validate-staged.ts`: every
    staged data file is validated as a dataset and, when a committed version
    exists, against it; the totals decide the exit code.  The record
    validator is a parameter `check`; the gate proper uses
    `Validation.CheckJurisdiction`.  `staged` and `committed` hold the files
    that parse; `committedNames` are the committed files that exist, so a
    name in it but not in `committed` is a file `JSON.parse` throws on. */
module StagedGate {
  import opened Wrappers
  import opened Json
  import opened Validation
  import opened DatasetValidation
  import opened StagedFiles

  const ExitSuccess := 0
  const ExitValidationFailed := 1
  const ExitNeedsReview := 2

  /** Both the per-state and the overall impact threshold, in percent. */
  const ImpactPercent := 5
  /** More warnings than this send the data to review. */
  const WarningLimit := 10

  /** The running totals of `main`. */
  datatype Totals = Totals(errors: nat, warnings: nat, affected: nat, baseline: nat)

  function Add(a: Totals, b: Totals): Totals {
    Totals(a.errors + b.errors, a.warnings + b.warnings, a.affected + b.affected, a.baseline + b.baseline)
  }

  /** `|newCount - oldCount|`. */
  function CountDelta(oldCount: nat, newCount: nat): nat {
    if newCount >= oldCount then newCount - oldCount else oldCount - newCount
  }

  /** What one staged file adds to the totals: its dataset findings and, when
      a committed version exists, its diff findings, the change in its
      jurisdiction count, that version's count, and one more warning when the
      change exceeds 5% of it. */
  function FileTotals(state: string, stagedData: Dataset, currentData: Option<Dataset>,
                      check: Record -> ValidationResult): Totals
  {
    var dv := CheckDataset(stagedData, state, check);
    var own := Totals(if dv.valid then 0 else |dv.errors|, |dv.warnings|, 0, 0);
    if currentData.None? then own
    else
      var dd := CheckDiff(currentData, Some(stagedData));
      var oldCount, newCount := Count(currentData.value), Count(stagedData);
      var large := Percent(CountDelta(oldCount, newCount), oldCount) > ImpactPercent as real;
      Add(own, Totals(if dd.valid then 0 else |dd.errors|, |dd.warnings| + (if large then 1 else 0),
                      CountDelta(oldCount, newCount), oldCount))
  }

  /** `fs.existsSync(currentPath) ? JSON.parse(...) : null` for a file
      that parses or does not exist. */
  function Current(f: string, committedNames: set<string>, committed: map<string, Dataset>): Option<Dataset> {
    if f in committedNames then Load(committed, f) else None
  }

  /** Both reads of the loop succeed for `f`: the staged file parses, and so
      does its committed version when it exists. */
  predicate Parses(f: string, staged: map<string, Dataset>, committedNames: set<string>, committed: map<string, Dataset>) {
    f in staged && (f in committedNames ==> f in committed)
  }

  /** What each staged file adds, for the files that parsed. */
  function PerFile(staged: map<string, Dataset>, committedNames: set<string>, committed: map<string, Dataset>,
                   check: Record -> ValidationResult): string -> Totals
  {
    f => if f in staged then FileTotals(StateOf(f), staged[f], Current(f, committedNames, committed), check)
         else Totals(0, 0, 0, 0)
  }

  /** The totals over `files`, added up in order. */
  function SumTotals(files: seq<string>, per: string -> Totals): Totals
    decreases |files|
  {
    if files == [] then Totals(0, 0, 0, 0)
    else Add(SumTotals(files[..|files| - 1], per), per(files[|files| - 1]))
  }

  /** The decision at the end of `main`: an overall impact above 5% asks for
      review first, then any error fails, then more than ten warnings ask for
      review. */
  function Decide(t: Totals): int {
    if t.baseline > 0 && Percent(t.affected, t.baseline) > ImpactPercent as real then ExitNeedsReview
    else if t.errors > 0 then ExitValidationFailed
    else if t.warnings > WarningLimit then ExitNeedsReview
    else ExitSuccess
  }

  /** The exit code of `main`.  `listing` is None when there is no staged
      directory; when a staged data file or its existing committed version
      does not parse, the uncaught exception ends the process with 1. */
  function GateSpec(listing: Option<seq<string>>, staged: map<string, Dataset>, committedNames: set<string>,
                    committed: map<string, Dataset>, check: Record -> ValidationResult): int
  {
    if listing.None? then ExitSuccess
    else
      var files := DataFiles(listing.value);
      if files == [] then ExitSuccess
      else if exists f :: f in files && !Parses(f, staged, committedNames, committed) then ExitValidationFailed
      else Decide(SumTotals(files, PerFile(staged, committedNames, committed, check)))
  }

  lemma SumStep(files: seq<string>, i: nat, per: string -> Totals)
    requires i < |files|
    ensures SumTotals(files[..i + 1], per) == Add(SumTotals(files[..i], per), per(files[i]))
  {
    assert files[..i + 1][..i] == files[..i];
  }

  /** The body of the loop of `main`: validate one staged file, and compare
      it with its committed version when there is one. */
  method ValidateFile(state: string, stagedData: Dataset, currentData: Option<Dataset>,
                      check: Record -> ValidationResult) returns (t: Totals)
    ensures t == FileTotals(state, stagedData, currentData, check)
  {
    var datasetValidation := ValidateDataset(stagedData, state, check);
    var errors := if !datasetValidation.valid then |datasetValidation.errors| else 0;
    var warnings := |datasetValidation.warnings|;
    if currentData.None? {
      return Totals(errors, warnings, 0, 0);
    }
    var diffValidation := ValidateDiff(currentData, Some(stagedData));
    var diffErrors := if !diffValidation.valid then |diffValidation.errors| else 0;
    var diffWarnings := |diffValidation.warnings|;
    var oldCount, newCount := Count(currentData.value), Count(stagedData);
    var changed := CountDelta(oldCount, newCount);
    if Percent(changed, oldCount) > ImpactPercent as real {
      diffWarnings := diffWarnings + 1;
    }
    t := Add(Totals(errors, warnings, 0, 0), Totals(diffErrors, diffWarnings, changed, oldCount));
  }

  lemma PerFileAt(staged: map<string, Dataset>, committedNames: set<string>, committed: map<string, Dataset>,
                  check: Record -> ValidationResult, f: string)
    requires f in staged
    ensures PerFile(staged, committedNames, committed, check)(f) ==
            FileTotals(StateOf(f), staged[f], Current(f, committedNames, committed), check)
  {
  }

  /** Every file of `files` parses, checked from the front. */
  predicate AllParse(files: seq<string>, staged: map<string, Dataset>, committedNames: set<string>,
                     committed: map<string, Dataset>)
    decreases |files|
  {
    files == [] ||
    (AllParse(files[..|files| - 1], staged, committedNames, committed) &&
     Parses(files[|files| - 1], staged, committedNames, committed))
  }

  lemma AllParseStep(files: seq<string>, i: nat, staged: map<string, Dataset>,
                     committedNames: set<string>, committed: map<string, Dataset>)
    requires i < |files|
    ensures AllParse(files[..i + 1], staged, committedNames, committed) <==>
            AllParse(files[..i], staged, committedNames, committed) && Parses(files[i], staged, committedNames, committed)
  {
    assert files[..i + 1][..i] == files[..i];
  }

  lemma {:induction false} AllParseMeaning(files: seq<string>, staged: map<string, Dataset>,
                                           committedNames: set<string>, committed: map<string, Dataset>)
    ensures AllParse(files, staged, committedNames, committed) <==>
            forall f :: f in files ==> f in staged && (f in committedNames ==> f in committed)
    decreases |files|
  {
    if files != [] {
      var init := files[..|files| - 1];
      AllParseMeaning(init, staged, committedNames, committed);
      assert files == init + [files[|files| - 1]];
    }
  }

  /** One staged file that parsed, checked as the loop of `main` does. */
  method ValidateStagedFile(file: string, staged: map<string, Dataset>, committedNames: set<string>,
                            committed: map<string, Dataset>, check: Record -> ValidationResult) returns (t: Totals)
    requires file in staged
    ensures t == PerFile(staged, committedNames, committed, check)(file)
  {
    PerFileAt(staged, committedNames, committed, check, file);
    var currentData := if file in committedNames then Load(committed, file) else None;
    t := ValidateFile(StateOf(file), staged[file], currentData, check);
  }

  /** The loop of `main`; it stops, with `parsed` false, at the first file
      whose staged or existing committed version does not parse. */
  method Tally(files: seq<string>, staged: map<string, Dataset>, committedNames: set<string>,
               committed: map<string, Dataset>, check: Record -> ValidationResult) returns (parsed: bool, totals: Totals)
    ensures parsed <==> forall f :: f in files ==> f in staged && (f in committedNames ==> f in committed)
    ensures parsed ==> totals == SumTotals(files, PerFile(staged, committedNames, committed, check))
  {
    var per := PerFile(staged, committedNames, committed, check);
    totals := Totals(0, 0, 0, 0);
    for i := 0 to |files|
      invariant AllParse(files[..i], staged, committedNames, committed)
      invariant totals == SumTotals(files[..i], per)
    {
      var file := files[i];
      if file !in staged || (file in committedNames && file !in committed) {
        AllParseMeaning(files, staged, committedNames, committed);
        assert file in files;
        return false, totals;
      }
      SumStep(files, i, per);
      AllParseStep(files, i, staged, committedNames, committed);
      var t := ValidateStagedFile(file, staged, committedNames, committed, check);
      totals := Add(totals, t);
    }
    assert files[..|files|] == files;
    AllParseMeaning(files, staged, committedNames, committed);
    parsed := true;
  }

  /** `main` of `validate-staged.ts`, from the directory listing to the exit code. */
  method PreCommit(listing: Option<seq<string>>, staged: map<string, Dataset>, committedNames: set<string>,
                   committed: map<string, Dataset>, check: Record -> ValidationResult) returns (exitCode: int)
    ensures exitCode == GateSpec(listing, staged, committedNames, committed, check)
  {
    if listing.None? {
      return ExitSuccess;
    }
    var files := DataFiles(listing.value);
    if |files| == 0 {
      return ExitSuccess;
    }
    var parsed, totals := Tally(files, staged, committedNames, committed, check);
    if !parsed {
      return ExitValidationFailed;
    }
    exitCode := Decide(totals);
  }

  // ---------------------------------------------------------------------------
  // Properties of the gate

  /** The decision stated on the counts: the overall threshold is a
      cross-multiplication, and it overrides errors. */
  lemma DecisionRule(t: Totals)
    ensures var large := t.baseline > 0 && t.affected * 100 > ImpactPercent * t.baseline;
            (Decide(t) == ExitNeedsReview <==> large || (t.errors == 0 && t.warnings > WarningLimit)) &&
            (Decide(t) == ExitValidationFailed <==> !large && t.errors > 0) &&
            (Decide(t) == ExitSuccess <==> !large && t.errors == 0 && t.warnings <= WarningLimit)
  {
    PercentAbove(t.affected, t.baseline, ImpactPercent);
  }

  /** A file's own errors are counted exactly when its dataset fails, and its
      diff counts only against a committed version. */
  lemma FileTotalsRule(state: string, stagedData: Dataset, currentData: Option<Dataset>,
                       check: Record -> ValidationResult)
    ensures var t := FileTotals(state, stagedData, currentData, check);
            (t.errors == 0 <==> CheckDataset(stagedData, state, check).valid &&
                                 (currentData.Some? ==> CheckDiff(currentData, Some(stagedData)).valid)) &&
            (currentData.None? ==> t.affected == 0 && t.baseline == 0) &&
            (currentData.Some? ==> t.baseline == Count(currentData.value) &&
                                   t.affected == CountDelta(Count(currentData.value), Count(stagedData)))
  {
  }

  /** No errors in the totals means no file had any. */
  lemma {:induction false} NoErrorsAnywhere(files: seq<string>, per: string -> Totals)
    ensures SumTotals(files, per).errors == 0 <==> forall f :: f in files ==> per(f).errors == 0
    decreases |files|
  {
    if files != [] {
      var pre := files[..|files| - 1];
      NoErrorsAnywhere(pre, per);
      assert files == pre + [files[|files| - 1]];
    }
  }

  /** The gate lets data through only when every staged data file parsed, is
      a valid dataset, and has a committed version that, when it exists,
      parses and passes the diff. */
  lemma GatePassMeansValid(listing: Option<seq<string>>, staged: map<string, Dataset>, committedNames: set<string>,
                           committed: map<string, Dataset>, check: Record -> ValidationResult, f: string)
    requires GateSpec(listing, staged, committedNames, committed, check) == ExitSuccess
    requires listing.Some? && f in DataFiles(listing.value)
    ensures f in staged
    ensures CheckDataset(staged[f], StateOf(f), check).valid
    ensures f in committedNames ==> f in committed && CheckDiff(Some(committed[f]), Some(staged[f])).valid
  {
    var files := DataFiles(listing.value);
    var t := SumTotals(files, PerFile(staged, committedNames, committed, check));
    DecisionRule(t);
    NoErrorsAnywhere(files, PerFile(staged, committedNames, committed, check));
    FileTotalsRule(StateOf(f), staged[f], Current(f, committedNames, committed), check);
  }

  /** A committed data file that exists but does not parse fails the gate. */
  lemma CorruptCommittedFails(listing: Option<seq<string>>, staged: map<string, Dataset>, committedNames: set<string>,
                              committed: map<string, Dataset>, check: Record -> ValidationResult, f: string)
    requires listing.Some? && f in DataFiles(listing.value)
    requires f in committedNames && f !in committed
    ensures GateSpec(listing, staged, committedNames, committed, check) == ExitValidationFailed
  {
  }

  /** With the real record validator: what passes the gate has, in every
      staged file, metadata, a count within bounds, distinct keys and only
      valid records. */
  lemma GatePassMeansValidRecords(listing: Option<seq<string>>, staged: map<string, Dataset>,
                                  committedNames: set<string>, committed: map<string, Dataset>, f: string)
    requires GateSpec(listing, staged, committedNames, committed, CheckJurisdiction) == ExitSuccess
    requires listing.Some? && f in DataFiles(listing.value)
    ensures f in staged && staged[f].metadata.Some? && staged[f].jurisdictions.Some?
    ensures var js := staged[f].jurisdictions.value;
            MinJurisdictions(StateOf(f)) <= |js| <= MaxJurisdictions &&
            KeysDistinct(js, DuplicateKey) &&
            forall k :: 0 <= k < |js| ==> CheckJurisdiction(js[k]).valid
  {
    GatePassMeansValid(listing, staged, committedNames, committed, CheckJurisdiction, f);
    var d := staged[f];
    if d.jurisdictions.None? {
      MissingArrayShortCircuits(d, StateOf(f), CheckJurisdiction);
    }
    DatasetValidity(d, StateOf(f), CheckJurisdiction);
  }

  /** A passing gate also means the overall count change stayed within 5% of
      the committed count, when there was one to compare with. */
  lemma GatePassMeansSmallImpact(listing: Option<seq<string>>, staged: map<string, Dataset>, committedNames: set<string>,
                                 committed: map<string, Dataset>, check: Record -> ValidationResult)
    requires listing.Some? && DataFiles(listing.value) != []
    requires forall f :: f in DataFiles(listing.value) ==> Parses(f, staged, committedNames, committed)
    ensures var t := SumTotals(DataFiles(listing.value), PerFile(staged, committedNames, committed, check));
            GateSpec(listing, staged, committedNames, committed, check) == ExitSuccess && t.baseline > 0 ==>
              t.affected * 100 <= ImpactPercent * t.baseline
  {
    var t := SumTotals(DataFiles(listing.value), PerFile(staged, committedNames, committed, check));
    assert GateSpec(listing, staged, committedNames, committed, check) == Decide(t);
    DecisionRule(t);
  }

  /** Only states with a committed version contribute to the impact: the
      baseline is the sum of their committed counts. */
  lemma {:induction false} BaselineIsCommittedCount(files: seq<string>, staged: map<string, Dataset>,
                                                    committedNames: set<string>, committed: map<string, Dataset>,
                                                    check: Record -> ValidationResult)
    requires forall f :: f in files ==> f in staged
    ensures SumTotals(files, PerFile(staged, committedNames, committed, check)).baseline ==
            CommittedCount(files, committedNames, committed)
    decreases |files|
  {
    if files != [] {
      BaselineIsCommittedCount(files[..|files| - 1], staged, committedNames, committed, check);
      assert files[|files| - 1] in files;
    }
  }

  /** The jurisdiction counts of the committed versions of `files` that exist and parse. */
  function CommittedCount(files: seq<string>, committedNames: set<string>, committed: map<string, Dataset>): nat
    decreases |files|
  {
    if files == [] then 0
    else
      var f := files[|files| - 1];
      CommittedCount(files[..|files| - 1], committedNames, committed) +
      (if f in committedNames && f in committed then Count(committed[f]) else 0)
  }
}
