# taxrates-us — a Dafny model of the rate data pipeline and resolver

`taxrates-us` looks up US sales-tax rates from bundled reference data. The data is kept fresh by an update pipeline with four stages:

- **Scrape.** Download the CDTFA table, normalise each row into a jurisdiction record, validate it, and stage the dataset.
- **Diff.** Compare the staged datasets with the committed ones and decide between auto-deploy and review.
- **Gate.** Validate the staged files again and apply a 5% impact ceiling.
- **Apply.** Copy the changed files and prepend a changelog entry.

Three other parts are modelled as well:

- the lookup-index builder that turns the CDTFA CSV into `ca-tax-rates.json`;
- the ZIP-rate compaction that turns Avalara CSV exports into per-ZIP entries;
- the older `validateData` check of `update-tax-rates.ts`.

The serving side is modelled too:

- the resolver `getTaxRate`, with `getSupportedStates` and `getMetadata`;
- the in-memory per-address rate limiter of the HTTP API.

The modules follow the files:

| module | file | models |
|---|---|---|
| `Json`, `Numbers`, `Strings`, `Wrappers` | — | JavaScript values, numbers (NaN, ±Infinity, finite), strings and the built-ins the code calls (`parseFloat`, `Number()`, `Math.round`, `toFixed`, `trim`, `split`, `toLowerCase`, …) |
| `Regex` | — | the regular-expression subset the validator's catalogue uses, with an exact backtracking matcher for `RegExp.prototype.test` |
| `Csv` | `parse-csv.ts`, `update-tax-rates.ts`, `scrape-rates.ts` | the quote-aware line splitter and the row objects shared by the three `parseCSV` copies |
| `Validation` | `validate-jurisdiction.ts` | `validateJurisdiction` |
| `DatasetValidation` | `validate-jurisdiction.ts` | `validateDataset`, `validateDiff` |
| `Cdtfa` | `parse-csv.ts`, `scrape-rates.ts` | the district-tax derivation |
| `Scraper` | `scrape-rates.ts` | download fallback, row normalisation, `scrapeCA` and the staging loops of `main` |
| `StagedFiles` | shared | data-file names, state names, percentages |
| `RateDiff` | `diff-rates.ts` | `diffState` and `main` |
| `StagedGate` | `validate-staged.ts` | the pre-commit gate |
| `ApplyChanges` | `apply-changes.ts` | copying, the changelog entry and its insertion |
| `LookupIndex` | `parse-csv.ts` | `determineType`, `formatRatePercent`, `buildTaxRateData` |
| `ZipRates` | `refresh-avalara-zip-rates.ts` | `parseAvalaraCsv`, `round` |
| `LegacyValidator` | `update-tax-rates.ts` | `validateData` |
| `Resolver` | `src/index.ts` | `getTaxRate`, `getSupportedStates`, `getMetadata` |
| `RateLimit` | `api/lib/rateLimit.ts` | `checkRateLimit`, the periodic sweep, `getRateLimitHeaders` |

String lengths are JavaScript `length`s: UTF-16 code units, where a character outside the Basic Multilingual Plane counts twice (`Strings.Utf16Length`).

Loops in the source are modelled as methods. Each method is proved equal to a specification function, and the lemmas are stated about those functions.

Files and directories are maps from file name to contents. For the pipeline stages the contents are parsed datasets, and a file that does not parse is absent. The gate is also given the names of the committed files that exist, so a committed file that is there but does not parse is told apart from one that is missing. Network responses, the record validator, the clock and the date are parameters.

The rate limiter's module-level `Map` is the `store` field of a class. Its two methods update that field in place.

Two behaviours of the code are worth noting:

- **Gate order.** The gate checks the overall impact ceiling before it looks at errors. A file set that has errors but also a large impact exits 2, not 1 (`StagedGate.DecisionRule`).
- **Resolver inputs.** The resolver takes only `state` and `city`. It compares the upper-cased state with `CA` without trimming. It has no ZIP or county parameter and reports no lookup method (`Resolver.CaliforniaSpellings`, `Resolver.LookupOrder`).

## Model

| member | source | states |
|---|---|---|
| Validation.ScanInjections | scripts/auto-update/validate-jurisdiction.ts:105-113 | the inner loop over the dangerous-pattern catalogue yields exactly the catalogue scan of the field |
| Validation.ScanUnicode | scripts/auto-update/validate-jurisdiction.ts:153-161 | the inner loop over the three suspicious-Unicode patterns yields exactly the Unicode scan of the field |
| Validation.ScanFieldsForInjections | scripts/auto-update/validate-jurisdiction.ts:98-113 | the loop over location, county, type and notes (skipping falsy values) yields the injection findings of the record |
| Validation.ScanFieldsForUnicode | scripts/auto-update/validate-jurisdiction.ts:147-161 | the same loop for the Unicode patterns yields the Unicode warnings of the record |
| Validation.CheckRate | scripts/auto-update/validate-jurisdiction.ts:116-138 | the rate step gives the rate errors and warnings of the raw rate value |
| Validation.RateErrors | scripts/auto-update/validate-jurisdiction.ts:116-134 | at most one rate error; an undefined rate is "not a number"; a finite rate errs exactly when it is below 0 or above 0.20 |
| Validation.RateWarnings | scripts/auto-update/validate-jurisdiction.ts:133-137 | a rate gets a warning or an error, never both; a finite rate warns exactly when it is in (0.15, 0.20] |
| Validation.RateErrorsEmpty | scripts/auto-update/validate-jurisdiction.ts:116-134 | no rate error exactly when the rate, read as a number, is finite and within [0, 0.20] |
| Validation.ValidateJurisdiction | scripts/auto-update/validate-jurisdiction.ts:25-168 | `validateJurisdiction` computes the record check, and it is valid exactly when there are no errors |
| Validation.JurisdictionValidity | scripts/auto-update/validate-jurisdiction.ts:25-168 | a record is valid exactly when it has a non-empty location and county, lengths within 200/100 UTF-16 code units, no dangerous pattern in any truthy checked field, and a present rate that is finite and in [0, 0.20]; warnings play no part |
| Validation.MissingFieldErrors | scripts/auto-update/validate-jurisdiction.ts:30-46 | a missing, empty or non-text location or county is an error; a missing rate is reported both as missing and as not a number |
| Validation.LengthCaps | scripts/auto-update/validate-jurisdiction.ts:49-63 | a location over 200 or county over 100 UTF-16 code units is an error; notes over 500 code units only warn |
| Validation.AstralLocationTooLong | scripts/auto-update/validate-jurisdiction.ts:53-55 | a location of 101 characters from outside the Basic Multilingual Plane has length 202, so it is too long and the record is invalid |
| Validation.UnusualTypeWarning | scripts/auto-update/validate-jurisdiction.ts:141-144 | the unusual-type warning is given exactly when the type is truthy and not one of the seven recognised names |
| Validation.RecordKinds | scripts/auto-update/validate-jurisdiction.ts:25-168 | every error of a record check is of an error kind and every warning of a warning kind |
| Validation.RecordErrorKinds | scripts/auto-update/validate-jurisdiction.ts:36-138 | the errors (required fields, lengths, injections, rate) are never of a warning kind |
| Validation.RecordWarningKinds | scripts/auto-update/validate-jurisdiction.ts:61-161 | the warnings (notes length, high rate, unusual type, Unicode) are always of a warning kind |
| Validation.FieldInjectionsEmpty | scripts/auto-update/validate-jurisdiction.ts:105-113 | no injection finding exactly when no truthy checked field matches any catalogue pattern |
| Validation.ScanEmpty | scripts/auto-update/validate-jurisdiction.ts:108-112 | a field's scan is empty exactly when no pattern tests true on its text |
| Validation.ScanFindings | scripts/auto-update/validate-jurisdiction.ts:108-112 | every finding of a scan names a catalogue pattern that tests true on the field's text |
| Validation.ScanReports | scripts/auto-update/validate-jurisdiction.ts:108-112 | every catalogue pattern that tests true on the field's text is reported |
| Validation.UnicodeFindings | scripts/auto-update/validate-jurisdiction.ts:156-160 | every Unicode warning names a pattern that tests true on the field's text |
| Validation.UnicodeReports | scripts/auto-update/validate-jurisdiction.ts:156-160 | every suspicious-Unicode pattern that tests true is reported |
| Validation.ScanCount | scripts/auto-update/validate-jurisdiction.ts:108-112 | a scan reports a pattern as many times as the pattern occurs in the catalogue, when it matches, and never otherwise |
| Validation.FieldInjectionsCount | scripts/auto-update/validate-jurisdiction.ts:105-113 | over distinct fields, a pattern is reported for a field once per catalogue occurrence when the field is truthy and matches |
| Validation.CatalogueOnce | scripts/auto-update/validate-jurisdiction.ts:66-96 | each pattern occurs at most once in the dangerous-pattern catalogue |
| Validation.InjectionReportedOnce | scripts/auto-update/validate-jurisdiction.ts:105-113 | a matching pattern in a truthy checked field is reported exactly once among the record's injection findings |
| Validation.ScanReportsOnce | scripts/auto-update/validate-jurisdiction.ts:105-113 | the same exactly-once count, read off the full error list of the record check |
| Validation.OnlyScanReportsInjections | scripts/auto-update/validate-jurisdiction.ts:36-138 | injection findings come only from the scan, so their count in the errors is the scan's count |
| Validation.CheckedFieldsOnce | scripts/auto-update/validate-jurisdiction.ts:98-103 | each of the four field kinds is checked, and none twice |
| Validation.NoInjectionElsewhere | scripts/auto-update/validate-jurisdiction.ts:36-138 | the required-field, length and rate steps never produce an injection finding |
| Validation.FieldInjectionsKinds | scripts/auto-update/validate-jurisdiction.ts:105-113 | the field loop produces only injection findings |
| Validation.FieldUnicodeKinds | scripts/auto-update/validate-jurisdiction.ts:153-161 | the Unicode loop produces only Unicode warnings |
| Validation.CsvFormulaMeaning | scripts/auto-update/validate-jurisdiction.ts:89 | `/^[=+\-@]/` tests true exactly when the text starts with `=`, `+`, `-` or `@` |
| Validation.PathTraversalMeaning | scripts/auto-update/validate-jurisdiction.ts:84 | `/\.\.[\/\\]/` tests true exactly when the text contains `../` or `..\` |
| Validation.LiteralPatternMeaning | scripts/auto-update/validate-jurisdiction.ts:68-91 | each literal case-insensitive pattern (`<script`, `javascript:`, `<iframe`, `<embed`, `/etc/`, `\\windows\`, `@SUM(`, `=cmd\|`) tests true exactly when its word occurs, ignoring ASCII case |
| Validation.CommandPayloadFlagged | scripts/auto-update/validate-jurisdiction.ts:89-91 | a location starting `=cmd\|` is reported both as a CSV formula and as an Excel command, and the record is invalid |
| Regex.LiteralThen | scripts/auto-update/validate-jurisdiction.ts:108-109 | in the matcher, a literal followed by more terms matches exactly when the literal occurs at the position and the rest matches after it |
| Regex.WordIsLiteral | scripts/auto-update/validate-jurisdiction.ts:108-109 | a word term matches exactly what its characters taken one by one match |
| Regex.LiteralTest | scripts/auto-update/validate-jurisdiction.ts:108-109 | an unanchored word pattern tests true exactly when the word occurs; without the `i` flag that is substring search |
| DatasetValidation.MinJurisdictions | scripts/auto-update/validate-jurisdiction.ts:188-196 | the minimum count is 50 for California and 1 for any other state |
| DatasetValidation.FindDuplicates | scripts/auto-update/validate-jurisdiction.ts:210-223 | the loop with a seen-set computes the duplicate list |
| DatasetValidation.CheckEachRecord | scripts/auto-update/validate-jurisdiction.ts:226-240 | the record loop counts every invalid record, reports the first ten and collects the record warnings |
| DatasetValidation.ValidateDataset | scripts/auto-update/validate-jurisdiction.ts:173-267 | `validateDataset` computes the dataset check, and it is valid exactly when there are no errors |
| DatasetValidation.DatasetValidity | scripts/auto-update/validate-jurisdiction.ts:173-267 | a dataset is valid exactly when it has metadata, a count within [minimum, 5000], no duplicate `location\|county\|type` key and only valid records |
| DatasetValidation.MissingArrayShortCircuits | scripts/auto-update/validate-jurisdiction.ts:178-185 | a missing jurisdictions array gives that one error and nothing else |
| DatasetValidation.DuplicatesEmpty | scripts/auto-update/validate-jurisdiction.ts:210-223 | no duplicates are reported exactly when the keys are pairwise distinct |
| DatasetValidation.SeenKeysMeaning | scripts/auto-update/validate-jurisdiction.ts:210-223 | the seen-set holds exactly the keys of the records |
| DatasetValidation.InvalidReportsEmpty | scripts/auto-update/validate-jurisdiction.ts:226-240 | no invalid-record report exactly when every record checks valid |
| DatasetValidation.InvalidReports | scripts/auto-update/validate-jurisdiction.ts:226-240 | every report names an invalid record |
| DatasetValidation.DatasetReportCounts | scripts/auto-update/validate-jurisdiction.ts:210-240 | one duplicate report when keys repeat, min(n, 10) invalid-record reports and one "and n−10 more" error exactly when n > 10 |
| DatasetValidation.DatasetErrorKinds | scripts/auto-update/validate-jurisdiction.ts:188-240 | every dataset error is of an error kind |
| DatasetValidation.CountErrorsKinds | scripts/auto-update/validate-jurisdiction.ts:188-202 | the count step yields only too-few or too-many errors |
| DatasetValidation.InvalidErrorsKinds | scripts/auto-update/validate-jurisdiction.ts:226-240 | the record step yields only invalid-record errors |
| DatasetValidation.DatasetWarningKinds | scripts/auto-update/validate-jurisdiction.ts:205-260 | every dataset warning is of a warning kind when the record check keeps kinds apart |
| DatasetValidation.DatasetKinds | scripts/auto-update/validate-jurisdiction.ts:173-267 | the dataset check keeps errors and warnings apart when the record check does |
| DatasetValidation.ValidatorKinds | scripts/auto-update/validate-jurisdiction.ts:173-267 | with `validateJurisdiction` as the record check, dataset errors and warnings are always of their kinds |
| DatasetValidation.OutlierWarnings | scripts/auto-update/validate-jurisdiction.ts:243-260 | the outlier step yields only outlier warnings: at most one summary and five detail lines |
| DatasetValidation.SampleRates | scripts/auto-update/validate-jurisdiction.ts:243-244 | the sample holds the parsed rates that are not NaN |
| DatasetValidation.SquaredDeviations | scripts/auto-update/validate-jurisdiction.ts:246-248 | the sum of squared deviations is non-negative |
| DatasetValidation.Outliers | scripts/auto-update/validate-jurisdiction.ts:250-253 | the outliers are a subsequence of the records, never more than there are |
| DatasetValidation.OutlierDetails | scripts/auto-update/validate-jurisdiction.ts:255-258 | one detail line per shown outlier |
| DatasetValidation.ValidateDiff | scripts/auto-update/validate-jurisdiction.ts:272-313 | `validateDiff` computes the diff check, and it is valid exactly when there are no errors |
| DatasetValidation.DiffValidity | scripts/auto-update/validate-jurisdiction.ts:272-313 | with a side missing the diff passes silently; otherwise it is valid exactly when the count swing is at most 20% and at most 50 locations vanished |
| DatasetValidation.CountChangePercent | scripts/auto-update/validate-jurisdiction.ts:281-285 | the count change percentage is non-negative |
| DatasetValidation.SwingThresholds | scripts/auto-update/validate-jurisdiction.ts:281-290 | the percentage exceeds a limit exactly when the old count is positive and 100·|Δ| exceeds limit·old, so the real division is decided on whole counts |
| DatasetValidation.SwingFindings | scripts/auto-update/validate-jurisdiction.ts:281-290 | the swing is an error above 20%, a warning in (10%, 20%], at most one of the two |
| DatasetValidation.RemovalFindings | scripts/auto-update/validate-jurisdiction.ts:298-306 | vanished locations are an error above 50, a warning in (20, 50], never both |
| DatasetValidation.SourceChangeOnlyWarns | scripts/auto-update/validate-jurisdiction.ts:293-295 | a source change warns exactly when the sources differ and never produces an error |
| DatasetValidation.DiffAgainstItself | scripts/auto-update/validate-jurisdiction.ts:272-313 | a dataset diffed against itself gives no errors and no warnings |
| Cdtfa.DistrictTax | scripts/parse-csv.ts:109-118 | the district tax is NaN exactly when the rate is, and is otherwise never negative |
| Cdtfa.DistrictTaxValue | scripts/parse-csv.ts:109-118 | for a finite rate the district tax is the excess over 0.0725 to within 0.00005, and 0 once the rate is below the base by more than that |
| Scraper.Download | scripts/auto-update/scrape-rates.ts:93-99 | the URL loop keeps the first body longer than 1000 UTF-16 code units, else the last body received |
| Scraper.FirstLongBodyWins | scripts/auto-update/scrape-rates.ts:94-98 | a body over 1000 UTF-16 code units ends the loop and is the content |
| Scraper.NoLongBodyKeepsLast | scripts/auto-update/scrape-rates.ts:94-98 | without a long body the last successful body is kept, and failures leave the content as it was |
| Scraper.Default | scripts/auto-update/scrape-rates.ts:116-119 | a `\|\|` default is empty only when both sides are |
| Scraper.ToJurisdictionDefaults | scripts/auto-update/scrape-rates.ts:111-122 | a normalised record has a truthy type, county and percentage, notes that are null or non-empty, and a non-negative district tax |
| Scraper.Candidates | scripts/auto-update/scrape-rates.ts:109-123 | there are never more candidates than rows |
| Scraper.CandidatesMeaning | scripts/auto-update/scrape-rates.ts:109-123 | the candidates are exactly the normalised rows that have a location and a rate |
| Scraper.Accepted | scripts/auto-update/scrape-rates.ts:124-141 | the accepted records are never more than the candidates |
| Scraper.AcceptedMeaning | scripts/auto-update/scrape-rates.ts:124-141 | a record is accepted exactly when it is a candidate that the record validator finds valid |
| Scraper.EffectiveDate | scripts/auto-update/scrape-rates.ts:145 | the effective date is the first of the month |
| Scraper.ScrapedDataValid | scripts/auto-update/scrape-rates.ts:101-171 | a result has data exactly when it has no error, and the data passes the dataset check, with its count equal to its array length and every record valid |
| Scraper.ScrapeOutcome | scripts/auto-update/scrape-rates.ts:143-171 | with content downloaded, the scrape yields data exactly when the accepted records number 50–5000 and their keys are distinct |
| Scraper.Stage | scripts/auto-update/scrape-rates.ts:199-226 | the two loops of `main` stage exactly the staging specification; `access` says whether `SCRAPERS[state]` also finds inherited object members, as the source's property read does |
| Scraper.ScrapedFileStaged | scripts/auto-update/scrape-rates.ts:178-226 | `ca-tax-rates.json` is staged only from the scraper, never copied forward |
| Scraper.LastScrapeWins | scripts/auto-update/scrape-rates.ts:199-211 | a state's file holds the data of its last successful scrape |
| Scraper.CopiedForward | scripts/auto-update/scrape-rates.ts:218-226 | a data file of a state without a scraper is staged as the committed file; a committed file that does not parse is copied byte for byte and so stays unparsable (absent) |
| Scraper.CopiesLeaveOthers | scripts/auto-update/scrape-rates.ts:218-226 | every file that is not listed, or whose state has a scraper, is left as it was |
| Scraper.PrototypeStateNotCopied | scripts/auto-update/scrape-rates.ts:218-226 | as written, `constructor-tax-rates.json` is never copied forward: `SCRAPERS['constructor']` finds the inherited `Object.prototype.constructor`, so the staged side is left as it was |
| Scraper.PrototypeStateCopied | scripts/auto-update/scrape-rates.ts:218-226 | read by own keys, a committed `constructor-tax-rates.json` is copied forward like any other state without a scraper |
| StagedFiles.StateOfDataFile | scripts/auto-update/diff-rates.ts:144 | the state of `xx-tax-rates.json` is `xx`, upper-cased |
| StagedFiles.StateNameOfShortState | scripts/auto-update/scrape-rates.ts:221 | removing the suffix from `state + "-tax-rates.json"` gives the state back |
| StagedFiles.DataFiles | scripts/auto-update/validate-staged.ts:29-31 | the data files are exactly the listed names ending in `-tax-rates.json` |
| StagedFiles.Percent | scripts/auto-update/validate-staged.ts:95-110 | a percentage is non-negative and at most 100 when the part is at most the whole |
| StagedFiles.PercentAbove | scripts/auto-update/validate-staged.ts:123-128 | a percentage exceeds a limit exactly when the whole is positive and 100·part exceeds limit·whole |
| RateDiff.IndexRecords | scripts/auto-update/diff-rates.ts:79-87 | the loop builds the key index of the records |
| RateDiff.BuildIndex | scripts/auto-update/diff-rates.ts:79-87 | the index is well formed: its key list is duplicate-free and names exactly its entries |
| RateDiff.LastWith | scripts/auto-update/diff-rates.ts:79-87 | the position found is the last record with the key, or −1 when there is none |
| RateDiff.IndexMeaning | scripts/auto-update/diff-rates.ts:79-87 | a key is indexed exactly when some record has it, and it maps to the last such record |
| RateDiff.CompareNew | scripts/auto-update/diff-rates.ts:90-104 | the loop over new keys yields the rate changes of the shared keys and the added references |
| RateDiff.FindRemoved | scripts/auto-update/diff-rates.ts:107-111 | the loop over old keys yields the removed references |
| RateDiff.DiffState | scripts/auto-update/diff-rates.ts:53-120 | `diffState` computes the diff specification; the rate difference coerces the rates with `Number()` |
| RateDiff.MissingFileDiff | scripts/auto-update/diff-rates.ts:64-68 | with a file missing on one side the diff has no changes, additions or removals, only the note saying which file is missing (none when both are) |
| RateDiff.KeysNotInMeaning | scripts/auto-update/diff-rates.ts:90-111 | a key is listed as only-one-side exactly when it is in the list and not in the other map |
| RateDiff.ChangedKeysMeaning | scripts/auto-update/diff-rates.ts:93-102 | a key is listed as changed exactly when both sides have it and their rates differ |
| RateDiff.IndexKeys | scripts/auto-update/diff-rates.ts:79-87 | the index keys are the dataset's record keys |
| RateDiff.AddedRemovedKeys | scripts/auto-update/diff-rates.ts:90-111 | the added keys are the new keys minus the old, and the removed keys the old minus the new |
| RateDiff.ChangedKeySet | scripts/auto-update/diff-rates.ts:93-102 | the changed keys are the shared keys whose rates differ |
| RateDiff.DiffKeysDisjoint | scripts/auto-update/diff-rates.ts:89-111 | the added, removed and changed keys are pairwise disjoint |
| RateDiff.DiffCounts | scripts/auto-update/diff-rates.ts:53-120 | the numbers of additions, removals and changes equal the sizes of those key sets |
| RateDiff.DiffChangesDiffer | scripts/auto-update/diff-rates.ts:93-102 | every reported rate change has different old and new rates |
| RateDiff.SelfDiff | scripts/auto-update/diff-rates.ts:53-120 | a dataset diffed against itself gives nothing |
| RateDiff.StructuralNoteCount | scripts/auto-update/diff-rates.ts:74-76 | structural notes are one for a source change and one for a count swing over 20, and a source change is noted exactly when the sources differ |
| RateDiff.Classify | scripts/auto-update/diff-rates.ts:159-163 | an auto-deployable report never needs review |
| RateDiff.ReviewRule | scripts/auto-update/diff-rates.ts:159-163 | review is needed exactly when over 5% changed, any structural note, any rate jump over 0.03 or over 10 removals; auto-deploy exactly when something changed and no review is needed |
| RateDiff.Accumulate | scripts/auto-update/diff-rates.ts:143-157 | the loop over staged files sums their array lengths and concatenates their diffs |
| RateDiff.AllDiffsCounts | scripts/auto-update/diff-rates.ts:143-157 | the changed count of the concatenated diff is the sum over the states |
| RateDiff.Run | scripts/auto-update/diff-rates.ts:122-190 | `main` computes the run specification's exit code and report |
| RateDiff.ExitCodes | scripts/auto-update/diff-rates.ts:122-190 | exit 1 exactly for a missing directory, 2 exactly when the report needs review, no report without data files |
| StagedGate.ValidateFile | scripts/auto-update/validate-staged.ts:56-110 | a file's error, warning, affected and baseline totals |
| StagedGate.PerFileAt | scripts/auto-update/validate-staged.ts:43-56 | a staged file is checked with its state and its committed version |
| StagedGate.ValidateStagedFile | scripts/auto-update/validate-staged.ts:43-114 | one iteration of the file loop gives that file's totals |
| StagedGate.Tally | scripts/auto-update/validate-staged.ts:43-114 | the loop stops at the first file whose staged version, or existing committed version, does not parse; otherwise every file parses and the totals are the per-file sums |
| StagedGate.AllParseMeaning | scripts/auto-update/validate-staged.ts:47-54 | all files parse exactly when every listed file is staged and parses, and its committed version parses whenever it exists |
| StagedGate.PreCommit | scripts/auto-update/validate-staged.ts:25-150 | the gate computes the gate specification's exit code |
| StagedGate.DecisionRule | scripts/auto-update/validate-staged.ts:123-150 | exit 2 exactly for over-5% impact, or for no errors and over 10 warnings; exit 1 exactly for errors within the ceiling; exit 0 otherwise |
| StagedGate.FileTotalsRule | scripts/auto-update/validate-staged.ts:56-110 | a file has no errors exactly when its dataset, and its diff against a committed version, are valid; impact counts only against a committed version |
| StagedGate.NoErrorsAnywhere | scripts/auto-update/validate-staged.ts:43-121 | the total error count is zero exactly when every file's is |
| StagedGate.GatePassMeansValid | scripts/auto-update/validate-staged.ts:25-150 | a passing gate means every data file is staged and its dataset is valid; when a committed version exists it parsed and the diff against it is valid |
| StagedGate.CorruptCommittedFails | scripts/auto-update/validate-staged.ts:51-53 | an existing committed file that does not parse fails the gate with exit 1, whatever the staged files hold |
| StagedGate.GatePassMeansValidRecords | scripts/auto-update/validate-staged.ts:25-150 | with `validateJurisdiction` as the record check, a passing gate means every staged record is valid |
| StagedGate.GatePassMeansSmallImpact | scripts/auto-update/validate-staged.ts:123-135 | a passing gate with a positive baseline means at most 5% of jurisdictions were affected |
| StagedGate.BaselineIsCommittedCount | scripts/auto-update/validate-staged.ts:95-110 | the baseline is the sum of the committed counts |
| ApplyChanges.CopyChanged | scripts/auto-update/apply-changes.ts:39-54 | the copy loop computes the copy specification |
| ApplyChanges.CopyRunFile | scripts/auto-update/apply-changes.ts:39-54 | after the loop a staged file reads as its staged content and every other file is untouched |
| ApplyChanges.CopyRunCount | scripts/auto-update/apply-changes.ts:39-54 | the applied count is the number of staged files whose content differs from the committed one |
| ApplyChanges.RenderAll | scripts/auto-update/apply-changes.ts:57-77 | one rendered line per entry line |
| ApplyChanges.RateSectionShape | scripts/auto-update/apply-changes.ts:63-69 | the rate section lists the first min(n, 20) changes in order after its header, and counts the rest exactly when n > 20 |
| ApplyChanges.EntryCountLines | scripts/auto-update/apply-changes.ts:57-77 | the added and removed count lines appear exactly when their lists are non-empty |
| ApplyChanges.InsertEntryInverse | scripts/auto-update/apply-changes.ts:79-91 | the entry goes right after the first newline, or at the end without one, and cutting it out gives the old changelog back |
| ApplyChanges.NewChangelog | scripts/auto-update/apply-changes.ts:87-89 | without a changelog the file is `# Changelog` followed by the entry |
| ApplyChanges.Apply | scripts/auto-update/apply-changes.ts:18-91 | exit 1 without a report; a no-op for a report that is not auto-deployable or has no changes; otherwise copy the changed files and insert the entry |
| LookupIndex.TypeNamesRecognised | scripts/parse-csv.ts:80-90 | every type the builder assigns is one the record validator recognises |
| LookupIndex.ThirdDecimalRule | scripts/parse-csv.ts:92-104 | three decimals are shown exactly when the rounding to thousandths differs from the rounding to hundredths |
| LookupIndex.RecordShape | scripts/parse-csv.ts:107-121 | a built record has its location, a recognised type, a non-negative district tax and notes that are null or non-empty |
| LookupIndex.ShortKey | scripts/parse-csv.ts:133-134 | the short key with ` county` appended is the key |
| LookupIndex.TablePlacement | scripts/parse-csv.ts:80-90 | a record goes to the county table exactly when its location names an unincorporated area or a county, or it is typed County, and to the city table otherwise |
| LookupIndex.PlaceMeaning | scripts/parse-csv.ts:126-146 | one step of the `forEach` adds exactly the record's keys to its table and leaves the rest |
| LookupIndex.BuildLookup | scripts/parse-csv.ts:123-146 | the `forEach` builds the lookup index of the records |
| LookupIndex.CityTableKeys | scripts/parse-csv.ts:143-145 | the city table's keys are exactly the lower-case locations of City records |
| LookupIndex.CountyTableKeys | scripts/parse-csv.ts:129-142 | the county table's keys are exactly the county keys of the records |
| LookupIndex.LastCityWins | scripts/parse-csv.ts:143-145 | a city key maps to the last record with that key |
| LookupIndex.LastCountyWins | scripts/parse-csv.ts:129-142 | a county key maps to the last record with that key |
| LookupIndex.CountyKeysCases | scripts/parse-csv.ts:129-142 | a county key is a County or unincorporated record's own key, or a County's short key when no city has that name |
| LookupIndex.ShortKeyRule | scripts/parse-csv.ts:133-139 | a county key that is no record's own key is a short key: no city has that name, and a County is named with ` county` appended |
| LookupIndex.BuiltDataCounts | scripts/parse-csv.ts:106-162 | building succeeds exactly when every row has a Location, with one record per row and the metadata count equal to the number of records |
| LookupIndex.ParseAndBuild | scripts/parse-csv.ts:164-173 | the script reads the table with trimmed column names and builds from it |
| Csv.SplitFields | scripts/parse-csv.ts:58-69 | the character loop computes the fields of the line |
| Csv.FieldsClean | scripts/parse-csv.ts:58-69 | every field is trimmed and contains no double quote |
| Csv.FieldCount | scripts/parse-csv.ts:58-69 | a line has one more field than it has commas outside quotes |
| Csv.SplitCount | scripts/parse-csv.ts:50 | a split has one piece more than the text has separators |
| Csv.Unquote | scripts/auto-update/scrape-rates.ts:47 | removing every double quote leaves none, and text without one is unchanged |
| Csv.HeaderKeys | scripts/parse-csv.ts:51 | one column name per comma-separated header cell |
| Csv.RowKeys | scripts/parse-csv.ts:71-74 | a row object has exactly the headers as keys |
| Csv.RowCell | scripts/parse-csv.ts:71-74 | the last column of a name gives its value, and a missing value reads as empty |
| Csv.BuildRow | scripts/parse-csv.ts:71-74 | the header loop builds the row object |
| Csv.RowsOf | scripts/parse-csv.ts:53-77 | one row per body line |
| Csv.RowCount | scripts/parse-csv.ts:50-53 | there are as many rows as line breaks in the trimmed text |
| Csv.ParseRows | scripts/parse-csv.ts:53-77 | the map over body lines builds the rows |
| Csv.ParseTable | scripts/parse-csv.ts:48-78 | `parseCSV` builds the table of the content |
| Numbers.RoundTo | scripts/parse-csv.ts:109 | rounding to d decimals moves a finite value by at most half a unit in the last place and keeps NaN and infinities |
| Numbers.ParseFloat | scripts/parse-csv.ts:108 | `parseFloat` gives Infinity only for text containing `Infinity` |
| Numbers.ReadDigits | scripts/parse-csv.ts:108 | a text made only of decimal digits is one whole decimal literal, and `parseFloat` reads it as its digits' value |
| Numbers.NumberOfNatText | scripts/auto-update/diff-rates.ts:101 | `Number()` of the decimal digits of a whole number gives that number back |
| Numbers.NumberRefusesTrailingText | scripts/auto-update/diff-rates.ts:101 | `Number("0.5x")` is NaN while `parseFloat` reads 0.5: `Number()` takes the whole trimmed text |
| Numbers.NumberReadsHex | scripts/auto-update/diff-rates.ts:101 | `Number("0x10")` is 16 while `parseFloat` reads 0 |
| Numbers.NumberRefusesBareExponent | scripts/auto-update/diff-rates.ts:101 | `Number("1e")` is NaN while `parseFloat` reads 1 |
| Strings.Utf16LengthAppend | scripts/auto-update/validate-jurisdiction.ts:53 | the UTF-16 length of a concatenation is the sum of the lengths |
| Strings.Utf16LengthOfBmp | scripts/auto-update/validate-jurisdiction.ts:53 | the UTF-16 length equals the number of characters exactly when every character is in the Basic Multilingual Plane |
| Strings.Utf16LengthOfAstralRun | scripts/auto-update/validate-jurisdiction.ts:53 | n characters from outside the Basic Multilingual Plane have UTF-16 length 2n |
| Strings.PadStartLength | scripts/refresh-avalara-zip-rates.ts:61 | `padStart(n, c)` with a one-unit pad character gives length n, or the text's own length when it is already that long |
| ZipRates.Round | scripts/refresh-avalara-zip-rates.ts:86-88 | `round` moves a finite rate by at most 0.000005 and keeps NaN and infinities |
| ZipRates.StripQuotes | scripts/refresh-avalara-zip-rates.ts:43 | one leading and one trailing quote are removed, and text without quotes is unchanged |
| ZipRates.Cells | scripts/refresh-avalara-zip-rates.ts:60 | one cell per comma-separated piece |
| ZipRates.NonBlankLines | scripts/refresh-avalara-zip-rates.ts:40 | the kept lines are not blank once trimmed |
| ZipRates.ColumnContaining | scripts/refresh-avalara-zip-rates.ts:44-50 | the first column whose lower-case name contains the word, or −1 when none does |
| ZipRates.ColumnNamed | scripts/refresh-avalara-zip-rates.ts:47 | the first column whose lower-case name is `staterate`, or −1 |
| ZipRates.RateCell | scripts/refresh-avalara-zip-rates.ts:64-68 | a cell's rate is never NaN, and is the parsed cell whenever it is non-zero |
| ZipRates.ParseAvalaraCsv | scripts/refresh-avalara-zip-rates.ts:39-84 | the loop over data lines computes the ZIP table |
| ZipRates.EmptyCases | scripts/refresh-avalara-zip-rates.ts:40-55 | fewer than two lines, or no ZIP or combined-rate column, gives the empty table |
| ZipRates.LineEntryShape | scripts/refresh-avalara-zip-rates.ts:60-75 | an entry has a ZIP of five UTF-16 code units, a non-NaN combined rate and the upper-cased name, and each component exactly when that component is non-zero |
| ZipRates.LineKept | scripts/refresh-avalara-zip-rates.ts:61-62 | a line is kept exactly when its ZIP cell exists and is at most five UTF-16 code units long; the ZIP is that cell left-padded with zeros to five |
| ZipRates.EmptyZipCellBecomesZeros | scripts/refresh-avalara-zip-rates.ts:61-62 | an empty ZIP cell is padded to `00000` and kept |
| ZipRates.EntriesShape | scripts/refresh-avalara-zip-rates.ts:59-81 | every entry has a ZIP of five UTF-16 code units and a non-NaN combined rate |
| ZipRates.CompactKeys | scripts/refresh-avalara-zip-rates.ts:77-80 | a ZIP is in the table exactly when some entry has it |
| ZipRates.CompactKeepsFirstMax | scripts/refresh-avalara-zip-rates.ts:77-80 | the kept entry of a ZIP is the first with the highest combined rate |
| ZipRates.ParsedZipTable | scripts/refresh-avalara-zip-rates.ts:39-84 | every ZIP of the table has five UTF-16 code units and maps to the first highest-rate entry of its lines |
| LegacyValidator.Rates | scripts/update-tax-rates.ts:109 | one parsed rate per row |
| LegacyValidator.RowFindings | scripts/update-tax-rates.ts:104-115 | the findings of one row |
| LegacyValidator.FieldFindings | scripts/update-tax-rates.ts:104-115 | the first `forEach` computes the field findings |
| LegacyValidator.DuplicateFindings | scripts/update-tax-rates.ts:117-125 | the second `forEach` computes the duplicate findings |
| LegacyValidator.Validate | scripts/update-tax-rates.ts:95-131 | `validateData` computes the legacy check |
| LegacyValidator.RowErrorsEmpty | scripts/update-tax-rates.ts:104-115 | a row has no finding exactly when its four fields are present and its rate is a number within [0.07, 0.15] |
| LegacyValidator.FieldErrorsMeaning | scripts/update-tax-rates.ts:104-115 | a field finding is exactly a finding of some row, numbered from 1 |
| LegacyValidator.KeysOfMeaning | scripts/update-tax-rates.ts:117-125 | the seen-set holds exactly the rows' `Location\|County\|Type` keys |
| LegacyValidator.DuplicateErrorsMeaning | scripts/update-tax-rates.ts:117-125 | a duplicate finding is exactly a row whose key an earlier row had |
| LegacyValidator.DuplicateCount | scripts/update-tax-rates.ts:117-125 | there are as many duplicate findings as rows minus distinct keys |
| LegacyValidator.CountError | scripts/update-tax-rates.ts:99-101 | under 500 rows the first finding is the count error, and it appears exactly then |
| LegacyValidator.FieldErrorsEmpty | scripts/update-tax-rates.ts:104-115 | no field finding exactly when every row is acceptable |
| LegacyValidator.DuplicateErrorsEmpty | scripts/update-tax-rates.ts:117-125 | no duplicate finding exactly when the keys are pairwise distinct |
| LegacyValidator.ValidIff | scripts/update-tax-rates.ts:95-131 | valid exactly when there are at least 500 rows, every row is acceptable and the keys are distinct |
| Resolver.GetSupportedStates | src/index.ts:112-114 | the only supported state is `CA` |
| Resolver.GetMetadata | src/index.ts:119-124 | the data's metadata with the supported states |
| Resolver.Read | src/index.ts:63-72 | a present key reads its record; read by own keys, an absent key reads nothing, and read as a property an inherited member is found too |
| Resolver.CaliforniaSpellings | src/index.ts:36-39 | the state is California exactly for the four letter-case spellings of `ca` |
| Resolver.UnsupportedState | src/index.ts:39-54 | another state is unsupported, with zero rate and components, the upper-cased state and a reason |
| Resolver.CaliforniaSupported | src/index.ts:77-105 | a California answer is supported, has no reason, has the base rate as state component and the data's source and date |
| Resolver.LookupOrder | src/index.ts:59-74 | city table, then county table, then county table with ` county` appended when the name lacks `county` |
| Resolver.BaseRateFallback | src/index.ts:76-91 | without a city, or with one not found, the answer is 7.25% with components adding up to it |
| Resolver.FoundRecord | src/index.ts:93-105 | a found record supplies the rate, the percentage, the name and the district component |
| Resolver.ResolvesBuiltCity | src/index.ts:59-105 | over data built by `buildTaxRateData`, a City record's name resolves in any letter case to the last such record |
| Resolver.UnknownNameGetsBaseRate | src/index.ts:59-91 | over built data, a name matching no record key gets the base rate |
| Resolver.PrototypeNameLeaks | src/index.ts:63-72 | as written, the city `Constructor` resolves to an inherited object member: supported, with an undefined rate |
| Resolver.PrototypeNameFallsBack | src/index.ts:63-91 | read by own keys, the same city falls back to the base rate |
| RateLimit.CeilSeconds | api/lib/rateLimit.ts:76 | `Math.ceil(x / 1000)`: the least whole number of seconds not before x milliseconds |
| RateLimit.Refresh | api/lib/rateLimit.ts:54-64 | each window whose time has run out restarts now at zero, and the other is kept |
| RateLimit.Swept | api/lib/rateLimit.ts:25-33 | the sweep keeps exactly the entries whose hour window started at most an hour ago, unchanged |
| RateLimit.Headers | api/lib/rateLimit.ts:108-114 | the three `X-RateLimit-*` headers and no others |
| RateLimit.RateLimiter.constructor | api/lib/rateLimit.ts:22 | the store starts empty |
| RateLimit.RateLimiter.CheckRateLimit | api/lib/rateLimit.ts:42-106 | the answer and the new store are those of the check, and the counters stay within their limits |
| RateLimit.RateLimiter.Sweep | api/lib/rateLimit.ts:25-33 | the store becomes the swept store |
| RateLimit.CheckKeepsBounds | api/lib/rateLimit.ts:70-93 | a check keeps every entry within 10 a minute and 100 an hour |
| RateLimit.CheckLeavesOthers | api/lib/rateLimit.ts:47-93 | a check changes no other address's entry |
| RateLimit.RefusedWhenFull | api/lib/rateLimit.ts:70-88 | refused exactly when the minute or hour count is full, with nothing remaining, the full window's end as reset, the window resets kept and nothing counted |
| RateLimit.AllowedCounts | api/lib/rateLimit.ts:90-105 | an allowed request counts once in each window and reports what is left of the tighter limit |
| RateLimit.NewAddressAllowed | api/lib/rateLimit.ts:47-52 | a new address is allowed, with 9 remaining and both windows starting now |
| RateLimit.MinuteCap | api/lib/rateLimit.ts:54-93 | within one minute window at most 10 requests of an address are allowed, less those already counted |
| RateLimit.FirstMinuteCap | api/lib/rateLimit.ts:47-93 | in the first minute of a new address at most 10 requests are allowed |
| RateLimit.HeadersRoundTrip | api/lib/rateLimit.ts:108-114 | a non-negative header value reads back as the number |
| Numbers.NatTextValue | api/lib/rateLimit.ts:110-112 | the decimal digits of a number read back as that number |

## Left out

- Floating point: numbers are exact reals, NaN and ±Infinity. Rounding is stated to within half a unit in the last place, not as IEEE-754 `Math.round` on doubles, and `toFixed` is exact decimal rounding.
- `parseFloat` is modelled for leading white space, an optional sign, digits, a fraction, an exponent and `Infinity`. `Number()` of a string is modelled for the whole trimmed text: empty text, `0x`/`0o`/`0b` integers, and a signed decimal literal or `Infinity` with nothing after it.
- Numbers.NumberText: writes every finite number in plain decimal notation. `String(x)` switches to exponent notation for |x| ≥ 1e21 and for non-zero |x| < 1e-6 (`1e+21`, `1e-7`), and that is not modelled.
- Strings.PadStartLength: states the resulting length only for a pad character inside the Basic Multilingual Plane, which is the only pad the code uses (`'0'`).
- I/O: the file system, HTTP fetches with redirects, `Date` and the process exit are parameters or results. Directory listings are sequences of names, and file contents are maps.
- Console output and the exact wording of error and warning messages are left out. Findings are datatype constructors carrying the values the messages show.
- The scrape summary file is left out: `scrape-summary.json` and its `totalStaged` count.
- The report JSON layout of `diff-rates.ts` is left out, as are `JSON.stringify` and byte-level file contents. Apply compares file contents as strings.
- Case folding covers ASCII only. `toLowerCase` and `toUpperCase` of non-ASCII letters are not modelled. For the ASCII patterns of the validator, JavaScript's `i` flag folds exactly these letters.
- The regular expressions are modelled only as far as the validator's catalogue uses them: literal characters, classes, `\s`, `.`, `*`, `+` and the `^` anchor.
- The record validator is a parameter of the dataset, diff and gate checks. The stages use `Validation.CheckJurisdiction`, and the lemmas that name it state what it gives.
- `validateJurisdiction(j, state)` ignores its `state` argument, so the model has none.
- The statistical outlier test is modelled on exact reals: mean, variance and the 3σ test, with both sides squared instead of taking a square root.
- DatasetValidation.OutlierWarnings: states the kinds and number of outlier warnings only. Which rates are outliers is left to the definition.
- `buildTaxRateData` throws on a row without `Location`, and that is modelled as `None`. `parseCSV` on text whose first line lacks a column leaves it `undefined` in the row, which reads as a missing key.
- A file that does not parse is absent from its map of parsed contents. The diff then takes its "missing" path. The gate's `JSON.parse` exception, on a staged file or on a committed file that exists, is exit 1 (`StagedGate.Tally`, `StagedGate.CorruptCommittedFails`). The scraper's byte copy of an unparsable committed file leaves the staged file unparsable (`Scraper.CopiedForward`).
- The `setInterval` timer of the rate limiter is the explicit `Sweep(now)` method; when it fires is not modelled. Concurrent requests are not modelled either, since Node handles one at a time.
- The rate limiter's entries are values in the map. The source mutates the stored object in place before refusing, and the model writes the refreshed entry back, which has the same effect.
- The scraper's quarterly URL construction is left out: it is two fixed URLs, and the fetch results are a parameter.
- `refresh-avalara-zip-rates.ts` `main` is left out: the per-file loop that writes `xx-zip-rates.json` and detects the state from the file name.
- The spot checks and statistics that `parse-csv.ts` `main` prints are left out.

## Findings

| source | as written | input that shows it | evidently intended | confidence | as-written member | corrected member |
|---|---|---|---|---|---|---|
| src/index.ts:63-72 | the lookup tables are plain objects read with `[key]`, so keys inherited from `Object.prototype` are found | `getTaxRate({ state: 'CA', city: 'Constructor' })` finds the inherited `constructor` function, so the answer is supported with an undefined rate and percentage | a name not in the data falls back to the 7.25% state base rate | high (by reading; not executed) | Resolver.PrototypeNameLeaks | Resolver.PrototypeNameFallsBack |
| scripts/auto-update/scrape-rates.ts:218-226 | `!SCRAPERS[state]` reads the registry as a plain object, so a state named like an `Object.prototype` member counts as having a scraper | a committed `data/constructor-tax-rates.json`: `SCRAPERS['constructor']` is the inherited `Object` function, so the file is not copied to staging | every committed data file of a state without its own scraper is copied forward | medium (by reading; not executed) | Scraper.PrototypeStateNotCopied | Scraper.PrototypeStateCopied |
