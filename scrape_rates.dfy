/** The scraper of `scripts/auto-update/scrape-rates.ts`: the California
    scraper downloads the CDTFA table, turns its rows into jurisdiction
    records, keeps the records the record validator accepts and returns the
    dataset only when the dataset validator accepts it as a whole; the main
    loop then stages what the registered scrapers returned and copies the
    committed file of every state without a scraper. */
module Scraper {
  import opened Wrappers
  import opened Strings
  import opened Numbers
  import opened Json
  import opened Validation
  import opened DatasetValidation
  import opened StagedFiles
  import opened Csv
  import opened Cdtfa

  // ---------------------------------------------------------------------------
  // Download

  /** A body this long ends the search for a working URL. */
  const MinContentLength := 1000

  /** The download loop over the known URLs, given what each fetch returned
      (None for a failed fetch): a long enough body ends it, a failed fetch
      keeps the previous body, a short one replaces it. */
  function ChooseContent(responses: seq<Option<string>>, sofar: Option<string>): Option<string>
    decreases |responses|
  {
    if responses == [] then sofar
    else match responses[0]
      case None => ChooseContent(responses[1..], sofar)
      case Some(body) =>
        if Utf16Length(body) > MinContentLength then Some(body) else ChooseContent(responses[1..], Some(body))
  }

  /** The `for (const url of urls)` loop. */
  method Download(responses: seq<Option<string>>) returns (content: Option<string>)
    ensures content == ChooseContent(responses, None)
  {
    content := None;
    var i := 0;
    while i < |responses|
      invariant i <= |responses|
      invariant ChooseContent(responses[i..], content) == ChooseContent(responses, None)
    {
      assert responses[i..][1..] == responses[i + 1..];
      if responses[i].Some? {
        content := responses[i];
        if Utf16Length(content.value) > MinContentLength {
          return;
        }
      }
      i := i + 1;
    }
  }

  predicate Long(response: Option<string>) {
    response.Some? && Utf16Length(response.value) > MinContentLength
  }

  /** The first long enough body wins. */
  lemma {:induction false} FirstLongBodyWins(responses: seq<Option<string>>, sofar: Option<string>, j: nat)
    requires j < |responses| && Long(responses[j])
    requires forall k :: 0 <= k < j ==> !Long(responses[k])
    ensures ChooseContent(responses, sofar) == responses[j]
    decreases |responses|
  {
    if j > 0 {
      var next := if responses[0].Some? then responses[0] else sofar;
      FirstLongBodyWins(responses[1..], next, j - 1);
    }
  }

  /** The last successful fetch, if any. */
  function LastBody(responses: seq<Option<string>>): Option<string>
    decreases |responses|
  {
    if responses == [] then None
    else if responses[|responses| - 1].Some? then responses[|responses| - 1]
    else LastBody(responses[..|responses| - 1])
  }

  lemma {:induction false} LastBodyCons(responses: seq<Option<string>>)
    requires responses != []
    ensures LastBody(responses) ==
            if LastBody(responses[1..]).Some? then LastBody(responses[1..]) else responses[0]
    decreases |responses|
  {
    if |responses| > 1 && responses[|responses| - 1].None? {
      var init := responses[..|responses| - 1];
      LastBodyCons(init);
      assert init[1..] == responses[1..][..|responses| - 2];
    }
  }

  /** Without a long enough body the last successful fetch is kept, and with
      no successful fetch there is no content. */
  lemma {:induction false} NoLongBodyKeepsLast(responses: seq<Option<string>>, sofar: Option<string>)
    requires forall k :: 0 <= k < |responses| ==> !Long(responses[k])
    ensures ChooseContent(responses, sofar) == if LastBody(responses).Some? then LastBody(responses) else sofar
    decreases |responses|
  {
    if responses != [] {
      var next := if responses[0].Some? then responses[0] else sofar;
      NoLongBodyKeepsLast(responses[1..], next);
      LastBodyCons(responses);
    }
  }

  // ---------------------------------------------------------------------------
  // Rows to records

  /** `text || fallback` on texts. */
  function Default(text: string, fallback: string): (r: string)
    ensures r != "" <==> text != "" || fallback != ""
  {
    if text != "" then text else fallback
  }

  /** `r.Location && r.Rate`. */
  predicate Keep(row: map<string, string>) {
    FieldOf(row, "Location") != "" && FieldOf(row, "Rate") != ""
  }

  /** The record built from a row: the rate is parsed, the district tax
      derived, and type, county, percentage and notes fall back to their
      defaults when the cell is empty. */
  function ToJurisdiction(row: map<string, string>): Record {
    var rate := ParseFloat(FieldOf(row, "Rate"));
    var notes := FieldOf(row, "Notes");
    map[
      "location" := Str(FieldOf(row, "Location")),
      "type" := Str(Default(FieldOf(row, "Type"), "City")),
      "county" := Str(Default(FieldOf(row, "County"), "Unknown")),
      "rate" := Num(rate),
      "ratePercent" := Str(Default(FieldOf(row, "Rate_Percent"), ToFixed(Scale(rate, 100.0), 2) + "%")),
      "districtTax" := Num(DistrictTax(rate)),
      "notes" := if notes != "" then Str(notes) else Null
    ]
  }

  /** Type, county and percentage are never empty, notes are absent rather
      than empty, and the district tax is never negative. */
  lemma ToJurisdictionDefaults(row: map<string, string>)
    ensures var j := ToJurisdiction(row);
            Truthy(Get(j, "type")) && Truthy(Get(j, "county")) && Truthy(Get(j, "ratePercent")) &&
            (Get(j, "notes") == Null || (Get(j, "notes").Str? && Get(j, "notes").s != "")) &&
            Get(j, "districtTax").Num? && !Less(Get(j, "districtTax").n, Finite(0.0))
  {
  }

  /** The first `filter` and the `map`: one record per row with a location and a rate. */
  function Candidates(rows: seq<map<string, string>>): (js: seq<Record>)
    ensures |js| <= |rows|
  {
    if rows == [] then []
    else (if Keep(rows[0]) then [ToJurisdiction(rows[0])] else []) + Candidates(rows[1..])
  }

  /** Every candidate comes from a kept row, and every kept row gives one. */
  lemma {:induction false} CandidatesMeaning(rows: seq<map<string, string>>, j: Record)
    ensures j in Candidates(rows) <==> exists row :: row in rows && Keep(row) && j == ToJurisdiction(row)
  {
    if rows != [] {
      CandidatesMeaning(rows[1..], j);
      assert rows == [rows[0]] + rows[1..];
    }
  }

  /** The second `filter`: the records `check` finds valid, in order. */
  function Accepted(js: seq<Record>, check: Record -> ValidationResult): (r: seq<Record>)
    ensures |r| <= |js|
  {
    if js == [] then []
    else (if check(js[0]).valid then [js[0]] else []) + Accepted(js[1..], check)
  }

  /** A record is kept exactly when it is one of the candidates and valid. */
  lemma {:induction false} AcceptedMeaning(js: seq<Record>, check: Record -> ValidationResult, j: Record)
    ensures j in Accepted(js, check) <==> j in js && check(j).valid
  {
    if js != [] {
      AcceptedMeaning(js[1..], check, j);
      assert js == [js[0]] + js[1..];
    }
  }

  // ---------------------------------------------------------------------------
  // The California scraper

  /** `${year}-${month padded to two digits}-01`: the first of the current month. */
  function EffectiveDate(year: nat, month: nat): (r: string)
    ensures EndsWith(r, "-01")
  {
    NatText(year) + "-" + PadStart(NatText(month), 2, '0') + "-01"
  }

  /** The dataset the scraper assembles, its metadata counting the records. */
  function Assemble(js: seq<Record>, effectiveDate: string, lastUpdated: string): Dataset {
    Dataset(Some(Metadata(Str(effectiveDate), Str(CdtfaSource), Str(lastUpdated),
                          Num(Finite(|js| as real)), Str(DataVersion))),
            Some(js))
  }

  datatype ScrapeError = DownloadFailed | DatasetInvalid

  /** `{ state, data, error }`: data None stands for `data: null`. */
  datatype ScraperResult = ScraperResult(state: string, data: Option<Dataset>, error: Option<ScrapeError>)

  /** The records a downloaded table yields. */
  function Records(content: string, check: Record -> ValidationResult): seq<Record> {
    Accepted(Candidates(Table(content, TrimUnquote)), check)
  }

  /** `scrapeCA`, given what the fetches returned, the record validator, the
      first of the current month and today's date. */
  function ScrapeCA(responses: seq<Option<string>>, check: Record -> ValidationResult,
                    effectiveDate: string, lastUpdated: string): ScraperResult
  {
    var content := ChooseContent(responses, None);
    if content.None? || content.value == "" then ScraperResult("ca", None, Some(DownloadFailed))
    else
      var data := Assemble(Records(content.value, check), effectiveDate, lastUpdated);
      if CheckDataset(data, "CA", check).valid then ScraperResult("ca", Some(data), None)
      else ScraperResult("ca", None, Some(DatasetInvalid))
  }

  /** The scraper fails closed: it returns data exactly when it reports no
      error, and the data it returns passes the dataset validator, holds only
      records the record validator accepts and counts them in its metadata. */
  lemma ScrapedDataValid(responses: seq<Option<string>>, check: Record -> ValidationResult,
                         effectiveDate: string, lastUpdated: string)
    ensures var r := ScrapeCA(responses, check, effectiveDate, lastUpdated);
            (r.data.None? <==> r.error.Some?) &&
            (r.data.Some? ==>
               var d := r.data.value;
               CheckDataset(d, "CA", check).valid &&
               d.jurisdictions.Some? && d.metadata.Some? &&
               d.metadata.value.jurisdictionCount == Num(Finite(|d.jurisdictions.value| as real)) &&
               forall k :: 0 <= k < |d.jurisdictions.value| ==> check(d.jurisdictions.value[k]).valid)
  {
    var r := ScrapeCA(responses, check, effectiveDate, lastUpdated);
    if r.data.Some? {
      var content := ChooseContent(responses, None).value;
      var js := Records(content, check);
      forall k | 0 <= k < |js|
        ensures check(js[k]).valid
      {
        AcceptedMeaning(Candidates(Table(content, TrimUnquote)), check, js[k]);
      }
    }
  }

  /** Once a table is downloaded, the scraper returns data exactly when the
      accepted records number between 50 and 5000 and no case-folded
      `location|county|type` key repeats among them. */
  lemma ScrapeOutcome(responses: seq<Option<string>>, check: Record -> ValidationResult,
                      effectiveDate: string, lastUpdated: string)
    requires ChooseContent(responses, None).Some? && ChooseContent(responses, None).value != ""
    ensures var js := Records(ChooseContent(responses, None).value, check);
            ScrapeCA(responses, check, effectiveDate, lastUpdated).data.Some? <==>
              50 <= |js| <= MaxJurisdictions && KeysDistinct(js, DuplicateKey)
  {
    var content := ChooseContent(responses, None).value;
    var js := Records(content, check);
    forall k | 0 <= k < |js|
      ensures check(js[k]).valid
    {
      AcceptedMeaning(Candidates(Table(content, TrimUnquote)), check, js[k]);
    }
    assert Lower("CA") == "ca";
    DatasetValidity(Assemble(js, effectiveDate, lastUpdated), "CA", check);
  }

  // ---------------------------------------------------------------------------
  // Staging

  /** The `SCRAPERS` registry: the states that have a scraper. */
  const Scrapers: set<string> := {"ca"}

  /** `!!SCRAPERS[state]`, with the registry read as `access` says; as
      written, by property access, an inherited member such as
      `constructor` counts as a scraper. */
  predicate Registered(state: string, access: Access) {
    HasProperty(Scrapers, state, access)
  }

  /** The first loop of `main`: each result that carries data is written as
      `<state>-tax-rates.json`. */
  function StageScraped(results: seq<ScraperResult>, staged: map<string, Dataset>): map<string, Dataset>
    decreases |results|
  {
    if results == [] then staged
    else
      var before := StageScraped(results[..|results| - 1], staged);
      var r := results[|results| - 1];
      if r.data.Some? then before[r.state + DataFileSuffix := r.data.value] else before
  }

  /** The second loop of `main`: every committed data file of `files` (the
      listing) whose state has no scraper is copied into the staging area,
      byte for byte.  A copy of a file that does not parse (absent from
      `committed`) leaves a staged file that does not parse either. */
  function StageCopies(files: seq<string>, committed: map<string, Dataset>, staged: map<string, Dataset>,
                       access: Access): map<string, Dataset>
    decreases |files|
  {
    if files == [] then staged
    else
      var before := StageCopies(files[..|files| - 1], committed, staged, access);
      var f := files[|files| - 1];
      if Registered(StateName(f), access) then before
      else if f in committed then before[f := committed[f]]
      else before - {f}
  }

  /** The staging area after `main`, given the scrapers' results, the
      listing of the committed data directory and its files. */
  function StageSpec(results: seq<ScraperResult>, listing: seq<string>,
                     committed: map<string, Dataset>, staged: map<string, Dataset>, access: Access): map<string, Dataset>
  {
    StageCopies(DataFiles(listing), committed, StageScraped(results, staged), access)
  }

  /** The two loops of `main`, without the console and the summary file,
      with the registry read as `access` says. */
  method Stage(results: seq<ScraperResult>, listing: seq<string>,
               committed: map<string, Dataset>, staged: map<string, Dataset>, access: Access)
    returns (out: map<string, Dataset>)
    ensures out == StageSpec(results, listing, committed, staged, access)
  {
    out := staged;
    for i := 0 to |results|
      invariant out == StageScraped(results[..i], staged)
    {
      assert results[..i + 1][..i] == results[..i];
      if results[i].data.Some? {
        out := out[results[i].state + DataFileSuffix := results[i].data.value];
      }
    }
    assert results[..|results|] == results;
    var files := DataFiles(listing);
    var scraped := out;
    for i := 0 to |files|
      invariant out == StageCopies(files[..i], committed, scraped, access)
    {
      assert files[..i + 1][..i] == files[..i];
      var f := files[i];
      if !Registered(StateName(f), access) {
        if f in committed {
          out := out[f := committed[f]];
        } else {
          out := out - {f};
        }
      }
    }
    assert files[..|files|] == files;
  }

  /** A committed data file of a state without a scraper reaches the staging
      area unchanged; one that does not parse leaves no parsed staged file. */
  lemma {:induction false} CopiedForward(files: seq<string>, committed: map<string, Dataset>,
                                         staged: map<string, Dataset>, access: Access, f: string)
    requires f in files && !Registered(StateName(f), access)
    ensures f in committed ==> f in StageCopies(files, committed, staged, access) &&
                               StageCopies(files, committed, staged, access)[f] == committed[f]
    ensures f !in committed ==> f !in StageCopies(files, committed, staged, access)
    decreases |files|
  {
    var init := files[..|files| - 1];
    if files[|files| - 1] != f {
      assert files == init + [files[|files| - 1]];
      CopiedForward(init, committed, staged, access, f);
    }
  }

  /** The copy loop leaves every other file as it found it, in particular the
      files of registered states. */
  lemma {:induction false} CopiesLeaveOthers(files: seq<string>, committed: map<string, Dataset>,
                                             staged: map<string, Dataset>, access: Access, f: string)
    requires f !in files || Registered(StateName(f), access)
    ensures f in StageCopies(files, committed, staged, access) <==> f in staged
    ensures f in staged ==> StageCopies(files, committed, staged, access)[f] == staged[f]
    decreases |files|
  {
    if files != [] {
      var init := files[..|files| - 1];
      assert files == init + [files[|files| - 1]];
      CopiesLeaveOthers(init, committed, staged, access, f);
    }
  }

  /** What California's scraper returned is what the staging area holds for
      `ca-tax-rates.json`: the copy loop never overwrites it. */
  lemma ScrapedFileStaged(results: seq<ScraperResult>, listing: seq<string>,
                          committed: map<string, Dataset>, staged: map<string, Dataset>, access: Access)
    ensures var file := "ca" + DataFileSuffix;
            var scraped := StageScraped(results, staged);
            (file in StageSpec(results, listing, committed, staged, access) <==> file in scraped) &&
            (file in scraped ==> StageSpec(results, listing, committed, staged, access)[file] == scraped[file])
  {
    StateNameOfShortState("ca");
    CopiesLeaveOthers(DataFiles(listing), committed, StageScraped(results, staged), access, "ca" + DataFileSuffix);
  }

  const ConstructorState := "constructor"

  /** As written, a committed `constructor-tax-rates.json` is never copied:
      `SCRAPERS["constructor"]` finds the inherited constructor, so the
      state counts as having a scraper, and the staging area keeps whatever
      it had for that file. */
  lemma PrototypeStateNotCopied(files: seq<string>, committed: map<string, Dataset>, staged: map<string, Dataset>)
    ensures var f := ConstructorState + DataFileSuffix;
            (f in StageCopies(files, committed, staged, PropertyAccess) <==> f in staged) &&
            (f in staged ==> StageCopies(files, committed, staged, PropertyAccess)[f] == staged[f])
  {
    StateNameOfShortState(ConstructorState);
    CopiesLeaveOthers(files, committed, staged, PropertyAccess, ConstructorState + DataFileSuffix);
  }

  /** Read by own keys, the registry knows no such state, and the committed
      file is copied forward like that of any other state without a scraper. */
  lemma PrototypeStateCopied(files: seq<string>, committed: map<string, Dataset>, staged: map<string, Dataset>)
    requires ConstructorState + DataFileSuffix in files && ConstructorState + DataFileSuffix in committed
    ensures var f := ConstructorState + DataFileSuffix;
            f in StageCopies(files, committed, staged, OwnKeys) &&
            StageCopies(files, committed, staged, OwnKeys)[f] == committed[f]
  {
    StateNameOfShortState(ConstructorState);
    CopiedForward(files, committed, staged, OwnKeys, ConstructorState + DataFileSuffix);
  }

  /** The last result that carries data for a state is what its file holds
      after the first loop. */
  lemma {:induction false} LastScrapeWins(results: seq<ScraperResult>, staged: map<string, Dataset>, i: nat)
    requires i < |results| && results[i].data.Some?
    requires forall k :: i < k < |results| ==> results[k].data.None? || results[k].state != results[i].state
    ensures results[i].state + DataFileSuffix in StageScraped(results, staged)
    ensures StageScraped(results, staged)[results[i].state + DataFileSuffix] == results[i].data.value
    decreases |results|
  {
    var last := results[|results| - 1];
    if i < |results| - 1 {
      LastScrapeWins(results[..|results| - 1], staged, i);
      if last.data.Some? {
        assert last.state != results[i].state;
        assert last.state + DataFileSuffix != results[i].state + DataFileSuffix by {
          if |last.state| == |results[i].state| {
            var k :| 0 <= k < |last.state| && last.state[k] != results[i].state[k];
            assert (last.state + DataFileSuffix)[k] == last.state[k];
            assert (results[i].state + DataFileSuffix)[k] == results[i].state[k];
          }
        }
      }
    }
  }
}
