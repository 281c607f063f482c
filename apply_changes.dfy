/** The apply step of `scripts/auto-update/apply-changes.ts`: when the diff
    report allows it, copy each staged data file whose content differs over
    the committed one, and insert a changelog entry after the first line of
    `CHANGELOG.md`.  Directories are maps from file name to content; the
    report is the one `RateDiff` writes; today's date is a parameter. */
module ApplyChanges {
  import opened Wrappers
  import opened Strings
  import opened Numbers
  import opened Json
  import opened StagedFiles
  import opened RateDiff

  const ShownRateChanges := 20

  // ---------------------------------------------------------------------------
  // Copying the staged files

  /** What `readFileSync` gives for a committed file, `''` when it is missing. */
  function Current(data: map<string, string>, f: string): string {
    if f in data then data[f] else ""
  }

  /** The files of `files` whose staged content differs from the committed one. */
  function Changed(files: seq<string>, staged: map<string, string>, data: map<string, string>): set<string>
    requires forall f :: f in files ==> f in staged
  {
    set f | f in files && staged[f] != Current(data, f)
  }

  /** The copy loop over `files`: the data directory afterwards, and the
      number of copies.  A file is copied when its staged content differs
      from what the directory holds at that point. */
  function CopyRun(files: seq<string>, staged: map<string, string>, data: map<string, string>): (map<string, string>, nat)
    requires forall f :: f in files ==> f in staged
    decreases |files|
  {
    if files == [] then (data, 0)
    else
      var (m, applied) := CopyRun(files[..|files| - 1], staged, data);
      var f := files[|files| - 1];
      if staged[f] != Current(m, f) then (m[f := staged[f]], applied + 1) else (m, applied)
  }

  lemma CopyStep(files: seq<string>, i: nat, staged: map<string, string>, data: map<string, string>)
    requires i < |files|
    requires forall f :: f in files ==> f in staged
    ensures var (m, applied) := CopyRun(files[..i], staged, data);
            var f := files[i];
            CopyRun(files[..i + 1], staged, data) ==
              if staged[f] != Current(m, f) then (m[f := staged[f]], applied + 1) else (m, applied)
  {
    assert files[..i + 1][..i] == files[..i];
  }

  /** `main`'s copy loop. */
  method CopyChanged(files: seq<string>, staged: map<string, string>, data: map<string, string>)
    returns (result: map<string, string>, applied: nat)
    requires forall f :: f in files ==> f in staged
    ensures (result, applied) == CopyRun(files, staged, data)
  {
    result := data;
    applied := 0;
    for i := 0 to |files|
      invariant (result, applied) == CopyRun(files[..i], staged, data)
    {
      CopyStep(files, i, staged, data);
      var file := files[i];
      var stagedContent := staged[file];
      var currentContent := if file in result then result[file] else "";
      if stagedContent != currentContent {
        result := result[file := stagedContent];
        applied := applied + 1;
      }
    }
    assert files[..|files|] == files;
  }

  /** After the loop every staged file reads as its staged content, and is
      present unless it was missing and the staged content is empty; every
      other file is untouched. */
  lemma {:induction false} CopyRunFile(files: seq<string>, staged: map<string, string>, data: map<string, string>, f: string)
    requires forall g :: g in files ==> g in staged
    ensures var m := CopyRun(files, staged, data).0;
            (f in files ==> Current(m, f) == staged[f] && (f in m <==> f in data || staged[f] != "")) &&
            (f !in files ==> Current(m, f) == Current(data, f) && (f in m <==> f in data))
    decreases |files|
  {
    if files != [] {
      var pre := files[..|files| - 1];
      CopyRunFile(pre, staged, data, f);
      assert files == pre + [files[|files| - 1]];
    }
  }

  /** The number of copies is the number of staged files whose content
      differs from the committed content. */
  lemma {:induction false} CopyRunCount(files: seq<string>, staged: map<string, string>, data: map<string, string>)
    requires forall g :: g in files ==> g in staged
    ensures CopyRun(files, staged, data).1 == |Changed(files, staged, data)|
    decreases |files|
  {
    if files != [] {
      var pre, f := files[..|files| - 1], files[|files| - 1];
      assert files == pre + [f];
      CopyRunCount(pre, staged, data);
      CopyRunFile(pre, staged, data, f);
      ChangedStep(pre, f, staged, data);
    }
  }

  lemma ChangedStep(pre: seq<string>, f: string, staged: map<string, string>, data: map<string, string>)
    requires forall g :: g in pre + [f] ==> g in staged
    ensures Changed(pre + [f], staged, data) ==
            if f in pre || staged[f] == Current(data, f) then Changed(pre, staged, data)
            else Changed(pre, staged, data) + {f}
  {
  }

  // ---------------------------------------------------------------------------
  // The changelog entry

  /** The lines of a changelog entry, before they are written out. */
  datatype EntryLine =
    | Blank
    | Heading(date: string)
    | Summary(changed: nat, percent: Number)
    | RatesHeader
    | RateLine(change: RateChange)
    | MoreRates(count: nat)
    | AddedCount(added: nat)
    | RemovedCount(removed: nat)

  /** `(rate * 100).toFixed(2)`. */
  function PercentText(rate: Value): string {
    ToFixed(Scale(ToNumber(rate), 100.0), 2)
  }

  /** The text of each line. */
  function Render(line: EntryLine): string {
    match line
    case Blank => ""
    case Heading(date) => "## [auto-update] " + date
    case Summary(changed, percent) =>
      "- **" + NatText(changed) + "** jurisdictions updated (" + NumberText(percent) + "% of total)"
    case RatesHeader => "- Rate changes:"
    case RateLine(c) =>
      "  - " + c.state + " " + Text(c.location) + ": " + PercentText(c.oldRate) + "% → " + PercentText(c.newRate) + "%"
    case MoreRates(k) => "  - ... and " + NatText(k) + " more"
    case AddedCount(n) => "- **" + NatText(n) + "** new jurisdictions added"
    case RemovedCount(n) => "- **" + NatText(n) + "** jurisdictions removed"
  }

  /** The rate-change section: a header, the first twenty changes, and a
      line for the rest; nothing when there are no changes. */
  function RateSection(changes: seq<RateChange>): seq<EntryLine> {
    if |changes| == 0 then []
    else
      var shown := Take(changes, ShownRateChanges);
      [RatesHeader] + seq(|shown|, i requires 0 <= i < |shown| => RateLine(shown[i])) +
      (if |changes| > ShownRateChanges then [MoreRates(|changes| - ShownRateChanges)] else [])
  }

  function EntryLines(report: DiffReport, today: string): seq<EntryLine> {
    [Blank, Heading(today), Blank, Summary(report.changedJurisdictions, report.changePercent)] +
    RateSection(report.rateChanges) +
    (if |report.newJurisdictions| > 0 then [AddedCount(|report.newJurisdictions|)] else []) +
    (if |report.removedJurisdictions| > 0 then [RemovedCount(|report.removedJurisdictions|)] else []) +
    [Blank]
  }

  function RenderAll(lines: seq<EntryLine>): (r: seq<string>)
    ensures |r| == |lines|
    ensures forall i :: 0 <= i < |lines| ==> r[i] == Render(lines[i])
  {
    seq(|lines|, i requires 0 <= i < |lines| => Render(lines[i]))
  }

  /** `changelogEntry`: the lines joined with newlines. */
  function Entry(report: DiffReport, today: string): string {
    Join(RenderAll(EntryLines(report, today)), "\n")
  }

  /** The rate-change section lists the first min(n, 20) changes in order
      after its header, and ends with a line counting the rest exactly when
      there are more than 20. */
  lemma RateSectionShape(changes: seq<RateChange>)
    ensures var s := RateSection(changes);
            var n := |changes|;
            var shown := if n < ShownRateChanges then n else ShownRateChanges;
            (n == 0 <==> s == []) &&
            (n > 0 ==> s[0] == RatesHeader &&
                       |s| == 1 + shown + (if n > ShownRateChanges then 1 else 0) &&
                       (forall i :: 0 <= i < shown ==> s[1 + i] == RateLine(changes[i])) &&
                       (s[|s| - 1].MoreRates? <==> n > ShownRateChanges) &&
                       (n > ShownRateChanges ==> s[|s| - 1].count == n - ShownRateChanges))
  {
  }

  /** The count lines appear exactly when their list is non-empty. */
  lemma EntryCountLines(report: DiffReport, today: string)
    ensures var lines := EntryLines(report, today);
            (forall k :: AddedCount(k) in lines <==> k == |report.newJurisdictions| > 0) &&
            (forall k :: RemovedCount(k) in lines <==> k == |report.removedJurisdictions| > 0) &&
            lines[1] == Heading(today) && lines[|lines| - 1] == Blank
  {
    var lines := EntryLines(report, today);
    var rs := RateSection(report.rateChanges);
    assert forall i :: 0 <= i < |rs| ==> !rs[i].AddedCount? && !rs[i].RemovedCount?;
  }

  // ---------------------------------------------------------------------------
  // Inserting the entry

  /** The new `CHANGELOG.md`: the entry goes right after the first line,
      at the end of a file without a newline, or under a fresh heading when
      there is no file. */
  function InsertEntry(existing: Option<string>, entry: string): string {
    if existing.None? then "# Changelog\n" + entry
    else
      var text := existing.value;
      var firstHeadingEnd := IndexOf(text, "\n");
      if firstHeadingEnd > -1 then text[..firstHeadingEnd + 1] + entry + text[firstHeadingEnd + 1..]
      else text + entry
  }

  /** Cutting the entry back out of the new changelog gives the old one: it
      sits right after the first newline, or at the end of a file without one. */
  lemma InsertEntryInverse(text: string, entry: string)
    ensures var r := InsertEntry(Some(text), entry);
            var cut := if '\n' in text then IndexOf(text, "\n") + 1 else |text|;
            0 <= cut <= |text| && |r| == |text| + |entry| &&
            r[cut..cut + |entry|] == entry &&
            r[..cut] + r[cut + |entry|..] == text &&
            ('\n' in text ==> cut > 0 && text[cut - 1] == '\n' && '\n' !in text[..cut - 1])
  {
    var i := IndexOf(text, "\n");
    if '\n' in text {
      var j :| 0 <= j < |text| && text[j] == '\n';
      assert OccursAt(text, "\n", j);
      assert i != -1;
      forall k | 0 <= k < i ensures text[k] != '\n' {
        assert !OccursAt(text, "\n", k);
        assert text[k..k + 1] == [text[k]];
      }
    } else {
      forall k | 0 <= k <= |text| ensures !OccursAt(text, "\n", k) {
        if k < |text| {
          assert text[k..k + 1] == [text[k]];
        }
      }
    }
    var r := InsertEntry(Some(text), entry);
    var cut := if i > -1 then i + 1 else |text|;
    assert r == text[..cut] + entry + text[cut..];
    assert r[..cut] == text[..cut];
    assert r[cut + |entry|..] == text[cut..];
    assert text[..cut] + text[cut..] == text;
  }

  /** Without a changelog the file starts with its heading and then the entry. */
  lemma NewChangelog(entry: string)
    ensures InsertEntry(None, entry) == "# Changelog\n" + entry
    ensures StartsWith(InsertEntry(None, entry), "# Changelog\n")
  {
    assert InsertEntry(None, entry)[..|"# Changelog\n"|] == "# Changelog\n";
  }

  // ---------------------------------------------------------------------------
  // main

  /** What `main` leaves behind: the exit code, the data directory and the
      changelog.  `report` is None when `diff-report.json` is missing. */
  datatype Outcome = Outcome(exitCode: int, data: map<string, string>, changelog: Option<string>)

  /** Whether `main` gets past its guards. */
  predicate Proceeds(report: DiffReport) {
    report.autoDeployable && report.changedJurisdictions != 0
  }

  /** `main` of `apply-changes.ts`; the staged directory lists `listing`,
      whose contents are `staged`. */
  method Apply(report: Option<DiffReport>, listing: seq<string>, staged: map<string, string>,
               data: map<string, string>, changelog: Option<string>, today: string)
    returns (r: Outcome, applied: nat)
    requires forall f :: f in listing ==> f in staged
    ensures report.None? ==> r == Outcome(1, data, changelog)
    ensures report.Some? && !Proceeds(report.value) ==> r == Outcome(0, data, changelog)
    ensures report.Some? && Proceeds(report.value) ==>
              r == Outcome(0, CopyRun(DataFiles(listing), staged, data).0,
                           Some(InsertEntry(changelog, Entry(report.value, today)))) &&
              applied == CopyRun(DataFiles(listing), staged, data).1
  {
    applied := 0;
    if report.None? {
      return Outcome(1, data, changelog), applied;
    }
    if !report.value.autoDeployable {
      return Outcome(0, data, changelog), applied;
    }
    if report.value.changedJurisdictions == 0 {
      return Outcome(0, data, changelog), applied;
    }
    var files := DataFiles(listing);
    var newData;
    newData, applied := CopyChanged(files, staged, data);
    var entry := Entry(report.value, today);
    r := Outcome(0, newData, Some(InsertEntry(changelog, entry)));
  }
}
