/** The ZIP table compaction of `scripts/refresh-avalara-zip-rates.ts`: an
    Avalara ZIP5 table becomes a map from five-digit ZIP code to a compact
    entry, keeping for each ZIP the row with the highest combined rate. */
module ZipRates {
  import opened Wrappers
  import opened Strings
  import opened Numbers

  /** `{ r, n, s?, co?, ci?, sp? }`: combined rate, region name and the
      optional state, county, city and special parts. */
  datatype ZipEntry = ZipEntry(r: Number, n: string, s: Option<Number>, co: Option<Number>,
                               ci: Option<Number>, sp: Option<Number>)

  /** The column of each field, -1 when the header has none. */
  datatype Columns = Columns(zip: int, name: int, combined: int, stateRate: int,
                             county: int, city: int, special: int)

  // ---------------------------------------------------------------------------
  // Cells

  /** `round`: to five decimals. */
  function Round(n: Number): (r: Number)
    ensures n.Finite? ==> r.Finite? && -0.000005 < r.x - n.x <= 0.000005
    ensures !n.Finite? ==> r == n
  {
    assert Pow10(5) == 100000;
    RoundTo(n, 5)
  }

  /** `.replace(/^"|"$/g, '')`: one leading and one trailing double quote removed. */
  function StripQuotes(s: string): (r: string)
    ensures '"' !in s ==> r == s
    ensures |s| >= 2 && s[0] == '"' && s[|s| - 1] == '"' ==> r == s[1..|s| - 1]
  {
    var t := if s != [] && s[0] == '"' then s[1..] else s;
    if t != [] && t[|t| - 1] == '"' then t[..|t| - 1] else t
  }

  /** A line split at every comma, each cell trimmed and unquoted. */
  function Cells(line: string): (r: seq<string>)
    ensures |r| == |Split(line, ',')|
  {
    var parts := Split(line, ',');
    seq(|parts|, i requires 0 <= i < |parts| => StripQuotes(Trim(parts[i])))
  }

  /** `content.split('\n').filter(l => l.trim())`. */
  function NonBlankLines(lines: seq<string>): (r: seq<string>)
    ensures |r| <= |lines|
    ensures forall k :: 0 <= k < |r| ==> Trim(r[k]) != ""
  {
    if lines == [] then []
    else (if Trim(lines[0]) != "" then [lines[0]] else []) + NonBlankLines(lines[1..])
  }

  /** The first column whose lower-case name contains `word`, or -1 (a
      `findIndex` with a case-insensitive unanchored pattern). */
  function ColumnContaining(header: seq<string>, word: string, from: nat): (r: int)
    requires from <= |header|
    ensures r == -1 || (from <= r < |header| && Contains(Lower(header[r]), word))
    ensures forall k :: from <= k < (if r == -1 then |header| else r) ==> !Contains(Lower(header[k]), word)
    decreases |header| - from
  {
    if from == |header| then -1
    else if Contains(Lower(header[from]), word) then from
    else ColumnContaining(header, word, from + 1)
  }

  /** The first column whose lower-case name is `word`, or -1 (the anchored
      `/^staterate$/i`). */
  function ColumnNamed(header: seq<string>, word: string, from: nat): (r: int)
    requires from <= |header|
    ensures r == -1 || (from <= r < |header| && Lower(header[r]) == word)
    ensures forall k :: from <= k < (if r == -1 then |header| else r) ==> Lower(header[k]) != word
    decreases |header| - from
  {
    if from == |header| then -1
    else if Lower(header[from]) == word then from
    else ColumnNamed(header, word, from + 1)
  }

  const ZipWord := "zip"
  const NameWord := "taxregionname"
  const CombinedWord := "estimatedcombinedrate"
  const StateRateWord := "staterate"
  const CountyWord := "estimatedcountyrate"
  const CityWord := "estimatedcityrate"
  const SpecialWord := "estimatedspecialrate"

  function FindColumns(header: seq<string>): Columns {
    Columns(ColumnContaining(header, ZipWord, 0), ColumnContaining(header, NameWord, 0),
            ColumnContaining(header, CombinedWord, 0), ColumnNamed(header, StateRateWord, 0),
            ColumnContaining(header, CountyWord, 0), ColumnContaining(header, CityWord, 0),
            ColumnContaining(header, SpecialWord, 0))
  }

  /** `parseFloat(cols[idx]) || 0`, and 0 without the column: NaN and a
      missing cell read as 0. */
  function RateCell(cols: seq<string>, idx: int): (r: Number)
    ensures !r.NaN?
    ensures NonZero(r) ==> 0 <= idx < |cols| && r == ParseFloat(cols[idx])
  {
    if idx < 0 || idx >= |cols| then Finite(0.0)
    else
      var v := ParseFloat(cols[idx]);
      if NonZero(v) then v else Finite(0.0)
  }

  /** An optional part: present, rounded, only when it is not zero. */
  function Part(v: Number): Option<Number> {
    if NonZero(v) then Some(Round(v)) else None
  }

  /** The entry of one data line, with its ZIP, or None when the line is
      skipped: no ZIP cell, or a ZIP longer than five UTF-16 code units. */
  function LineEntry(line: string, ix: Columns): Option<(string, ZipEntry)>
    requires ix.zip >= 0
  {
    var cols := Cells(line);
    if ix.zip >= |cols| then None
    else
      var zip := PadStart(cols[ix.zip], 5, '0');
      if Utf16Length(zip) != 5 then None
      else
        Some((zip, LineRates(cols, ix)))
  }

  /** The entry a kept line stores: the rounded combined rate, the region
      name upper-cased, and the four parts. */
  function LineRates(cols: seq<string>, ix: Columns): ZipEntry {
    var name := if 0 <= ix.name < |cols| then Upper(cols[ix.name]) else "";
    ZipEntry(Round(RateCell(cols, ix.combined)), name,
             Part(RateCell(cols, ix.stateRate)), Part(RateCell(cols, ix.county)),
             Part(RateCell(cols, ix.city)), Part(RateCell(cols, ix.special)))
  }

  /** The entries of the data lines, in order, skipped lines left out. */
  function Entries(lines: seq<string>, ix: Columns): (r: seq<(string, ZipEntry)>)
    requires ix.zip >= 0
    decreases |lines|
  {
    if lines == [] then []
    else
      var e := LineEntry(lines[|lines| - 1], ix);
      Entries(lines[..|lines| - 1], ix) + (if e.Some? then [e.value] else [])
  }

  /** The keep-highest rule of one line: a new ZIP is stored, a known one is
      replaced only by a strictly higher combined rate. */
  function Keep(result: map<string, ZipEntry>, zip: string, entry: ZipEntry): map<string, ZipEntry> {
    if zip !in result || Less(result[zip].r, entry.r) then result[zip := entry] else result
  }

  /** The map after the entries have been kept in order. */
  function Compact(entries: seq<(string, ZipEntry)>): map<string, ZipEntry>
    decreases |entries|
  {
    if entries == [] then map[]
    else
      var last := entries[|entries| - 1];
      Keep(Compact(entries[..|entries| - 1]), last.0, last.1)
  }

  /** `parseAvalaraCsv`. */
  function ParseAvalara(content: string): map<string, ZipEntry> {
    var lines := NonBlankLines(Split(content, '\n'));
    if |lines| < 2 then map[]
    else
      var ix := FindColumns(Cells(lines[0]));
      if ix.zip < 0 || ix.combined < 0 then map[]
      else Compact(Entries(lines[1..], ix))
  }

  /** The loop of `parseAvalaraCsv` over the data lines. */
  method ParseAvalaraCsv(content: string) returns (result: map<string, ZipEntry>)
    ensures result == ParseAvalara(content)
  {
    var lines := NonBlankLines(Split(content, '\n'));
    if |lines| < 2 {
      return map[];
    }
    var ix := FindColumns(Cells(lines[0]));
    if ix.zip < 0 || ix.combined < 0 {
      return map[];
    }
    var body := lines[1..];
    result := map[];
    ghost var seen: seq<(string, ZipEntry)> := [];
    for i := 0 to |body|
      invariant seen == Entries(body[..i], ix)
      invariant result == Compact(seen)
    {
      EntriesStep(body, i, ix);
      var e := LineEntry(body[i], ix);
      if e.Some? {
        var (zip, entry) := e.value;
        CompactStep(seen, e.value);
        seen := seen + [e.value];
        if zip !in result || Less(result[zip].r, entry.r) {
          result := result[zip := entry];
        }
      }
    }
    assert body[..|body|] == body;
  }

  /** The entries of one more line. */
  lemma EntriesStep(lines: seq<string>, i: nat, ix: Columns)
    requires ix.zip >= 0 && i < |lines|
    ensures var e := LineEntry(lines[i], ix);
            Entries(lines[..i + 1], ix) == Entries(lines[..i], ix) + (if e.Some? then [e.value] else [])
  {
    assert lines[..i + 1][..i] == lines[..i];
  }

  /** Compacting one more entry applies the keep-highest rule to it. */
  lemma CompactStep(entries: seq<(string, ZipEntry)>, e: (string, ZipEntry))
    ensures Compact(entries + [e]) == Keep(Compact(entries), e.0, e.1)
  {
    assert (entries + [e])[..|entries|] == entries;
  }

  // ---------------------------------------------------------------------------
  // Properties

  /** Fewer than two non-blank lines, or a header without a ZIP or combined
      rate column, give the empty map. */
  lemma EmptyCases(content: string)
    ensures var lines := NonBlankLines(Split(content, '\n'));
            |lines| < 2 || FindColumns(Cells(lines[0])).zip == -1 || FindColumns(Cells(lines[0])).combined == -1
            ==> ParseAvalara(content) == map[]
  {
  }

  /** Every entry a line yields has a ZIP five code units long, a combined rate
      that is never NaN, the region name upper-cased (empty without its
      column), and each optional part present exactly when that cell reads
      as a non-zero number. */
  lemma LineEntryShape(line: string, ix: Columns)
    requires ix.zip >= 0
    ensures var e := LineEntry(line, ix);
            var cols := Cells(line);
            e.Some? ==>
              Utf16Length(e.value.0) == 5 && !e.value.1.r.NaN? &&
              e.value.1.n == (if 0 <= ix.name < |cols| then Upper(cols[ix.name]) else "") &&
              (e.value.1.s.Some? <==> NonZero(RateCell(cols, ix.stateRate))) &&
              (e.value.1.co.Some? <==> NonZero(RateCell(cols, ix.county))) &&
              (e.value.1.ci.Some? <==> NonZero(RateCell(cols, ix.city))) &&
              (e.value.1.sp.Some? <==> NonZero(RateCell(cols, ix.special)))
  {
  }

  /** A line is kept exactly when it has a ZIP cell of at most five UTF-16
      code units; shorter ZIPs are left-padded with zeros. */
  lemma LineKept(line: string, ix: Columns)
    requires ix.zip >= 0
    ensures var cols := Cells(line);
            LineEntry(line, ix).Some? <==> ix.zip < |cols| && Utf16Length(cols[ix.zip]) <= 5
    ensures var cols := Cells(line);
            LineEntry(line, ix).Some? ==>
              LineEntry(line, ix).value.0 == Repeat('0', 5 - Utf16Length(cols[ix.zip])) + cols[ix.zip]
  {
    var cols := Cells(line);
    if ix.zip < |cols| {
      PadToFive(cols[ix.zip]);
    }
  }

  /** Zero-padding a cell to five code units reaches five exactly when the
      cell has at most five. */
  lemma PadToFive(cell: string)
    ensures Utf16Length(PadStart(cell, 5, '0')) == 5 <==> Utf16Length(cell) <= 5
    ensures Utf16Length(cell) <= 5 ==> PadStart(cell, 5, '0') == Repeat('0', 5 - Utf16Length(cell)) + cell
  {
    PadStartLength(cell, 5, '0');
    if Utf16Length(cell) == 5 {
      assert Repeat('0', 0) + cell == cell;
    }
  }

  /** As written, a line whose ZIP cell is empty is not skipped: the padding
      turns it into the key "00000". */
  lemma EmptyZipCellBecomesZeros(line: string, ix: Columns)
    requires ix.zip >= 0 && ix.zip < |Cells(line)| && Cells(line)[ix.zip] == ""
    ensures LineEntry(line, ix).Some? && LineEntry(line, ix).value.0 == "00000"
  {
    PadStartLength("", 5, '0');
  }

  /** Every entry of the entries has a non-NaN combined rate and a ZIP
      five code units long. */
  lemma {:induction false} EntriesShape(lines: seq<string>, ix: Columns)
    requires ix.zip >= 0
    ensures forall k :: 0 <= k < |Entries(lines, ix)| ==>
              !Entries(lines, ix)[k].1.r.NaN? && Utf16Length(Entries(lines, ix)[k].0) == 5
    decreases |lines|
  {
    if lines != [] {
      EntriesShape(lines[..|lines| - 1], ix);
      LineEntryShape(lines[|lines| - 1], ix);
    }
  }

  /** The ZIPs of the map are exactly the ZIPs of the entries. */
  lemma {:induction false} CompactKeys(entries: seq<(string, ZipEntry)>, zip: string)
    ensures zip in Compact(entries) <==> exists i :: 0 <= i < |entries| && entries[i].0 == zip
    decreases |entries|
  {
    if entries != [] {
      var init := entries[..|entries| - 1];
      CompactKeys(init, zip);
      assert forall i :: 0 <= i < |init| ==> init[i] == entries[i];
    }
  }

  /** Each ZIP keeps the first of its entries with the highest combined
      rate: every earlier entry for that ZIP is strictly lower and no later
      one is strictly higher. */
  predicate KeptIsFirstMax(entries: seq<(string, ZipEntry)>, zip: string, i: int) {
    0 <= i < |entries| && entries[i].0 == zip &&
    (forall j :: 0 <= j < i && entries[j].0 == zip ==> Less(entries[j].1.r, entries[i].1.r)) &&
    (forall j :: i < j < |entries| && entries[j].0 == zip ==> !Less(entries[i].1.r, entries[j].1.r))
  }

  lemma {:induction false} CompactKeepsFirstMax(entries: seq<(string, ZipEntry)>, zip: string)
    requires forall k :: 0 <= k < |entries| ==> !entries[k].1.r.NaN?
    requires zip in Compact(entries)
    ensures exists i :: KeptIsFirstMax(entries, zip, i) && Compact(entries)[zip] == entries[i].1
    decreases |entries|
  {
    var n := |entries| - 1;
    var init, last := entries[..n], entries[n];
    assert forall k :: 0 <= k < n ==> init[k] == entries[k];
    if zip in Compact(init) {
      CompactKeepsFirstMax(init, zip);
      var i :| KeptIsFirstMax(init, zip, i) && Compact(init)[zip] == init[i].1;
      FirstMaxExtended(entries, zip, i);
    } else {
      CompactKeys(init, zip);
      assert KeptIsFirstMax(entries, zip, n);
    }
  }

  /** One more entry either takes over as the first maximum of its ZIP (when
      strictly higher) or leaves the kept one in place. */
  lemma FirstMaxExtended(entries: seq<(string, ZipEntry)>, zip: string, i: int)
    requires |entries| > 0
    requires forall k :: 0 <= k < |entries| ==> !entries[k].1.r.NaN?
    requires KeptIsFirstMax(entries[..|entries| - 1], zip, i)
    ensures var n := |entries| - 1;
            if entries[n].0 == zip && Less(entries[i].1.r, entries[n].1.r)
            then KeptIsFirstMax(entries, zip, n)
            else KeptIsFirstMax(entries, zip, i)
  {
    var n := |entries| - 1;
    var last := entries[n];
    assert forall k :: 0 <= k < n ==> entries[..n][k] == entries[k];
    if last.0 == zip && Less(entries[i].1.r, last.1.r) {
      forall j | 0 <= j < n && entries[j].0 == zip
        ensures Less(entries[j].1.r, last.1.r)
      {
        if j < i {
          LessTransitive(entries[j].1.r, entries[i].1.r, last.1.r);
        } else if j > i {
          LessTotal(entries[i].1.r, entries[j].1.r);
          if Less(entries[j].1.r, entries[i].1.r) {
            LessTransitive(entries[j].1.r, entries[i].1.r, last.1.r);
          }
        }
      }
    }
  }

  /** Every key of the result is a ZIP five code units long, and the entry kept
      for it is the first of its lines with the highest combined rate. */
  lemma ParsedZipTable(content: string, zip: string)
    requires zip in ParseAvalara(content)
    ensures Utf16Length(zip) == 5
    ensures var lines := NonBlankLines(Split(content, '\n'));
            var ix := FindColumns(Cells(lines[0]));
            ix.zip >= 0 &&
            exists i :: KeptIsFirstMax(Entries(lines[1..], ix), zip, i) &&
                        ParseAvalara(content)[zip] == Entries(lines[1..], ix)[i].1
  {
    var lines := NonBlankLines(Split(content, '\n'));
    var ix := FindColumns(Cells(lines[0]));
    var es := Entries(lines[1..], ix);
    EntriesShape(lines[1..], ix);
    CompactKeys(es, zip);
    CompactKeepsFirstMax(es, zip);
  }
}
