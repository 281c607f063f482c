/** The one-shot builder of `scripts/parse-csv.ts`: the cleaned CDTFA table
    becomes one jurisdiction record per row, typed, with its percentage text
    and district tax, and the records are indexed by lower-case name in a
    city table and a county table. */
module LookupIndex {
  import opened Wrappers
  import opened Strings
  import opened Numbers
  import opened Json
  import opened Validation
  import opened Csv
  import opened Cdtfa

  // ---------------------------------------------------------------------------
  // Type and percentage

  datatype Kind = City | County | UnincorporatedArea

  function TypeName(k: Kind): string {
    match k
    case City => "City"
    case County => "County"
    case UnincorporatedArea => "Unincorporated Area"
  }

  /** `determineType`: the CDTFA table marks unincorporated areas as counties,
      so the location's wording decides first. */
  function DetermineType(location: string, typeCell: string): Kind {
    if Contains(location, UnincorporatedWord) then UnincorporatedArea
    else if typeCell == CountyWord || Contains(location, CountyWord) then County
    else City
  }

  const UnincorporatedWord := "Unincorporated Area"
  const CountyWord := "County"

  /** Every type the builder writes is one the record validator recognises. */
  lemma TypeNamesRecognised(k: Kind)
    ensures RecognisedType(Str(TypeName(k)))
  {
    assert TypeName(k) == ValidTypes[if k == City then 1 else if k == County then 2 else 5];
  }

  /** `formatRatePercent`: the rate times 100, with three decimals when the
      rounding to three differs from the rounding to two by more than 0.0001. */
  function FormatRatePercent(rate: Number): string {
    var pct := Scale(rate, 100.0);
    var rounded3, rounded2 := RoundTo(pct, 3), RoundTo(pct, 2);
    if Above(Abs(Sub(rounded3, rounded2)), 0.0001) then ToFixed(rounded3, 3) + "%"
    else ToFixed(rounded2, 2) + "%"
  }

  /** The two roundings lie on the grid of thousandths, so they differ by
      more than 0.0001 exactly when they differ at all: three decimals are
      written exactly when the third decimal of the rounded percentage is not
      zero. */
  lemma ThirdDecimalRule(rate: Number)
    ensures var pct := Scale(rate, 100.0);
            FormatRatePercent(rate) ==
              if RoundTo(pct, 3) != RoundTo(pct, 2) then ToFixed(RoundTo(pct, 3), 3) + "%"
              else ToFixed(RoundTo(pct, 2), 2) + "%"
  {
    GridGap(Scale(rate, 100.0));
  }

  /** Two roundings of one number to three and two decimals differ by more
      than 0.0001 exactly when they differ. */
  lemma GridGap(pct: Number)
    ensures Above(Abs(Sub(RoundTo(pct, 3), RoundTo(pct, 2))), 0.0001) <==> RoundTo(pct, 3) != RoundTo(pct, 2)
  {
    if pct.Finite? {
      var k3, k2 := RoundReal(pct.x * 1000.0), RoundReal(pct.x * 100.0);
      assert RoundTo(pct, 3) == Finite(k3 as real / 1000.0) by {
        assert Pow10(3) == 1000;
      }
      assert RoundTo(pct, 2) == Finite(k2 as real / 100.0) by {
        assert Pow10(2) == 100;
      }
      ThousandthsGap(k3, k2);
    }
  }

  /** Thousandths and hundredths differ by at least a thousandth, or not at all. */
  lemma ThousandthsGap(k3: int, k2: int)
    ensures var d := k3 as real / 1000.0 - k2 as real / 100.0;
            (d > 0.0001 || d < -0.0001) <==> d != 0.0
  {
    var m := k3 - 10 * k2;
    assert k3 as real / 1000.0 - k2 as real / 100.0 == m as real / 1000.0;
    if m > 0 {
      assert m as real / 1000.0 >= 0.001;
    } else if m < 0 {
      assert m as real / 1000.0 <= -0.001;
    }
  }

  // ---------------------------------------------------------------------------
  // Records

  /** The rate of a row: `parseFloat(row.Rate)`, NaN when the column is missing. */
  function RateOf(row: map<string, string>): Number {
    ParseFloat(FieldOf(row, "Rate"))
  }

  /** The record of one row of a table that has a Location column (without
      one, reading `row.Location.includes` throws), given the row's parsed
      rate.  A missing County column leaves the county undefined. */
  function RecordOf(row: map<string, string>, rate: Number): Record
    requires "Location" in row
  {
    var location := row["Location"];
    var notes := FieldOf(row, "Notes");
    map[
      "location" := Str(location),
      "type" := Str(TypeName(DetermineType(location, FieldOf(row, "Type")))),
      "county" := if "County" in row then Str(row["County"]) else Undefined,
      "rate" := Num(rate),
      "ratePercent" := Str(FormatRatePercent(rate)),
      "districtTax" := Num(DistrictTax(rate)),
      "notes" := if notes != "" then Str(notes) else Null
    ]
  }

  /** `csvData.map(...)`: one record per row, or None when the rows lack the
      Location column. */
  function Jurisdictions(rows: seq<map<string, string>>): Option<seq<Record>> {
    if forall i :: 0 <= i < |rows| ==> "Location" in rows[i] then
      Some(seq(|rows|, i requires 0 <= i < |rows| => RecordOf(rows[i], RateOf(rows[i]))))
    else None
  }

  /** What every built record holds: its location, a recognised type, a
      non-negative district tax and notes that are null rather than empty. */
  lemma RecordShape(row: map<string, string>, rate: Number)
    requires "Location" in row
    ensures var j := RecordOf(row, rate);
            Get(j, "location") == Str(row["Location"]) &&
            RecognisedType(Get(j, "type")) &&
            Get(j, "districtTax").Num? && !Less(Get(j, "districtTax").n, Finite(0.0)) &&
            (Get(j, "notes") == Null || (Get(j, "notes").Str? && Get(j, "notes").s != ""))
  {
    var j := RecordOf(row, rate);
    var t := DetermineType(row["Location"], FieldOf(row, "Type"));
    TypeNamesRecognised(t);
    assert Get(j, "location") == Str(row["Location"]);
    assert Get(j, "type") == Str(TypeName(t));
    assert Get(j, "districtTax") == Num(DistrictTax(rate));
  }

  // ---------------------------------------------------------------------------
  // The lookup tables

  datatype Lookup = Lookup(byCity: map<string, Record>, byCounty: map<string, Record>)

  /** The data file the builder writes and the resolver reads. */
  datatype TaxRateData = TaxRateData(metadata: Metadata, jurisdictions: seq<Record>, lookup: Lookup)

  predicate IsType(j: Record, name: string) {
    Get(j, "type") == Str(name)
  }

  /** `jurisdiction.location.toLowerCase()`. */
  function Key(j: Record): string {
    Lower(Text(Get(j, "location")))
  }

  const CountySuffix := " county"

  /** `key.replace(/ county$/, '')` for a key that ends in " county". */
  function ShortKey(key: string): (r: string)
    requires EndsWith(key, CountySuffix)
    ensures r + CountySuffix == key
  {
    key[..|key| - |CountySuffix|]
  }

  /** Some City record of the table has this lower-case name. */
  predicate CityNamed(all: seq<Record>, name: string) {
    exists j :: j in all && IsType(j, "City") && Key(j) == name
  }

  /** The keys under which a record is stored in the county table. */
  function CountyKeys(all: seq<Record>, j: Record): set<string> {
    if IsType(j, "County") then
      {Key(j)} + if EndsWith(Key(j), CountySuffix) && !CityNamed(all, ShortKey(Key(j))) then {ShortKey(Key(j))} else {}
    else if IsType(j, "Unincorporated Area") then {Key(j)}
    else {}
  }

  /** The keys under which a record is stored in the city table. */
  function CityKeys(j: Record): set<string> {
    if IsType(j, "County") || IsType(j, "Unincorporated Area") then {} else {Key(j)}
  }

  /** Which table a row's record lands in: the county table for a location
      naming an unincorporated area or a county, or a row typed County; the
      city table otherwise; always under the lower-case location. */
  lemma TablePlacement(row: map<string, string>, rate: Number)
    requires "Location" in row
    ensures var j, loc := RecordOf(row, rate), row["Location"];
            Key(j) == Lower(loc) &&
            (CityKeys(j) == {} <==>
               Contains(loc, UnincorporatedWord) || FieldOf(row, "Type") == CountyWord || Contains(loc, CountyWord)) &&
            (CityKeys(j) == {} <==> Key(j) in CountyKeys([], j))
  {
  }

  /** One turn of the `forEach`, `all` being the whole record list. */
  function Place(all: seq<Record>, j: Record, lk: Lookup): Lookup {
    var key := Key(j);
    if IsType(j, "County") then
      var byCounty := lk.byCounty[key := j];
      if EndsWith(key, CountySuffix) && !CityNamed(all, ShortKey(key)) then
        Lookup(lk.byCity, byCounty[ShortKey(key) := j])
      else Lookup(lk.byCity, byCounty)
    else if IsType(j, "Unincorporated Area") then Lookup(lk.byCity, lk.byCounty[key := j])
    else Lookup(lk.byCity[key := j], lk.byCounty)
  }

  /** One turn writes the record under its keys and nothing else. */
  lemma PlaceMeaning(all: seq<Record>, j: Record, lk: Lookup, k: string)
    ensures var r := Place(all, j, lk);
            (k in r.byCity <==> k in lk.byCity || k in CityKeys(j)) &&
            (k in r.byCity ==> r.byCity[k] == if k in CityKeys(j) then j else lk.byCity[k]) &&
            (k in r.byCounty <==> k in lk.byCounty || k in CountyKeys(all, j)) &&
            (k in r.byCounty ==> r.byCounty[k] == if k in CountyKeys(all, j) then j else lk.byCounty[k])
  {
  }

  /** The tables after the `forEach` has run over `js`. */
  function Index(all: seq<Record>, js: seq<Record>): Lookup
    decreases |js|
  {
    if js == [] then Lookup(map[], map[])
    else Place(all, js[|js| - 1], Index(all, js[..|js| - 1]))
  }

  /** The `forEach` of `buildTaxRateData`. */
  method BuildLookup(js: seq<Record>) returns (lk: Lookup)
    ensures lk == Index(js, js)
  {
    lk := Lookup(map[], map[]);
    for i := 0 to |js|
      invariant lk == Index(js, js[..i])
    {
      assert js[..i + 1][..i] == js[..i];
      var j := js[i];
      var key := Key(j);
      if IsType(j, "County") {
        lk := lk.(byCounty := lk.byCounty[key := j]);
        if EndsWith(key, CountySuffix) {
          var shortKey := ShortKey(key);
          if !CityNamed(js, shortKey) {
            lk := lk.(byCounty := lk.byCounty[shortKey := j]);
          }
        }
      } else if IsType(j, "Unincorporated Area") {
        lk := lk.(byCounty := lk.byCounty[key := j]);
      } else {
        lk := lk.(byCity := lk.byCity[key := j]);
      }
    }
    assert js[..|js|] == js;
  }

  /** A name a record is stored under stays in the city table. */
  lemma {:induction false} CityTableHas(all: seq<Record>, js: seq<Record>, k: string, i: int)
    requires 0 <= i < |js| && k in CityKeys(js[i])
    ensures k in Index(all, js).byCity
    decreases |js|
  {
    var init := js[..|js| - 1];
    PlaceMeaning(all, js[|js| - 1], Index(all, init), k);
    if i < |js| - 1 {
      assert init[i] == js[i];
      CityTableHas(all, init, k, i);
    }
  }

  /** Every name in the city table is one some record is stored under. */
  lemma {:induction false} CityTableFrom(all: seq<Record>, js: seq<Record>, k: string)
    requires k in Index(all, js).byCity
    ensures exists i :: 0 <= i < |js| && k in CityKeys(js[i])
    decreases |js|
  {
    var init := js[..|js| - 1];
    PlaceMeaning(all, js[|js| - 1], Index(all, init), k);
    if k in Index(all, init).byCity {
      CityTableFrom(all, init, k);
      var i :| 0 <= i < |init| && k in CityKeys(init[i]);
      assert init[i] == js[i];
    } else {
      assert k in CityKeys(js[|js| - 1]);
    }
  }

  /** A name is in the city table exactly when some record is stored under
      it there. */
  lemma CityTableKeys(all: seq<Record>, js: seq<Record>, k: string)
    ensures k in Index(all, js).byCity <==> exists i :: 0 <= i < |js| && k in CityKeys(js[i])
  {
    if k in Index(all, js).byCity {
      CityTableFrom(all, js, k);
    }
    forall i | 0 <= i < |js| && k in CityKeys(js[i]) {
      CityTableHas(all, js, k, i);
    }
  }

  /** A name a record is stored under stays in the county table. */
  lemma {:induction false} CountyTableHas(all: seq<Record>, js: seq<Record>, k: string, i: int)
    requires 0 <= i < |js| && k in CountyKeys(all, js[i])
    ensures k in Index(all, js).byCounty
    decreases |js|
  {
    var init := js[..|js| - 1];
    PlaceMeaning(all, js[|js| - 1], Index(all, init), k);
    if i < |js| - 1 {
      assert init[i] == js[i];
      CountyTableHas(all, init, k, i);
    }
  }

  /** Every name in the county table is one some record is stored under. */
  lemma {:induction false} CountyTableFrom(all: seq<Record>, js: seq<Record>, k: string)
    requires k in Index(all, js).byCounty
    ensures exists i :: 0 <= i < |js| && k in CountyKeys(all, js[i])
    decreases |js|
  {
    var init := js[..|js| - 1];
    PlaceMeaning(all, js[|js| - 1], Index(all, init), k);
    if k in Index(all, init).byCounty {
      CountyTableFrom(all, init, k);
      var i :| 0 <= i < |init| && k in CountyKeys(all, init[i]);
      assert init[i] == js[i];
    } else {
      assert k in CountyKeys(all, js[|js| - 1]);
    }
  }

  /** A name is in the county table exactly when some record is stored under
      it there. */
  lemma CountyTableKeys(all: seq<Record>, js: seq<Record>, k: string)
    ensures k in Index(all, js).byCounty <==> exists i :: 0 <= i < |js| && k in CountyKeys(all, js[i])
  {
    if k in Index(all, js).byCounty {
      CountyTableFrom(all, js, k);
    }
    forall i | 0 <= i < |js| && k in CountyKeys(all, js[i]) {
      CountyTableHas(all, js, k, i);
    }
  }

  /** Later records overwrite earlier ones: the city table holds, under each
      name, the last record stored under it. */
  lemma {:induction false} LastCityWins(all: seq<Record>, js: seq<Record>, k: string, i: nat)
    requires i < |js| && k in CityKeys(js[i])
    requires forall l :: i < l < |js| ==> k !in CityKeys(js[l])
    ensures k in Index(all, js).byCity && Index(all, js).byCity[k] == js[i]
    decreases |js|
  {
    var init := js[..|js| - 1];
    PlaceMeaning(all, js[|js| - 1], Index(all, init), k);
    if i < |js| - 1 {
      LastCityWins(all, init, k, i);
    }
  }

  /** The county table holds, under each name, the last record stored under it. */
  lemma {:induction false} LastCountyWins(all: seq<Record>, js: seq<Record>, k: string, i: nat)
    requires i < |js| && k in CountyKeys(all, js[i])
    requires forall l :: i < l < |js| ==> k !in CountyKeys(all, js[l])
    ensures k in Index(all, js).byCounty && Index(all, js).byCounty[k] == js[i]
    decreases |js|
  {
    var init := js[..|js| - 1];
    PlaceMeaning(all, js[|js| - 1], Index(all, init), k);
    if i < |js| - 1 {
      LastCountyWins(all, init, k, i);
    }
  }

  /** A record is stored in the county table under its own key or, for a
      county, under the shortened key. */
  lemma CountyKeysCases(all: seq<Record>, j: Record, k: string)
    requires k in CountyKeys(all, j)
    ensures IsType(j, "County") || IsType(j, "Unincorporated Area")
    ensures k == Key(j) ||
            (IsType(j, "County") && EndsWith(Key(j), CountySuffix) && !CityNamed(all, ShortKey(Key(j))) &&
             k == ShortKey(Key(j)))
  {
  }

  /** The short-key rule: a name that reaches the county table only as a
      shortened county name is never the name of a City record. */
  lemma ShortKeyRule(js: seq<Record>, k: string)
    requires k in Index(js, js).byCounty
    requires forall i :: 0 <= i < |js| ==> !(IsType(js[i], "County") || IsType(js[i], "Unincorporated Area")) || Key(js[i]) != k
    ensures !CityNamed(js, k)
    ensures exists i :: 0 <= i < |js| && IsType(js[i], "County") && Key(js[i]) == k + CountySuffix
  {
    CountyTableFrom(js, js, k);
    var i :| 0 <= i < |js| && k in CountyKeys(js, js[i]);
    CountyKeysCases(js, js[i], k);
    assert Key(js[i]) != k;
    assert Key(js[i]) == k + CountySuffix;
  }

  // ---------------------------------------------------------------------------
  // The data file

  const BuildEffectiveDate := "2026-01-01"

  /** `buildTaxRateData`, given today's date; None when the records cannot
      be built. */
  function BuildTaxRateData(rows: seq<map<string, string>>, lastUpdated: string): Option<TaxRateData> {
    var js := Jurisdictions(rows);
    if js.None? then None
    else
      Some(TaxRateData(
        Metadata(Str(BuildEffectiveDate), Str(CdtfaSource), Str(lastUpdated),
                 Num(Finite(|js.value| as real)), Str(DataVersion)),
        js.value,
        Index(js.value, js.value)))
  }

  /** The file holds one record per row and counts them in its metadata. */
  lemma BuiltDataCounts(rows: seq<map<string, string>>, lastUpdated: string)
    ensures var d := BuildTaxRateData(rows, lastUpdated);
            (d.Some? <==> forall i :: 0 <= i < |rows| ==> "Location" in rows[i]) &&
            (d.Some? ==> |d.value.jurisdictions| == |rows| &&
                         d.value.metadata.jurisdictionCount == Num(Finite(|d.value.jurisdictions| as real)))
  {
  }

  /** The script end to end: the table read with trimmed column names, then built. */
  method ParseAndBuild(content: string, lastUpdated: string) returns (d: Option<TaxRateData>)
    ensures d == BuildTaxRateData(Table(content, TrimOnly), lastUpdated)
  {
    var rows := ParseTable(content, TrimOnly);
    var js := Jurisdictions(rows);
    if js.None? {
      return None;
    }
    var lookup := BuildLookup(js.value);
    d := Some(TaxRateData(
      Metadata(Str(BuildEffectiveDate), Str(CdtfaSource), Str(lastUpdated),
               Num(Finite(|js.value| as real)), Str(DataVersion)),
      js.value, lookup));
  }
}
