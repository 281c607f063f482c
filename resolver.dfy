/** The rate resolver of `src/index.ts`: California only, a city name looked
    up in the city table, then in the county table, then in the county table
    with " county" appended, falling back to the statewide base rate. */
module Resolver {
  import opened Wrappers
  import opened Strings
  import opened Numbers
  import opened Json
  import opened Cdtfa
  import opened LookupIndex

  /** `{ state, city? }`; the request's ZIP is never read. */
  datatype Request = Request(state: string, city: Option<string>)

  /** The response object; the components are `state` and `district`. */
  datatype Response = Response(rate: Value, percentage: Value, jurisdiction: Value, state: string,
                               stateComponent: Value, district: Value, source: Value,
                               effectiveDate: Value, supported: bool, reason: Option<string>)

  const SupportedState := "CA"

  /** `getSupportedStates`. */
  function GetSupportedStates(): (r: seq<string>)
    ensures r == [SupportedState]
  {
    [SupportedState]
  }

  /** `getMetadata`: the data file's metadata with the supported states. */
  datatype MetadataView = MetadataView(metadata: Metadata, supportedStates: seq<string>)

  function GetMetadata(data: TaxRateData): (r: MetadataView)
    ensures r.metadata == data.metadata && r.supportedStates == [SupportedState]
  {
    MetadataView(data.metadata, GetSupportedStates())
  }

  // ---------------------------------------------------------------------------
  // Reading a lookup table

  // An inherited member read from a table that lacks it as an own key is
  // that (truthy) member, whose `rate`, `location` and other fields are all
  // undefined.

  /** `table[key]`, None standing for `undefined`; an inherited member is
      seen as a record with no fields. */
  function Read(table: map<string, Record>, key: string, access: Access): (r: Option<Record>)
    ensures key in table ==> r == Some(table[key])
    ensures access == OwnKeys && key !in table ==> r.None?
  {
    if key in table then Some(table[key])
    else if access == PropertyAccess && key in PrototypeMembers then Some(map[])
    else None
  }

  const CountyWordLower := "county"

  /** The chain of lookups for a city name. */
  function FindJurisdiction(lookup: Lookup, city: string, access: Access): Option<Record> {
    var cityKey := Lower(city);
    var byCity := Read(lookup.byCity, cityKey, access);
    var byCounty := if byCity.Some? then byCity else Read(lookup.byCounty, cityKey, access);
    if byCounty.None? && !Contains(cityKey, CountyWordLower) then
      Read(lookup.byCounty, cityKey + CountySuffix, access)
    else byCounty
  }

  /** `getTaxRate` over a data file, with the tables read as `access` says. */
  function GetTaxRateUsing(data: TaxRateData, request: Request, access: Access): Response {
    var state := Upper(request.state);
    if state != SupportedState then
      Response(Num(Finite(0.0)), Str("0.00%"), Str("N/A"), state, Num(Finite(0.0)), Num(Finite(0.0)),
               Str("taxrates-us"), Str("N/A"), false,
               Some("No nexus in " + state + ". Only California is currently supported."))
    else
      var found := if request.city.Some? && request.city.value != "" then
                     FindJurisdiction(data.lookup, request.city.value, access)
                   else None;
      if found.None? then
        Response(Num(Finite(CaStateBaseRate)), Str("7.25%"), Str("California (State Base Rate)"), SupportedState,
                 Num(Finite(CaStateBaseRate)), Num(Finite(0.0)),
                 data.metadata.source, data.metadata.effectiveDate, true, None)
      else
        var j := found.value;
        Response(Get(j, "rate"), Get(j, "ratePercent"), Get(j, "location"), SupportedState,
                 Num(Finite(CaStateBaseRate)), Get(j, "districtTax"),
                 data.metadata.source, data.metadata.effectiveDate, true, None)
  }

  /** `getTaxRate`, reading the tables by own keys. */
  function GetTaxRate(data: TaxRateData, request: Request): Response {
    GetTaxRateUsing(data, request, OwnKeys)
  }

  /** `getTaxRate` as written, by property access. */
  function GetTaxRateAsWritten(data: TaxRateData, request: Request): Response {
    GetTaxRateUsing(data, request, PropertyAccess)
  }

  // ---------------------------------------------------------------------------
  // Properties

  /** The state is compared after upper-casing and without trimming: exactly
      the four spellings of "ca" are California. */
  lemma CaliforniaSpellings(state: string)
    ensures Upper(state) == SupportedState <==>
              |state| == 2 && (state[0] == 'c' || state[0] == 'C') && (state[1] == 'a' || state[1] == 'A')
  {
    if |state| == 2 {
      assert Upper(state) == [UpperChar(state[0]), UpperChar(state[1])];
    }
  }

  /** Another state is not supported: zero rate and components, the state
      upper-cased, and a reason. */
  lemma UnsupportedState(data: TaxRateData, request: Request, access: Access)
    requires Upper(request.state) !in GetSupportedStates()
    ensures var r := GetTaxRateUsing(data, request, access);
            !r.supported && r.reason.Some? && r.state == Upper(request.state) &&
            r.rate == Num(Finite(0.0)) && r.stateComponent == Num(Finite(0.0)) && r.district == Num(Finite(0.0))
  {
  }

  /** Every California answer is supported and has no reason, and its state
      component is the base rate. */
  lemma CaliforniaSupported(data: TaxRateData, request: Request, access: Access)
    requires Upper(request.state) in GetSupportedStates()
    ensures var r := GetTaxRateUsing(data, request, access);
            r.supported && r.reason.None? && r.state == SupportedState &&
            r.stateComponent == Num(Finite(CaStateBaseRate)) &&
            r.source == data.metadata.source && r.effectiveDate == data.metadata.effectiveDate
  {
  }

  /** The lookup order: the city table, then the county table, then the
      county table under the name with " county" appended, the last only
      when the lower-case name does not already contain "county". */
  lemma LookupOrder(lookup: Lookup, city: string)
    ensures var key := Lower(city);
            FindJurisdiction(lookup, city, OwnKeys) ==
              if key in lookup.byCity then Some(lookup.byCity[key])
              else if key in lookup.byCounty then Some(lookup.byCounty[key])
              else if !Contains(key, CountyWordLower) && key + CountySuffix in lookup.byCounty then
                Some(lookup.byCounty[key + CountySuffix])
              else None
  {
  }

  /** Without a city, with an empty one or with one the tables do not know,
      the answer is the state base rate, 7.25%, whose components add up to
      the rate. */
  lemma BaseRateFallback(data: TaxRateData, request: Request)
    requires Upper(request.state) == SupportedState
    requires request.city.None? || request.city.value == "" ||
             FindJurisdiction(data.lookup, request.city.value, OwnKeys).None?
    ensures var r := GetTaxRate(data, request);
            r.rate == Num(Finite(CaStateBaseRate)) && r.percentage == Str("7.25%") &&
            r.stateComponent == Num(Finite(CaStateBaseRate)) && r.district == Num(Finite(0.0)) &&
            CaStateBaseRate + 0.0 == r.rate.n.x
  {
  }

  /** A found record supplies the rate, the percentage, the name and the
      district component. */
  lemma FoundRecord(data: TaxRateData, request: Request, j: Record)
    requires Upper(request.state) == SupportedState
    requires request.city.Some? && request.city.value != ""
    requires FindJurisdiction(data.lookup, request.city.value, OwnKeys) == Some(j)
    ensures var r := GetTaxRate(data, request);
            r.rate == Get(j, "rate") && r.percentage == Get(j, "ratePercent") &&
            r.jurisdiction == Get(j, "location") && r.district == Get(j, "districtTax")
  {
  }

  /** Over a file the builder wrote, a city name that is the lower-case name
      of a City record resolves, in any letter case, to the last such record. */
  lemma ResolvesBuiltCity(data: TaxRateData, city: string, i: nat)
    requires data.lookup == Index(data.jurisdictions, data.jurisdictions)
    requires city != "" && i < |data.jurisdictions|
    requires Lower(city) in CityKeys(data.jurisdictions[i])
    requires forall l :: i < l < |data.jurisdictions| ==> Lower(city) !in CityKeys(data.jurisdictions[l])
    ensures GetTaxRate(data, Request(SupportedState, Some(city))).rate == Get(data.jurisdictions[i], "rate")
    ensures GetTaxRate(data, Request(SupportedState, Some(city))).jurisdiction == Get(data.jurisdictions[i], "location")
  {
    LastCityWins(data.jurisdictions, data.jurisdictions, Lower(city), i);
    assert Upper(SupportedState) == SupportedState;
  }

  /** Over a file the builder wrote, a name matching no City record and no
      county key resolves to the base rate. */
  lemma UnknownNameGetsBaseRate(data: TaxRateData, city: string)
    requires data.lookup == Index(data.jurisdictions, data.jurisdictions)
    requires forall l :: 0 <= l < |data.jurisdictions| ==>
               Lower(city) !in CityKeys(data.jurisdictions[l]) &&
               Lower(city) !in CountyKeys(data.jurisdictions, data.jurisdictions[l]) &&
               Lower(city) + CountySuffix !in CountyKeys(data.jurisdictions, data.jurisdictions[l])
    ensures GetTaxRate(data, Request(SupportedState, Some(city))).rate == Num(Finite(CaStateBaseRate))
  {
    var js := data.jurisdictions;
    CityTableKeys(js, js, Lower(city));
    CountyTableKeys(js, js, Lower(city));
    CountyTableKeys(js, js, Lower(city) + CountySuffix);
    assert Upper(SupportedState) == SupportedState;
  }

  /** As written, a city named after an inherited object member, such as
      "Constructor", finds that member instead of nothing: the answer claims
      support but carries no rate, no percentage and no jurisdiction, where
      the base rate was meant. */
  lemma PrototypeNameLeaks(data: TaxRateData)
    requires "constructor" !in data.lookup.byCity
    ensures var r := GetTaxRateAsWritten(data, Request(SupportedState, Some("Constructor")));
            r.supported && r.rate == Undefined && r.percentage == Undefined && r.jurisdiction == Undefined
  {
    assert Upper(SupportedState) == SupportedState;
    assert Lower("Constructor") == "constructor";
  }

  /** Read by own keys, the same name falls back to the base rate unless the
      data really holds it. */
  lemma PrototypeNameFallsBack(data: TaxRateData)
    requires "constructor" !in data.lookup.byCity && "constructor" !in data.lookup.byCounty
    requires "constructor county" !in data.lookup.byCounty
    ensures var r := GetTaxRate(data, Request(SupportedState, Some("Constructor")));
            r.supported && r.rate == Num(Finite(CaStateBaseRate)) && r.percentage == Str("7.25%")
  {
    assert Upper(SupportedState) == SupportedState;
    assert Lower("Constructor") == "constructor";
    assert "constructor" + CountySuffix == "constructor county";
  }
}
