/** Lookup tables of the metadata pulldown: month names and numbers, the
    season of each month, the census and economic regions of each US state,
    and the values used for blank (control) samples. `None` keys stand for
    Python's `None`. */
module Constants {
  import opened Results

  // ---------------------------------------------------------------------
  // Months
  // ---------------------------------------------------------------------

  const MonthIntLookup: map<string, int> := map[
      "January" := 1, "February" := 2, "March" := 3,
      "April" := 4, "May" := 5, "June" := 6,
      "July" := 7, "August" := 8, "September" := 9,
      "October" := 10, "November" := 11, "December" := 12]

  const MonthStrLookup: map<int, string> := map[
      1 := "January", 2 := "February", 3 := "March",
      4 := "April", 5 := "May", 6 := "June",
      7 := "July", 8 := "August", 9 := "September",
      10 := "October", 11 := "November", 12 := "December"]

  /** Month numbers map to names and back to themselves. */
  lemma MonthStrThenInt()
    ensures forall m :: m in MonthStrLookup <==> 1 <= m <= 12
    ensures forall m :: m in MonthStrLookup ==>
              MonthStrLookup[m] in MonthIntLookup && MonthIntLookup[MonthStrLookup[m]] == m
  {
  }

  /** Month names map to numbers and back to themselves. */
  lemma MonthIntThenStr()
    ensures forall n :: n in MonthIntLookup ==>
              MonthIntLookup[n] in MonthStrLookup && MonthStrLookup[MonthIntLookup[n]] == n
  {
  }

  /** Each table has twelve entries. */
  lemma MonthLookupsSize()
    ensures |MonthIntLookup| == 12 && |MonthStrLookup| == 12
  {
    MonthStrSize();
    MonthStrThenInt();
    MonthIntThenStr();
    InverseMapsSameSize(MonthIntLookup, MonthStrLookup);
  }

  lemma MonthStrSize()
    ensures |MonthStrLookup| == 12
  {
    var m: map<int, string> := map[];
    assert 1 !in m;
    m := m[1 := "January"];
    assert |m| == 1;
    assert 2 !in m;
    m := m[2 := "February"];
    assert |m| == 2;
    assert 3 !in m;
    m := m[3 := "March"];
    assert |m| == 3;
    assert 4 !in m;
    m := m[4 := "April"];
    assert |m| == 4;
    assert 5 !in m;
    m := m[5 := "May"];
    assert |m| == 5;
    assert 6 !in m;
    m := m[6 := "June"];
    assert |m| == 6;
    assert 7 !in m;
    m := m[7 := "July"];
    assert |m| == 7;
    assert 8 !in m;
    m := m[8 := "August"];
    assert |m| == 8;
    assert 9 !in m;
    m := m[9 := "September"];
    assert |m| == 9;
    assert 10 !in m;
    m := m[10 := "October"];
    assert |m| == 10;
    assert 11 !in m;
    m := m[11 := "November"];
    assert |m| == 11;
    assert 12 !in m;
    m := m[12 := "December"];
    assert |m| == 12;
    assert m == MonthStrLookup;
  }

  /** Two maps that are inverse to each other have the same size. */
  lemma InverseMapsSameSize<K, V>(f: map<K, V>, g: map<V, K>)
    requires forall k :: k in f ==> f[k] in g && g[f[k]] == k
    requires forall v :: v in g ==> g[v] in f && f[g[v]] == v
    ensures |f| == |g|
  {
    if f != map[] {
      var k :| k in f;
      var v := f[k];
      var f' := f - {k};
      var g' := g - {v};
      InverseMapsSameSize(f', g');
      assert f'.Keys == f.Keys - {k};
      assert g'.Keys == g.Keys - {v};
    } else {
      assert forall v :: v !in g;
      assert g == map[];
    }
  }

  // ---------------------------------------------------------------------
  // Seasons
  // ---------------------------------------------------------------------

  const SeasonLookup: map<Option<int>, string> := map[
      None := "Unspecified",
      Some(1) := "Winter", Some(2) := "Winter",
      Some(3) := "Spring", Some(4) := "Spring", Some(5) := "Spring",
      Some(6) := "Summer", Some(7) := "Summer", Some(8) := "Summer",
      Some(9) := "Fall", Some(10) := "Fall", Some(11) := "Fall",
      Some(12) := "Winter"]

  /** The meteorological season of month `m`, by ranges of months. */
  function SeasonOfMonth(m: int): string
    requires 1 <= m <= 12
  {
    if m == 12 || m <= 2 then "Winter"
    else if m <= 5 then "Spring"
    else if m <= 8 then "Summer"
    else "Fall"
  }

  /** The season table is defined on `None` and the twelve months, and
      agrees with the meteorological seasons. */
  lemma SeasonLookupTotal()
    ensures forall k :: k in SeasonLookup <==> k.None? || 1 <= k.value <= 12
    ensures SeasonLookup[None] == "Unspecified"
    ensures forall m :: 1 <= m <= 12 ==> SeasonLookup[Some(m)] == SeasonOfMonth(m)
  {
  }

  // ---------------------------------------------------------------------
  // Regions by state
  // ---------------------------------------------------------------------

  const RegionKeys: set<string> := {"Census_1", "Census_2", "Economic"}

  /** One entry of the regions table. */
  function Regions(census1: string, census2: string, economic: string): (r: map<string, string>)
    ensures r.Keys == RegionKeys
    ensures r["Census_1"] == census1 && r["Census_2"] == census2 && r["Economic"] == economic
  {
    map["Census_1" := census1, "Census_2" := census2, "Economic" := economic]
  }

  /** The census region containing each census division of the table. */
  function DivisionRegion(division: string): string
  {
    match division
    case "New England" => "Northeast"
    case "Mid-Atlantic" => "Northeast"
    case "East North Central" => "Midwest"
    case "West North Central" => "Midwest"
    case "South Atlantic" => "South"
    case "East South Central" => "South"
    case "West South Central" => "South"
    case "Mountain" => "West"
    case "Pacific" => "West"
    case _ => division
  }

  /** `regions_by_state[state]`, with `None` for a key the table lacks
      (where Python raises `KeyError`). Every entry has exactly the three
      region keys, and each state's census division lies in its census
      region. */
  function RegionsByState(state: Option<string>): (r: Option<map<string, string>>)
    ensures r.Some? ==> r.value.Keys == RegionKeys
    ensures r.Some? ==> r.value["Census_1"] == DivisionRegion(r.value["Census_2"])
  {
    match state
    case None => Some(Regions("Unspecified", "Unspecified", "Unspecified"))
    case Some("AK") => Some(Regions("West", "Pacific", "Far West"))
    case Some("AL") => Some(Regions("South", "East South Central", "Southeast"))
    case Some("AR") => Some(Regions("South", "West South Central", "Southeast"))
    case Some("AZ") => Some(Regions("West", "Mountain", "Southwest"))
    case Some("CA") => Some(Regions("West", "Pacific", "Far West"))
    case Some("CO") => Some(Regions("West", "Mountain", "Rocky Mountain"))
    case Some("CT") => Some(Regions("Northeast", "New England", "New England"))
    case Some("DC") => Some(Regions("South", "South Atlantic", "Mideast"))
    case Some("DE") => Some(Regions("Northeast", "Mid-Atlantic", "Mideast"))
    case Some("FL") => Some(Regions("South", "South Atlantic", "Southeast"))
    case Some("GA") => Some(Regions("South", "South Atlantic", "Southeast"))
    case Some("HI") => Some(Regions("West", "Pacific", "Far West"))
    case Some("IA") => Some(Regions("Midwest", "West North Central", "Plains"))
    case Some("ID") => Some(Regions("West", "Mountain", "Rocky Mountain"))
    case Some("IL") => Some(Regions("Midwest", "East North Central", "Great Lakes"))
    case Some("IN") => Some(Regions("Midwest", "East North Central", "Great Lakes"))
    case Some("KS") => Some(Regions("Midwest", "West North Central", "Plains"))
    case Some("KY") => Some(Regions("South", "East South Central", "Southeast"))
    case Some("LA") => Some(Regions("South", "West South Central", "Southeast"))
    case Some("MA") => Some(Regions("Northeast", "New England", "New England"))
    case Some("MD") => Some(Regions("South", "South Atlantic", "Mideast"))
    case Some("ME") => Some(Regions("Northeast", "New England", "New England"))
    case Some("MI") => Some(Regions("Midwest", "East North Central", "Great Lakes"))
    case Some("MN") => Some(Regions("Midwest", "West North Central", "Plains"))
    case Some("MO") => Some(Regions("Midwest", "West North Central", "Plains"))
    case Some("MS") => Some(Regions("South", "East South Central", "Southeast"))
    case Some("MT") => Some(Regions("West", "Mountain", "Rocky Mountain"))
    case Some("NC") => Some(Regions("South", "South Atlantic", "Southeast"))
    case Some("ND") => Some(Regions("Midwest", "West North Central", "Plains"))
    case Some("NE") => Some(Regions("Midwest", "West North Central", "Plains"))
    case Some("NH") => Some(Regions("Northeast", "New England", "New England"))
    case Some("NJ") => Some(Regions("Northeast", "Mid-Atlantic", "Mideast"))
    case Some("NM") => Some(Regions("West", "Mountain", "Southwest"))
    case Some("NV") => Some(Regions("West", "Mountain", "Far West"))
    case Some("NY") => Some(Regions("Northeast", "Mid-Atlantic", "Mideast"))
    case Some("OH") => Some(Regions("Midwest", "East North Central", "Great Lakes"))
    case Some("OK") => Some(Regions("South", "West South Central", "Southwest"))
    case Some("OR") => Some(Regions("West", "Pacific", "Far West"))
    case Some("PA") => Some(Regions("Northeast", "Mid-Atlantic", "Mideast"))
    case Some("PR") => Some(Regions("Territories", "Territories", "Territories"))
    case Some("RI") => Some(Regions("Northeast", "New England", "New England"))
    case Some("SC") => Some(Regions("South", "South Atlantic", "Southeast"))
    case Some("SD") => Some(Regions("Midwest", "West North Central", "Plains"))
    case Some("TN") => Some(Regions("South", "East South Central", "Southeast"))
    case Some("TX") => Some(Regions("South", "West South Central", "Southwest"))
    case Some("UT") => Some(Regions("West", "Mountain", "Rocky Mountain"))
    case Some("VA") => Some(Regions("South", "South Atlantic", "Southeast"))
    case Some("VI") => Some(Regions("Territories", "Territories", "Territories"))
    case Some("VT") => Some(Regions("Northeast", "New England", "New England"))
    case Some("WA") => Some(Regions("West", "Pacific", "Far West"))
    case Some("WI") => Some(Regions("Midwest", "East North Central", "Great Lakes"))
    case Some("WV") => Some(Regions("South", "South Atlantic", "Southeast"))
    case Some("WY") => Some(Regions("West", "Mountain", "Rocky Mountain"))
    case Some(_) => None
  }

  /** `None` is unspecified throughout and the two territories are their
      own region. */
  lemma RegionsOfSpecialKeys()
    ensures RegionsByState(None) == Some(Regions("Unspecified", "Unspecified", "Unspecified"))
    ensures RegionsByState(Some("PR")) == Some(Regions("Territories", "Territories", "Territories"))
    ensures RegionsByState(Some("VI")) == Some(Regions("Territories", "Territories", "Territories"))
  {
  }

  /** California's entry, as an example of an ordinary state. */
  lemma RegionsOfCalifornia()
    ensures RegionsByState(Some("CA")) == Some(Regions("West", "Pacific", "Far West"))
  {
  }

  // ---------------------------------------------------------------------
  // Blank-sample values: a dictionary with a default
  // ---------------------------------------------------------------------

  /** A `defaultdict`: listed entries plus the value its factory produces. */
  datatype DefaultDict = DefaultDict(entries: map<string, string>, fallback: string)

  /** `d[key]`: a listed key gives its value; a missing key gives the
      factory's value and, as in Python, is stored in the dictionary. */
  function GetItem(d: DefaultDict, key: string): (res: (string, DefaultDict))
    ensures res.0 == (if key in d.entries then d.entries[key] else d.fallback)
    ensures res.1.fallback == d.fallback
    ensures res.1.entries.Keys == d.entries.Keys + {key}
    ensures key in res.1.entries && res.1.entries[key] == res.0
    ensures forall k :: k in d.entries ==> res.1.entries[k] == d.entries[k]
  {
    if key in d.entries then (d.entries[key], d)
    else (d.fallback, d.(entries := d.entries[key := d.fallback]))
  }

  /** Looking a key up again gives the same value and changes nothing more. */
  lemma GetItemIdempotent(d: DefaultDict, key: string)
    ensures GetItem(GetItem(d, key).1, key) == GetItem(d, key)
  {
  }

  function DefaultBlank(): string
  {
    "Not applicable"
  }

  const BlanksListed: map<string, string> := map[
      "ASSIGNED_FROM_GEO" := "No",
      "COMMON_NAME" := "unclassified metagenome",
      "COUNTRY" := "USA",
      "ELEVATION" := "193.0",
      "ENV_BIOME" := "urban biome",
      "ENV_FEATURE" := "research facility",
      "ENV_MATERIAL" := "sterile water",
      "ENV_PACKAGE" := "misc environment",
      "TAXON_ID" := "256318",
      "LATITUDE" := "32.8",
      "LONGITUDE" := "-117.2",
      "GEO_LOC_NAME" := "USA:CA:San Diego",
      "PUBLIC" := "Yes",
      "SAMPLE_TYPE" := "control blank",
      "SCIENTIFIC_NAME" := "metagenome",
      "STATE" := "CA",
      "TITLE" := "American Gut Project",
      "DNA_EXTRACTED" := "TRUE",
      "HOST_TAXID" := "256318",
      "PHYSICAL_SPECIMEN_LOCATION" := "UCSDMI",
      "PHYSICAL_SPECIMEN_REMAINING" := "FALSE",
      "DESCRIPTION" := "American Gut control",
      "SUBSET_AGE" := "False",
      "SUBSET_DIABETES" := "False",
      "SUBSET_IBD" := "False",
      "SUBSET_ANTIBIOTIC_HISTORY" := "False",
      "SUBSET_BMI" := "False",
      "SUBSET_HEALTHY" := "False"]

  const BlanksValues: DefaultDict := DefaultDict(BlanksListed, DefaultBlank())

  /** An unlisted key reads as "Not applicable", a listed one as listed. */
  lemma BlanksValuesLookup(key: string)
    ensures key !in BlanksListed ==> GetItem(BlanksValues, key).0 == "Not applicable"
    ensures key in BlanksListed ==> GetItem(BlanksValues, key).0 == BlanksListed[key]
  {
  }

  /** Two listed values: a plain string, and one written as `str(False)`. */
  lemma BlanksListedExamples()
    ensures GetItem(BlanksValues, "COUNTRY").0 == "USA"
    ensures GetItem(BlanksValues, "SUBSET_AGE").0 == "False"
  {
  }
}
