/**
 * Event locations (model/Location.java): their display form and the country
 * flag lookup, which caches each answer under a case-insensitive key.
 */
module LocationModel {
  import opened Wrappers
  import JavaString

  /** `Location(country, city)`; the city may be null. */
  datatype Location = Location(country: string, city: Option<string>)

  /** `toString()`: the country alone, or "city (country)". */
  function ToString(l: Location): (r: string)
    ensures l.city.None? ==> r == l.country
    ensures l.city.Some? ==>
      JavaString.StartsWith(r, l.city.value + " (") && JavaString.EndsWith(r, l.country + ")")
  {
    if l.city.None? then l.country
    else l.city.value + " (" + l.country + ")"
  }

  /** The display form with a city is exactly three characters longer than its parts. */
  lemma ToStringLength(l: Location)
    requires l.city.Some?
    ensures |ToString(l)| == |l.city.value| + |l.country| + 3
  {
  }

  /**
   * The ISO country table (`Locale.getISOCountries()` with each code's
   * English display name), in the order the JDK lists it.
   */
  type CountryTable = seq<(string, string)>

  /** Index of the first entry whose display name equals `country` ignoring case, else -1. */
  function FirstCountryMatch(table: CountryTable, country: string): (r: int)
    ensures -1 <= r < |table|
    ensures r >= 0 ==> JavaString.EqualsIgnoreCase(table[r].1, country)
    ensures r >= 0 ==> forall k :: 0 <= k < r ==> !JavaString.EqualsIgnoreCase(table[k].1, country)
    ensures r == -1 ==> forall k :: 0 <= k < |table| ==> !JavaString.EqualsIgnoreCase(table[k].1, country)
    decreases |table|
  {
    if table == [] then -1
    else if JavaString.EqualsIgnoreCase(table[0].1, country) then 0
    else
      var k := FirstCountryMatch(table[1..], country);
      if k == -1 then -1 else k + 1
  }

  /** The flag a lookup in the table yields: the lower-cased code of the first match. */
  function LookupFlag(table: CountryTable, country: string): (r: Result<string>)
    ensures r.Failure? <==> forall k :: 0 <= k < |table| ==> !JavaString.EqualsIgnoreCase(table[k].1, country)
    ensures r.Failure? ==> r.error == AppError
  {
    var i := FirstCountryMatch(table, country);
    if i < 0 then Failure(AppError) else Success(JavaString.ToLower(table[i].0))
  }

  /**
   * The static `COUNTRY_FLAG_CACHE`, a `CaseInsensitiveKeyMap`: keys are
   * stored lower-cased, so spellings that differ only in case share an entry.
   */
  class FlagCache {
    var cache: map<string, string>

    constructor()
      ensures cache == map[]
    {
      cache := map[];
    }

    /**
     * `countryFlag()`: "USA" is "us" without a lookup; a cached answer is
     * returned as is; otherwise the table is scanned for the first matching
     * display name, and a found flag is remembered.
     */
    method CountryFlag(country: string, table: CountryTable) returns (r: Result<string>)
      modifies this
      ensures country == "USA" ==> r == Success("us") && cache == old(cache)
      ensures country != "USA" && JavaString.ToLower(country) in old(cache) ==>
        r == Success(old(cache)[JavaString.ToLower(country)]) && cache == old(cache)
      ensures country != "USA" && JavaString.ToLower(country) !in old(cache) ==>
        r == LookupFlag(table, country)
        && cache == (if r.Success? then old(cache)[JavaString.ToLower(country) := r.value] else old(cache))
    {
      if country == "USA" {
        return Success("us");
      }
      var key := JavaString.ToLower(country);
      if key in cache {
        return Success(cache[key]);
      }
      var flag: Option<string> := None;
      var i := 0;
      while i < |table|
        invariant 0 <= i <= |table|
        invariant forall k :: 0 <= k < i ==> !JavaString.EqualsIgnoreCase(table[k].1, country)
      {
        if JavaString.EqualsIgnoreCase(table[i].1, country) {
          flag := Some(JavaString.ToLower(table[i].0));
          break;
        }
        i := i + 1;
      }
      if flag.None? {
        return Failure(AppError);
      }
      assert FirstCountryMatch(table, country) == i by {
        FirstMatchIsUnique(table, country, i);
      }
      cache := cache[key := flag.value];
      return Success(flag.value);
    }
  }

  /** Accented letters match their capitals, and differ from the bare letter. */
  lemma AccentedNamesMatch()
    ensures JavaString.EqualsIgnoreCase("Côte", "CÔTE")
    ensures JavaString.EqualsIgnoreCase("Åland", "åLAND")
    ensures !JavaString.EqualsIgnoreCase("Réunion", "Reunion")
  {
    JavaString.EqualsIgnoreCasePointwise("Côte", "CÔTE");
    JavaString.EqualsIgnoreCasePointwise("Åland", "åLAND");
    JavaString.EqualsIgnoreCasePointwise("Réunion", "Reunion");
    assert JavaString.LowerChar("Réunion"[1]) != JavaString.LowerChar("Reunion"[1]);
  }

  /** The first match is the index where the scan stops. */
  lemma FirstMatchIsUnique(table: CountryTable, country: string, i: int)
    requires 0 <= i < |table| && JavaString.EqualsIgnoreCase(table[i].1, country)
    requires forall k :: 0 <= k < i ==> !JavaString.EqualsIgnoreCase(table[k].1, country)
    ensures FirstCountryMatch(table, country) == i
  {
    var r := FirstCountryMatch(table, country);
    assert r != -1;
  }
}
