/** What the page does with a fetched list of breweries before storing it:
    `cleanData` keeps the allowed brewery types and `extractCitiesData`
    collects the distinct city names. */
module FetchData {
  import opened Types
  import opened Seqs

  /** The three brewery types the page lists. */
  predicate IsAllowedType(t: string) {
    t == "micro" || t == "regional" || t == "brewpub"
  }

  /** `cleanData`: the breweries of an allowed type, in their original order. */
  function CleanData(breweries: seq<Brewery>): (r: seq<Brewery>)
    ensures forall b :: b in r ==> b in breweries && IsAllowedType(b.breweryType)
    ensures forall b :: b in breweries && IsAllowedType(b.breweryType) ==> b in r
    ensures IsSubsequence(r, breweries)
  {
    var allowed := (b: Brewery) => IsAllowedType(b.breweryType);
    FilterIsSubsequence(breweries, allowed);
    Filter(breweries, allowed)
  }

  /** `cleanData` keeps each allowed record as many times as it occurs, drops
      every other record, and no longer subsequence of allowed records exists. */
  lemma CleanDataExact(breweries: seq<Brewery>, b: Brewery)
    ensures multiset(CleanData(breweries))[b] ==
            if IsAllowedType(b.breweryType) then multiset(breweries)[b] else 0
    ensures forall r :: IsSubsequence(r, breweries) && AllSatisfy(r, (x: Brewery) => IsAllowedType(x.breweryType))
                ==> |r| <= |CleanData(breweries)|
  {
    var allowed := (x: Brewery) => IsAllowedType(x.breweryType);
    FilterCount(breweries, allowed, b);
    forall r | IsSubsequence(r, breweries) && AllSatisfy(r, allowed)
      ensures |r| <= |CleanData(breweries)|
    {
      SubsequenceBound(r, breweries, allowed);
    }
  }

  /** No element occurs twice. */
  predicate NoDuplicates(s: seq<string>) {
    forall i, j :: 0 <= i < j < |s| ==> s[i] != s[j]
  }

  /** The distinct `city` values of `breweries`, verbatim, in first-seen order. */
  function DistinctCities(breweries: seq<Brewery>): (r: seq<string>)
    ensures NoDuplicates(r)
    ensures forall b :: b in breweries ==> b.city in r
    ensures forall c :: c in r ==> exists b :: b in breweries && b.city == c
    decreases |breweries|
  {
    if breweries == [] then []
    else
      var earlier := breweries[..|breweries| - 1];
      var last := breweries[|breweries| - 1];
      var seen := DistinctCities(earlier);
      assert forall b :: b in breweries ==> b in earlier || b == last;
      assert forall b :: b in earlier ==> b in breweries;
      if last.city in seen then seen else seen + [last.city]
  }

  /** `extractCitiesData`: a dictionary marks each city already seen, and its
      keys, in insertion order, are the result. */
  method ExtractCitiesData(breweries: seq<Brewery>) returns (cities: seq<string>)
    ensures cities == DistinctCities(breweries)
  {
    var seen: map<string, bool> := map[];
    cities := [];
    for i := 0 to |breweries|
      invariant cities == DistinctCities(breweries[..i])
      invariant forall c :: c in seen <==> c in cities
      invariant forall c :: c in seen ==> seen[c]
    {
      assert breweries[..i + 1][..i] == breweries[..i];
      var city := breweries[i].city;
      if city in seen && seen[city] {
        continue;
      }
      seen := seen[city := true];
      cities := cities + [city];
    }
    assert breweries[..|breweries|] == breweries;
  }

  /** The names a plain JavaScript object `{}` inherits from `Object.prototype`;
      reading any of them on an empty object yields a truthy value. */
  const OBJECT_PROTOTYPE_KEYS: set<string> := {
    "constructor", "hasOwnProperty", "isPrototypeOf", "propertyIsEnumerable",
    "toLocaleString", "toString", "valueOf", "__proto__",
    "__defineGetter__", "__defineSetter__", "__lookupGetter__", "__lookupSetter__"
  }

  /** `extractCitiesData` as written: `if (cities[city]) continue` also skips a
      city whose name is inherited from `Object.prototype`, so such a city is
      never recorded. */
  function CitiesAsWritten(breweries: seq<Brewery>): (r: seq<string>)
    ensures NoDuplicates(r)
    ensures forall c :: c in r ==> c !in OBJECT_PROTOTYPE_KEYS && exists b :: b in breweries && b.city == c
    ensures forall b :: b in breweries && b.city !in OBJECT_PROTOTYPE_KEYS ==> b.city in r
    decreases |breweries|
  {
    if breweries == [] then []
    else
      var earlier := breweries[..|breweries| - 1];
      assert forall b :: b in breweries ==> b in earlier || b == breweries[|breweries| - 1];
      assert forall b :: b in earlier ==> b in breweries;
      var seen := CitiesAsWritten(earlier);
      var city := breweries[|breweries| - 1].city;
      if city in seen || city in OBJECT_PROTOTYPE_KEYS then seen else seen + [city]
  }

  /** A name an empty object does not inherit, so `cities[name]` is falsy
      until the loop sets it. */
  predicate NotInherited(name: string) {
    name !in OBJECT_PROTOTYPE_KEYS
  }

  /** On every input, the code's city list is the corrected list with the
      inherited names removed. */
  lemma {:induction false} CitiesAsWrittenIsFiltered(breweries: seq<Brewery>)
    ensures CitiesAsWritten(breweries) == Filter(DistinctCities(breweries), NotInherited)
    decreases |breweries|
  {
    if breweries != [] {
      var earlier := breweries[..|breweries| - 1];
      var city := breweries[|breweries| - 1].city;
      CitiesAsWrittenIsFiltered(earlier);
      FilterConcat(DistinctCities(earlier), [city], NotInherited);
    }
  }

  /** A brewery in a city called "constructor" is fetched, kept by
      `cleanData`, and yet its city is missing from the code's city list,
      while the corrected list has it. */
  lemma CitiesAsWrittenDropsCity()
    ensures var b := Brewery("Prototype Ales", "micro", "1 Main St", "constructor", "00000", "", "");
            && CleanData([b]) == [b]
            && CitiesAsWritten([b]) == []
            && DistinctCities([b]) == ["constructor"]
  {
  }

  /** When no city name collides with an inherited property, the code as
      written and the corrected definition agree. */
  lemma {:induction false} CitiesAsWrittenAgrees(breweries: seq<Brewery>)
    requires forall b :: b in breweries ==> b.city !in OBJECT_PROTOTYPE_KEYS
    ensures CitiesAsWritten(breweries) == DistinctCities(breweries)
    decreases |breweries|
  {
    if breweries != [] {
      var earlier := breweries[..|breweries| - 1];
      assert forall b :: b in earlier ==> b in breweries;
      assert breweries[|breweries| - 1] in breweries;
      CitiesAsWrittenAgrees(earlier);
    }
  }
}
