/** `renderList` without the DOM: the three filters applied to the stored
    breweries, and the first ten matches turned into list items, each with
    the phone display rule of `renderListItem`. */
module ListView {
  import opened Types
  import opened Seqs
  import opened Text

  /** At most this many breweries are listed. */
  const PAGE_SIZE: nat := 10

  function Min(a: int, b: int): int {
    if a <= b then a else b
  }

  /** The brewery's type is exactly `breweryType`. */
  predicate HasType(breweryType: string, b: Brewery) {
    b.breweryType == breweryType
  }

  /** The brewery's lower-cased city is one of `cities`. */
  predicate InCities(cities: seq<string>, b: Brewery) {
    ToLower(b.city) in cities
  }

  /** The lower-cased `term` occurs in the lower-cased name or city. */
  predicate MatchesSearch(term: string, b: Brewery) {
    Includes(ToLower(b.name), term) || Includes(ToLower(b.city), term)
  }

  /** The type filter step: the breweries of type `breweryType`, in order. */
  function ByType(breweries: seq<Brewery>, breweryType: string): seq<Brewery> {
    Filter(breweries, (b: Brewery) => HasType(breweryType, b))
  }

  /** The city filter step: the breweries whose lower-cased city is selected. */
  function ByCity(breweries: seq<Brewery>, cities: seq<string>): seq<Brewery> {
    Filter(breweries, (b: Brewery) => InCities(cities, b))
  }

  /** The search step; `term` is already lower-cased. */
  function BySearch(breweries: seq<Brewery>, term: string): seq<Brewery> {
    Filter(breweries, (b: Brewery) => MatchesSearch(term, b))
  }

  /** The breweries `renderList` keeps, by its three steps in their order;
      an empty filter value (or empty city list) skips its step. */
  function Visible(s: State): seq<Brewery> {
    var afterCity := AfterCity(s);
    if s.searchBreweriesInput != "" then BySearch(afterCity, ToLower(s.searchBreweriesInput)) else afterCity
  }

  /** The breweries left after the type step. */
  function AfterType(s: State): seq<Brewery> {
    if s.filterByType != "" then ByType(s.breweries, s.filterByType) else s.breweries
  }

  /** The breweries left after the type and city steps. */
  function AfterCity(s: State): seq<Brewery> {
    var afterType := AfterType(s);
    if |s.filterByCity| > 0 then ByCity(afterType, s.filterByCity) else afterType
  }

  /** `term` occurs somewhere in `text`. */
  ghost predicate Occurs(text: string, term: string) {
    exists i :: SubstringAt(text, term, i)
  }

  /** Every active filter accepts `b`: the type equals `filterByType` when
      that is set, the lower-cased city is selected when any city is, and
      the lower-cased search text occurs in the lower-cased name or city
      when there is search text. */
  ghost predicate PassesFilters(s: State, b: Brewery) {
    && (s.filterByType != "" ==> b.breweryType == s.filterByType)
    && (|s.filterByCity| > 0 ==> ToLower(b.city) in s.filterByCity)
    && (s.searchBreweriesInput != "" ==>
          Occurs(ToLower(b.name), ToLower(s.searchBreweriesInput)) ||
          Occurs(ToLower(b.city), ToLower(s.searchBreweriesInput)))
  }

  /** The search text a brewery is matched against. */
  lemma MatchesSearchSpec(term: string, b: Brewery)
    ensures MatchesSearch(term, b) <==> Occurs(ToLower(b.name), term) || Occurs(ToLower(b.city), term)
  {
    IncludesSpec(ToLower(b.name), term);
    IncludesSpec(ToLower(b.city), term);
  }

  /** The three steps together are one filter by `PassesFilters`. */
  lemma VisibleIsOneFilter(s: State)
    ensures Visible(s) == Filter(s.breweries, (b: Brewery) => PassesFilters(s, b))
  {
    var t, cs, term := s.filterByType, s.filterByCity, ToLower(s.searchBreweriesInput);
    var pt := (b: Brewery) => s.filterByType != "" ==> HasType(t, b);
    var pc := (b: Brewery) => |cs| > 0 ==> InCities(cs, b);
    var ps := (b: Brewery) => s.searchBreweriesInput != "" ==> MatchesSearch(term, b);
    var ptc := (b: Brewery) => pt(b) && pc(b);
    var all := (b: Brewery) => PassesFilters(s, b);

    var afterType := AfterType(s);
    if t != "" {
      FilterExt(s.breweries, (b: Brewery) => HasType(t, b), pt);
    } else {
      FilterAllPass(s.breweries, pt);
    }
    assert afterType == Filter(s.breweries, pt);

    var afterCity := AfterCity(s);
    if |cs| > 0 {
      FilterExt(afterType, (b: Brewery) => InCities(cs, b), pc);
    } else {
      FilterAllPass(afterType, pc);
    }
    FilterFilter(s.breweries, pt, pc, ptc);
    assert afterCity == Filter(s.breweries, ptc);

    if s.searchBreweriesInput != "" {
      FilterExt(afterCity, (b: Brewery) => MatchesSearch(term, b), ps);
    } else {
      FilterAllPass(afterCity, ps);
    }
    forall b | b in s.breweries
      ensures all(b) == (ptc(b) && ps(b))
    {
      MatchesSearchSpec(term, b);
    }
    FilterFilter(s.breweries, ptc, ps, all);
  }

  /** The kept breweries are exactly the stored ones that pass every active
      filter, in stored order, each as often as it is stored; no longer
      subsequence of passing breweries exists. */
  lemma VisibleSoundAndComplete(s: State, b: Brewery)
    ensures b in Visible(s) <==> b in s.breweries && PassesFilters(s, b)
    ensures multiset(Visible(s))[b] == if PassesFilters(s, b) then multiset(s.breweries)[b] else 0
    ensures IsSubsequence(Visible(s), s.breweries)
  {
    var all := (x: Brewery) => PassesFilters(s, x);
    VisibleIsOneFilter(s);
    FilterCount(s.breweries, all, b);
    FilterIsSubsequence(s.breweries, all);
  }

  /** Any subsequence of the stored breweries whose members all pass the
      filters and that is at least as long as the kept list is the kept list. */
  lemma VisibleIsLongestPassing(s: State, r: seq<Brewery>)
    requires IsSubsequence(r, s.breweries)
    requires forall b :: b in r ==> PassesFilters(s, b)
    ensures |r| <= |Visible(s)|
    ensures |r| == |Visible(s)| ==> r == Visible(s)
  {
    var all := (x: Brewery) => PassesFilters(s, x);
    VisibleIsOneFilter(s);
    SubsequenceBound(r, s.breweries, all);
    if |r| == |Visible(s)| {
      FilterUnique(r, s.breweries, all);
    }
  }

  /** With no filter set, every stored brewery is kept. */
  lemma NoFiltersKeepsAll(s: State)
    requires s.filterByType == "" && s.filterByCity == [] && s.searchBreweriesInput == ""
    ensures Visible(s) == s.breweries
  {
  }

  /** The filter steps commute: the type filter applied last gives the same list. */
  lemma TypeFilterLastAgrees(s: State)
    requires s.filterByType != ""
    ensures ByType(Visible(s.(filterByType := "")), s.filterByType) == Visible(s)
  {
    var u := s.(filterByType := "");
    var allU := (x: Brewery) => PassesFilters(u, x);
    var all := (x: Brewery) => PassesFilters(s, x);
    VisibleIsOneFilter(u);
    VisibleIsOneFilter(s);
    FilterFilter(s.breweries, allU, (b: Brewery) => HasType(s.filterByType, b), all);
  }

  /** `phone ? '+' + phone : 'N/A'`. */
  function PhoneText(phone: string): (r: string)
    ensures r == "N/A" <==> phone == ""
    ensures r != "N/A" ==> |r| == |phone| + 1 && r[0] == '+' && r[1..] == phone
  {
    if phone != "" then
      assert ("+" + phone)[0] == '+';
      "+" + phone
    else "N/A"
  }

  /** What `renderListItem` shows of a brewery. */
  datatype ListItem = ListItem(
    name: string,
    breweryType: string,
    street: string,
    city: string,
    postalCode: string,
    phone: string,
    websiteUrl: string)

  function ItemOf(b: Brewery): ListItem {
    ListItem(b.name, b.breweryType, b.street, b.city, b.postalCode, PhoneText(b.phone), b.websiteUrl)
  }

  /** The list items on screen for state `s`: at most ten, fewer only when
      fewer breweries are kept, each the item of the kept brewery at its
      position. */
  function ShownItems(s: State): (r: seq<ListItem>)
    ensures |r| <= PAGE_SIZE && |r| <= |Visible(s)|
    ensures |r| == PAGE_SIZE || |r| == |Visible(s)|
    ensures forall i :: 0 <= i < |r| ==> r[i] == ItemOf(Visible(s)[i])
  {
    var v := Visible(s);
    seq(Min(PAGE_SIZE, |v|), (i: int) requires 0 <= i < Min(PAGE_SIZE, |v|) => ItemOf(v[i]))
  }

  /** `renderList`: reassigns `breweries` through the active filters, then
      renders while `i < 10 && i < breweries.length`. The first
      `min(10, |Visible(s)|)` kept breweries are listed, in order. */
  method RenderList(s: State) returns (items: seq<ListItem>)
    ensures |items| == Min(PAGE_SIZE, |Visible(s)|)
    ensures forall i :: 0 <= i < |items| ==> items[i] == ItemOf(Visible(s)[i])
    ensures items == ShownItems(s)
  {
    var breweries := s.breweries;
    if s.filterByType != "" {
      breweries := ByType(breweries, s.filterByType);
    }
    assert breweries == AfterType(s);
    if |s.filterByCity| > 0 {
      breweries := ByCity(breweries, s.filterByCity);
    }
    assert breweries == AfterCity(s);
    if s.searchBreweriesInput != "" {
      var searchTerm := ToLower(s.searchBreweriesInput);
      breweries := BySearch(breweries, searchTerm);
    }
    assert breweries == Visible(s);
    items := [];
    if |breweries| > 0 {
      var i := 0;
      while i < PAGE_SIZE && i < |breweries|
        invariant 0 <= i <= Min(PAGE_SIZE, |breweries|)
        invariant |items| == i
        invariant forall k :: 0 <= k < i ==> items[k] == ItemOf(breweries[k])
      {
        items := items + [ItemOf(breweries[i])];
        i := i + 1;
      }
    }
    assert |items| == Min(PAGE_SIZE, |breweries|);
  }
}
