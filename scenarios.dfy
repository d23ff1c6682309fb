/** Concrete runs of the list computation on two breweries, and the page
    cap on a list whose every brewery passes the filters. */
module Scenarios {
  import opened Types
  import opened Seqs
  import opened Text
  import opened ListView

  const OAK_HILL := Brewery("Oak Hill", "micro", "1 Oak St", "Austin", "78701", "5125550100", "")
  const RIVER := Brewery("River Brewpub", "brewpub", "2 River Rd", "Dallas", "75201", "", "")

  function TwoBreweries(filterByType: string, filterByCity: seq<string>, search: string): State {
    State("texas", [OAK_HILL, RIVER], ["Austin", "Dallas"], filterByType, filterByCity, search)
  }

  /** Only "Oak Hill" is a micro brewery. */
  lemma TypeScenario()
    ensures Visible(TwoBreweries("micro", [], "")) == [OAK_HILL]
  {
  }

  /** Selecting "dallas" keeps only the brewery in "Dallas". */
  lemma CityScenario()
    ensures Visible(TwoBreweries("", ["dallas"], "")) == [RIVER]
  {
    var s := TwoBreweries("", ["dallas"], "");
    assert ToLower("Austin") == "austin";
    assert ToLower("Dallas") == "dallas";
    assert s.breweries[1..] == [RIVER];
    assert s.breweries[1..][1..] == [];
  }

  /** "oak" matches the name "Oak Hill" whatever its case, and neither the
      name nor the city of the other brewery. */
  lemma SearchScenario()
    ensures Visible(TwoBreweries("", [], "oak")) == [OAK_HILL]
  {
    var s := TwoBreweries("", [], "oak");
    OakMatches();
    RiverDoesNotMatch();
    assert Visible(s) == BySearch(s.breweries, ToLower("oak"));
    assert s.breweries[1..] == [RIVER];
    assert s.breweries[1..][1..] == [];
  }

  lemma OakMatches()
    ensures ToLower("oak") == "oak"
    ensures MatchesSearch("oak", OAK_HILL)
  {
  }

  lemma RiverDoesNotMatch()
    ensures !MatchesSearch("oak", RIVER)
  {
    NoLetterO("River Brewpub");
    NoLetterO("Dallas");
    IncludesSpec(ToLower("River Brewpub"), "oak");
    IncludesSpec(ToLower("Dallas"), "oak");
  }

  /** A text without 'o' or 'O' does not contain "oak" once lower-cased. */
  lemma NoLetterO(text: string)
    requires forall i :: 0 <= i < |text| ==> text[i] != 'o' && text[i] != 'O'
    ensures forall i :: !SubstringAt(ToLower(text), "oak", i)
  {
    var lower := ToLower(text);
    forall i
      ensures !SubstringAt(lower, "oak", i)
    {
      if 0 <= i && i + 3 <= |lower| {
        assert lower[i..i + 3][0] == lower[i] == LowerChar(text[i]);
      }
    }
  }

  /** When every stored brewery passes the filters, the list shows the first
      ten of them in stored order (all of them when there are fewer). */
  lemma AllPassingShowsFirstTen(s: State)
    requires forall b :: b in s.breweries ==> PassesFilters(s, b)
    ensures |ShownItems(s)| == Min(PAGE_SIZE, |s.breweries|)
    ensures forall i :: 0 <= i < |ShownItems(s)| ==> ShownItems(s)[i] == ItemOf(s.breweries[i])
  {
    VisibleIsOneFilter(s);
    FilterAllPass(s.breweries, (b: Brewery) => PassesFilters(s, b));
  }

  /** Fifteen passing breweries: exactly the first ten are shown. */
  lemma FifteenShowsTen(s: State)
    requires |s.breweries| == 15
    requires forall b :: b in s.breweries ==> PassesFilters(s, b)
    ensures |ShownItems(s)| == 10
    ensures forall i :: 0 <= i < 10 ==> ShownItems(s)[i] == ItemOf(s.breweries[i])
  {
    AllPassingShowsFirstTen(s);
  }
}
