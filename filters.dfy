/** The state patches the filter controls pass to `setState`: the brewery
    type select, a city checkbox and the "clear all" button. */
module Filters {
  import opened Types
  import opened Seqs
  import opened Text
  import opened Store

  /** Ticking the checkbox of `city`: its lower-cased name is appended. */
  function TickCity(filterByCity: seq<string>, city: string): (r: seq<string>)
    ensures |r| == |filterByCity| + 1 && r[|filterByCity|] == ToLower(city)
    ensures r[..|filterByCity|] == filterByCity
    ensures multiset(r) == multiset(filterByCity) + multiset{ToLower(city)}
  {
    assert (filterByCity + [ToLower(city)])[..|filterByCity|] == filterByCity;
    filterByCity + [ToLower(city)]
  }

  /** Unticking the checkbox of `city`: every occurrence of its lower-cased
      name is removed, the other entries keep their order and multiplicity. */
  function UntickCity(filterByCity: seq<string>, city: string): (r: seq<string>)
    ensures forall c :: c in r ==> c in filterByCity && c != ToLower(city)
    ensures forall c :: c in filterByCity && c != ToLower(city) ==> c in r
    ensures IsSubsequence(r, filterByCity)
    ensures forall c :: c != ToLower(city) ==> multiset(r)[c] == multiset(filterByCity)[c]
  {
    var lower := ToLower(city);
    var keep := (c: string) => c != lower;
    FilterIsSubsequence(filterByCity, keep);
    forall c | c != lower
      ensures multiset(Filter(filterByCity, keep))[c] == multiset(filterByCity)[c]
    {
      FilterCount(filterByCity, keep, c);
    }
    Filter(filterByCity, keep)
  }

  /** Unticking a city that was not selected changes nothing. */
  lemma UntickAbsent(filterByCity: seq<string>, city: string)
    requires ToLower(city) !in filterByCity
    ensures UntickCity(filterByCity, city) == filterByCity
  {
    var lower := ToLower(city);
    FilterAllPass(filterByCity, (c: string) => c != lower);
  }

  /** Ticking an unselected city and then unticking it restores the list exactly. */
  lemma TickThenUntick(filterByCity: seq<string>, city: string)
    requires ToLower(city) !in filterByCity
    ensures UntickCity(TickCity(filterByCity, city), city) == filterByCity
  {
    var lower := ToLower(city);
    var keep := (c: string) => c != lower;
    FilterConcat(filterByCity, [lower], keep);
    assert Filter([lower], keep) == [];
    UntickAbsent(filterByCity, city);
  }

  /** Unticking a selected city and ticking it again selects the same set of
      cities (the city moves to the end of the list). */
  lemma UntickThenTick(filterByCity: seq<string>, city: string)
    requires ToLower(city) in filterByCity
    ensures forall c :: c in TickCity(UntickCity(filterByCity, city), city) <==> c in filterByCity
  {
  }

  /** The `change` handler of the brewery type select. */
  function TypeChangePatch(value: string): (p: Patch)
    ensures forall s :: Merge(s, p) == s.(filterByType := value)
  {
    EMPTY_PATCH.(filterByType := Some(value))
  }

  /** The `change` handler of the checkbox of `city`, given the box's new
      `checked` value and the state the handler reads. */
  function CityChangePatch(s: State, city: string, checked: bool): (p: Patch)
    ensures Merge(s, p).filterByCity ==
            if checked then TickCity(s.filterByCity, city) else UntickCity(s.filterByCity, city)
    ensures Merge(s, p) == s.(filterByCity := Merge(s, p).filterByCity)
  {
    var next := if checked then TickCity(s.filterByCity, city) else UntickCity(s.filterByCity, city);
    EMPTY_PATCH.(filterByCity := Some(next))
  }

  /** The `click` handler of "clear all": no city is selected afterwards. */
  function ClearAllPatch(): (p: Patch)
    ensures forall s :: Merge(s, p) == s.(filterByCity := [])
  {
    EMPTY_PATCH.(filterByCity := Some([]))
  }
}
