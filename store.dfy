/** `Partial<State>` and the shallow merge `{...state, ...newState}` that
    `setState` performs. */
module Store {
  import opened Types

  datatype Option<T> = None | Some(value: T) {
    function GetOr(default: T): T {
      match this
      case Some(v) => v
      case None => default
    }
  }

  /** A partial state record: a field is either given a new value or absent. */
  datatype Patch = Patch(
    selectStateInput: Option<string>,
    breweries: Option<seq<Brewery>>,
    cities: Option<seq<string>>,
    filterByType: Option<string>,
    filterByCity: Option<seq<string>>,
    searchBreweriesInput: Option<string>)

  /** `{}`: the patch with no field. */
  const EMPTY_PATCH := Patch(None, None, None, None, None, None)

  /** `{...s, ...p}`: each field given in `p` takes `p`'s value, every other
      field keeps the value it has in `s`. */
  function Merge(s: State, p: Patch): (r: State)
    ensures p.selectStateInput.Some? ==> r.selectStateInput == p.selectStateInput.value
    ensures p.selectStateInput.None? ==> r.selectStateInput == s.selectStateInput
    ensures p.breweries.Some? ==> r.breweries == p.breweries.value
    ensures p.breweries.None? ==> r.breweries == s.breweries
    ensures p.cities.Some? ==> r.cities == p.cities.value
    ensures p.cities.None? ==> r.cities == s.cities
    ensures p.filterByType.Some? ==> r.filterByType == p.filterByType.value
    ensures p.filterByType.None? ==> r.filterByType == s.filterByType
    ensures p.filterByCity.Some? ==> r.filterByCity == p.filterByCity.value
    ensures p.filterByCity.None? ==> r.filterByCity == s.filterByCity
    ensures p.searchBreweriesInput.Some? ==> r.searchBreweriesInput == p.searchBreweriesInput.value
    ensures p.searchBreweriesInput.None? ==> r.searchBreweriesInput == s.searchBreweriesInput
  {
    State(
      p.selectStateInput.GetOr(s.selectStateInput),
      p.breweries.GetOr(s.breweries),
      p.cities.GetOr(s.cities),
      p.filterByType.GetOr(s.filterByType),
      p.filterByCity.GetOr(s.filterByCity),
      p.searchBreweriesInput.GetOr(s.searchBreweriesInput))
  }

  /** `{...p, ...q}`: the patch whose effect is `p` followed by `q`. */
  function Then(p: Patch, q: Patch): Patch {
    Patch(
      if q.selectStateInput.Some? then q.selectStateInput else p.selectStateInput,
      if q.breweries.Some? then q.breweries else p.breweries,
      if q.cities.Some? then q.cities else p.cities,
      if q.filterByType.Some? then q.filterByType else p.filterByType,
      if q.filterByCity.Some? then q.filterByCity else p.filterByCity,
      if q.searchBreweriesInput.Some? then q.searchBreweriesInput else p.searchBreweriesInput)
  }

  /** `setState({})` leaves every field as it was. */
  lemma MergeEmpty(s: State)
    ensures Merge(s, EMPTY_PATCH) == s
  {
  }

  /** Two merges in a row are one merge of the combined patch. */
  lemma MergeThen(s: State, p: Patch, q: Patch)
    ensures Merge(Merge(s, p), q) == Merge(s, Then(p, q))
  {
  }

  /** Merging the same patch twice is merging it once. */
  lemma MergeIdempotent(s: State, p: Patch)
    ensures Merge(Merge(s, p), p) == Merge(s, p)
  {
  }

  /** A patch that gives every field replaces the state outright. */
  lemma MergeFull(s: State, t: State)
    ensures Merge(s, Patch(Some(t.selectStateInput), Some(t.breweries), Some(t.cities),
                           Some(t.filterByType), Some(t.filterByCity), Some(t.searchBreweriesInput))) == t
  {
  }
}
