/** The page itself: the module-level state, `setState`, the full re-render
    of the `<main>` region, and the event handlers that feed `setState`.
    `view` stands for the children of `<main>`, one entry per section. */
module App {
  import opened Types
  import opened Text
  import opened Store
  import opened FetchData
  import opened Filters
  import opened ListView

  /** A city checkbox of the filters section: its `value` (the lower-cased
      city), its caption (the city as stored) and whether it is ticked. */
  datatype CityCheckbox = CityCheckbox(value: string, caption: string, checked: bool)

  /** The sections `renderMain` appends to `<main>`. */
  datatype Section =
    | FiltersSection(filterByType: string, cityCheckboxes: seq<CityCheckbox>)
    | TitleSection(text: string)
    | SearchSection(value: string)
    | ListSection(items: seq<ListItem>)

  const TITLE := "List of Breweries"

  /** `renderCityCheckbox`: the box is ticked when its lower-cased city is selected. */
  function CheckboxOf(s: State, city: string): CityCheckbox {
    CityCheckbox(ToLower(city), city, ToLower(city) in s.filterByCity)
  }

  /** One checkbox per stored city, in the stored order. */
  function CityCheckboxes(s: State): (r: seq<CityCheckbox>)
    ensures |r| == |s.cities|
    ensures forall i :: 0 <= i < |r| ==>
              && r[i].caption == s.cities[i]
              && r[i].value == ToLower(s.cities[i])
              && (r[i].checked <==> ToLower(s.cities[i]) in s.filterByCity)
  {
    seq(|s.cities|, (i: int) requires 0 <= i < |s.cities| => CheckboxOf(s, s.cities[i]))
  }

  /** Ticking a city's box shows it ticked after the re-render; unticking shows
      it unticked; a box whose lower-cased city differs keeps its state. */
  lemma CheckboxAfterChange(s: State, city: string, checked: bool, other: string)
    ensures CheckboxOf(Merge(s, CityChangePatch(s, city, checked)), city).checked == checked
    ensures ToLower(other) != ToLower(city) ==>
            CheckboxOf(Merge(s, CityChangePatch(s, city, checked)), other).checked == CheckboxOf(s, other).checked
  {
  }

  /** What `render` leaves in `<main>` for state `s`: nothing when no state
      name is entered, otherwise the filters, the title, the search bar and
      the list, in that order. */
  function MainSections(s: State): (r: seq<Section>)
    ensures r == [] <==> s.selectStateInput == ""
    ensures s.selectStateInput != "" ==>
              && |r| == 4
              && r[0] == FiltersSection(s.filterByType, CityCheckboxes(s))
              && r[1] == TitleSection(TITLE)
              && r[2] == SearchSection(s.searchBreweriesInput)
              && r[3] == ListSection(ShownItems(s))
              && |r[3].items| <= PAGE_SIZE
  {
    if s.selectStateInput == "" then []
    else
      [FiltersSection(s.filterByType, CityCheckboxes(s)), TitleSection(TITLE),
       SearchSection(s.searchBreweriesInput), ListSection(ShownItems(s))]
  }

  /** What the stored state always satisfies once breweries have arrived:
      only allowed types, and the city list is their distinct cities. */
  ghost predicate Consistent(s: State) {
    && (forall b :: b in s.breweries ==> IsAllowedType(b.breweryType))
    && s.cities == DistinctCities(s.breweries)
  }

  lemma InitialStateConsistent()
    ensures Consistent(INITIAL_STATE)
  {
  }

  /** Under the invariant, every listed brewery has an allowed type and
      every city checkbox is captioned with some stored brewery's city. */
  lemma ConsistentView(s: State)
    requires Consistent(s)
    ensures forall b :: b in Visible(s) ==> IsAllowedType(b.breweryType)
    ensures forall c :: c in CityCheckboxes(s) ==> exists b :: b in s.breweries && b.city == c.caption
  {
    forall b | b in Visible(s)
      ensures IsAllowedType(b.breweryType)
    {
      VisibleSoundAndComplete(s, b);
    }
    var boxes := CityCheckboxes(s);
    forall c | c in boxes
      ensures exists b :: b in s.breweries && b.city == c.caption
    {
      var i :| 0 <= i < |boxes| && boxes[i] == c;
      assert s.cities[i] in s.cities;
    }
  }

  class Page {
    var state: State
    var view: seq<Section>
    /** How many times `render` has run. */
    var renders: nat
    /** Whether `document.querySelector('main')` found an element. */
    const hasMainElement: bool

    /** `main()`: the initial state, then one `render`. */
    constructor (hasMainElement: bool)
      ensures this.hasMainElement == hasMainElement
      ensures state == INITIAL_STATE && view == [] && renders == 1
      ensures Consistent(state)
    {
      this.hasMainElement := hasMainElement;
      state := INITIAL_STATE;
      view := [];
      renders := 0;
      new;
      Render();
    }

    /** `render`: clears `<main>` and, when a state name is entered, rebuilds it. */
    method Render()
      modifies this`view, this`renders
      ensures renders == old(renders) + 1
      ensures view == if hasMainElement then MainSections(state) else old(view)
    {
      renders := renders + 1;
      if !hasMainElement {
        return;
      }
      view := [];
      if state.selectStateInput != "" {
        RenderMain();
      }
    }

    /** `renderMain`: appends the four sections in order. */
    method RenderMain()
      requires state.selectStateInput != ""
      modifies this`view
      ensures view == old(view) + MainSections(state)
    {
      view := view + [FiltersSection(state.filterByType, CityCheckboxes(state))];
      view := view + [TitleSection(TITLE)];
      view := view + [SearchSection(state.searchBreweriesInput)];
      var items := RenderList(state);
      view := view + [ListSection(items)];
    }

    /** `setState`: shallow-merges `patch` over the state, then renders unless
        `skipRender` is set. */
    method SetState(patch: Patch, skipRender: bool)
      modifies this
      ensures state == Merge(old(state), patch)
      ensures renders == old(renders) + (if skipRender then 0 else 1)
      ensures view == if skipRender || !hasMainElement then old(view) else MainSections(state)
    {
      state := Merge(state, patch);
      if skipRender {
        return;
      }
      Render();
    }

    /** Typing in the state-name input stores the text without rendering. */
    method OnSelectStateInput(value: string)
      modifies this
      ensures state == old(state).(selectStateInput := value)
      ensures Consistent(old(state)) ==> Consistent(state)
      ensures view == old(view) && renders == old(renders)
    {
      SetState(EMPTY_PATCH.(selectStateInput := Some(value)), true);
    }

    /** The continuation of the brewery fetch, given the decoded response:
        the allowed breweries and their distinct cities are stored. */
    method OnBreweriesFetched(response: seq<Brewery>)
      modifies this
      ensures state == old(state).(breweries := CleanData(response), cities := DistinctCities(CleanData(response)))
      ensures Consistent(state)
      ensures renders == old(renders) + 1
      ensures view == if hasMainElement then MainSections(state) else old(view)
    {
      var breweries := CleanData(response);
      var cities := ExtractCitiesData(breweries);
      SetState(EMPTY_PATCH.(breweries := Some(breweries), cities := Some(cities)), false);
    }

    /** Choosing an option of the type select. */
    method OnTypeChange(value: string)
      modifies this
      ensures state == old(state).(filterByType := value)
      ensures Consistent(old(state)) ==> Consistent(state)
      ensures renders == old(renders) + 1
      ensures view == if hasMainElement then MainSections(state) else old(view)
    {
      SetState(TypeChangePatch(value), false);
    }

    /** Ticking (`checked`) or unticking the checkbox of `city`. */
    method OnCityChange(city: string, checked: bool)
      modifies this
      ensures state == old(state).(filterByCity :=
                if checked then TickCity(old(state).filterByCity, city)
                else UntickCity(old(state).filterByCity, city))
      ensures Consistent(old(state)) ==> Consistent(state)
      ensures renders == old(renders) + 1
      ensures view == if hasMainElement then MainSections(state) else old(view)
    {
      SetState(CityChangePatch(state, city, checked), false);
    }

    /** The "clear all" button. */
    method OnClearAll()
      modifies this
      ensures state == old(state).(filterByCity := [])
      ensures Consistent(old(state)) ==> Consistent(state)
      ensures renders == old(renders) + 1
      ensures view == if hasMainElement then MainSections(state) else old(view)
    {
      SetState(ClearAllPatch(), false);
    }
  }
}
