/**
 * The `App` component's state and its three handlers. Each handler assigns
 * the state fields one at a time as the component does; its contract ties
 * the new state to the functions of `Autocomplete` and `Resolver`.
 */
module Component {
  import opened Wrappers
  import opened Autocomplete
  import opened GeoJson
  import opened Resolver

  class App<C> {
    /** The module-level `states` list the handlers read; the constructor sets it to `States`. */
    const states: seq<string>
    var search: string
    var suggestions: seq<string>
    var boundary: seq<Path<C>>
    var markerPos: Option<LatLng<C>>
    var placeName: string
    var loading: bool

    /** The fields as one value. */
    ghost function Snapshot(): View<C>
      reads this
    {
      View(search, suggestions, boundary, markerPos, placeName, loading)
    }

    /**
     * Between handler calls no request is in flight, every suggestion is a
     * state in list order, and an outline is never drawn without its marker.
     * `states == States` is not part of it: the constructor establishes it
     * and `states` is a constant no method can change, while restating the
     * 28-entry literal here would weigh on every handler's proof.
     */
    ghost predicate Valid()
      reads this
    {
      && !loading
      && SubsequenceOf(suggestions, states)
      && (|boundary| > 0 ==> markerPos.Some?)
    }

    /** The initial values of the `useState` hooks. */
    constructor ()
      ensures Valid()
      ensures states == States
      ensures Snapshot() == View("", [], [], None, "", false)
    {
      states := States;
      search := "";
      suggestions := [];
      boundary := [];
      markerPos := None;
      placeName := "";
      loading := false;
    }

    /** `handleSearchChange`: the input value becomes the search and its suggestions are listed. */
    method HandleSearchChange(value: string)
      requires Valid()
      modifies this
      ensures Valid()
      ensures Snapshot() == old(Snapshot()).(search := value, suggestions := Suggestions(states, value))
    {
      search := value;
      suggestions := Suggestions(states, value);
    }

    /** `selectSuggestion`: the chosen entry becomes the search and the list closes. */
    method SelectSuggestion(s: string)
      requires Valid()
      modifies this
      ensures Valid()
      ensures Snapshot() == old(Snapshot()).(search := s, suggestions := [])
    {
      search := s;
      suggestions := [];
    }

    /**
     * `fetchStateBoundary`, given the geocoding reply, the boundary reply and
     * the centre the map library computes for the selected feature. Each
     * early `break` stands for a `throw` caught by the source's `catch`;
     * the final assignment is its `finally`.
     */
    method FetchStateBoundary(geo: Reply<Place>, regions: Reply<Region<C>>, center: LatLng<C>)
      returns (outcome: Outcome)
      requires Valid()
      modifies this
      ensures Valid()
      ensures Transition(Snapshot(), outcome) == Resolve(old(Snapshot()), geo, regions, center)
    {
      if |search| == 0 {
        return Skipped;
      }
      loading := true;
      boundary := [];
      markerPos := None;
      label attempt: {
        var place := Geocode(geo);
        if place.Err? {
          outcome := Failed(place.error);
          break attempt;
        }
        placeName := DisplayName(place.value, search);
        var selected := SelectRegion(regions, search);
        if selected.Err? {
          outcome := Failed(selected.error);
          break attempt;
        }
        var paths := ToLeaflet(selected.value);
        if paths.None? {
          outcome := Failed(MalformedGeometry);
          break attempt;
        }
        boundary := paths.value;
        markerPos := Some(center);
        outcome := Resolved;
      }
      loading := false;
    }
  }

  /** Typing, picking an offered entry and searching, as the page does them in turn. */
  method SearchSelected<C>(app: App<C>, typed: string, pick: string,
                           geo: Reply<Place>, regions: Reply<Region<C>>, center: LatLng<C>)
    returns (outcome: Outcome)
    requires app.Valid()
    requires |pick| > 0
    modifies app
    ensures app.Valid()
    ensures app.search == pick && app.suggestions == []
    ensures outcome != Skipped
    ensures outcome.Failed? ==> app.boundary == [] && app.markerPos == None
    ensures outcome == Resolved ==> app.markerPos == Some(center)
  {
    app.HandleSearchChange(typed);
    app.SelectSuggestion(pick);
    ghost var before := app.Snapshot();
    outcome := app.FetchStateBoundary(geo, regions, center);
    ResolveFrame(before, geo, regions, center);
    if outcome.Failed? {
      FailureClearsMap(before, geo, regions, center);
    }
    if outcome == Resolved {
      SuccessIffAllSteps(before, geo, regions, center);
    }
  }
}
