/**
 * The boundary-resolution workflow of `fetchStateBoundary`: geocode the
 * search text, look up the administrative boundaries around the point found,
 * pick the state's feature and convert its geometry for the map. The two
 * HTTP replies and the map library's centre point are inputs.
 */
module Resolver {
  import opened Wrappers
  import opened Text
  import opened GeoJson

  /** The properties of a geocoding feature the component reads. */
  datatype Place = Place(name: Option<string>, lat: Option<real>, lon: Option<real>)

  /** A boundary feature: its name, its `admin_level` when that is a number, and its geometry. */
  datatype Region<C> = Region(name: Option<string>, adminLevel: Option<int>, geometry: Option<Geometry<C>>)

  /** An HTTP reply: the `features` member of its body (possibly missing), or a transport failure. */
  datatype Reply<F> = Received(features: Option<seq<F>>) | TransportError

  /** Why a resolution stopped: one per `throw` in the source, plus the request errors. */
  datatype Failure =
    | NetworkError             // axios rejected either request
    | StateNotFound            // no first geocoding feature
    | CoordinatesNotAvailable  // latitude or longitude falsy
    | NoBoundariesReturned     // no boundary features
    | BoundaryNotFound         // no feature selected, or it has no geometry
    | MalformedGeometry        // the conversion reached an undefined ring list

  /** What one call of the workflow did. */
  datatype Outcome = Skipped | Resolved | Failed(reason: Failure)

  /** OSM `admin_level` of Indian states. */
  const StateAdminLevel: int := 4

  /** JavaScript truthiness of a numeric property: present and not zero. */
  predicate Truthy(x: Option<real>)
  {
    x.Some? && x.value != 0.0
  }

  /** Step 1: the first geocoding feature, provided both of its coordinates are truthy. */
  function Geocode(reply: Reply<Place>): (r: Result<Place, Failure>)
    ensures r.Ok? ==> reply.Received? && reply.features.Some? && |reply.features.value| > 0
    ensures r.Ok? ==> r.value == reply.features.value[0] && Truthy(r.value.lat) && Truthy(r.value.lon)
  {
    match reply
    case TransportError => Err(NetworkError)
    case Received(features) =>
      if features.None? || |features.value| == 0 then Err(StateNotFound)
      else
        var place := features.value[0];
        if !Truthy(place.lat) || !Truthy(place.lon) then Err(CoordinatesNotAvailable)
        else Ok(place)
  }

  /** `feature.properties.name || search`: the provider's name unless it is missing or empty. */
  function DisplayName(place: Place, search: string): (r: string)
    ensures r == search || Some(r) == place.name
    ensures place.name.Some? && |place.name.value| > 0 ==> r == place.name.value
    ensures !(place.name.Some? && |place.name.value| > 0) ==> r == search
  {
    if place.name.Some? && |place.name.value| > 0 then place.name.value else search
  }

  /** The test `features.find` applies: the name equals the search ignoring case, or the level is a state's. */
  predicate IsStateRegion<C>(f: Region<C>, search: string)
  {
    (f.name.Some? && Lower(f.name.value) == Lower(search)) || f.adminLevel == Some(StateAdminLevel)
  }

  /** `features.find(...)`, as the index of the first feature that passes the test. */
  function FindFirst<C>(regions: seq<Region<C>>, search: string): (r: Option<nat>)
    ensures r.Some? ==> r.value < |regions| && IsStateRegion(regions[r.value], search)
    ensures r.Some? ==> forall j :: 0 <= j < r.value ==> !IsStateRegion(regions[j], search)
    ensures r.None? ==> forall j :: 0 <= j < |regions| ==> !IsStateRegion(regions[j], search)
  {
    if |regions| == 0 then None
    else if IsStateRegion(regions[0], search) then Some(0)
    else
      match FindFirst(regions[1..], search)
      case None => None
      case Some(i) => Some(i + 1)
  }

  /** Step 2: the geometry of the selected boundary feature. */
  function SelectRegion<C>(reply: Reply<Region<C>>, search: string): (r: Result<Geometry<C>, Failure>)
  {
    match reply
    case TransportError => Err(NetworkError)
    case Received(features) =>
      if features.None? || |features.value| == 0 then Err(NoBoundariesReturned)
      else
        match FindFirst(features.value, search)
        case None => Err(BoundaryNotFound)
        case Some(i) =>
          if features.value[i].geometry.None? then Err(BoundaryNotFound)
          else Ok(features.value[i].geometry.value)
  }

  /** The first feature of `regions` that passes the selection test is the one at `i`. */
  ghost predicate FirstStateRegionAt<C>(regions: seq<Region<C>>, search: string, i: int)
  {
    && 0 <= i < |regions|
    && IsStateRegion(regions[i], search)
    && forall j :: 0 <= j < i ==> !IsStateRegion(regions[j], search)
  }

  /** A selected geometry belongs to the first qualifying feature in reply order. */
  lemma SelectionIsFirstMatch<C>(features: seq<Region<C>>, search: string)
    requires SelectRegion(Received(Some(features)), search).Ok?
    ensures exists i :: FirstStateRegionAt(features, search, i) &&
                        features[i].geometry == Some(SelectRegion(Received(Some(features)), search).value)
  {
    var i := FindFirst(features, search).value;
    assert FirstStateRegionAt(features, search, i);
  }

  /** When the first qualifying feature has no geometry, selection fails, whatever follows it. */
  lemma GeometrylessMatchFails<C>(features: seq<Region<C>>, search: string, i: int)
    requires FirstStateRegionAt(features, search, i)
    requires features[i].geometry.None?
    ensures SelectRegion(Received(Some(features)), search) == Err(BoundaryNotFound)
  {
    FirstIsUnique(features, search, i);
  }

  /** `FindFirst` finds exactly the first qualifying feature. */
  lemma FirstIsUnique<C>(regions: seq<Region<C>>, search: string, i: int)
    requires FirstStateRegionAt(regions, search, i)
    ensures FindFirst(regions, search) == Some(i)
  {
    assert FindFirst(regions, search).Some?;
  }

  /** Selection fails exactly when no feature qualifies or the first one that does has no geometry. */
  lemma SelectionFailure<C>(features: seq<Region<C>>, search: string)
    requires |features| > 0
    ensures SelectRegion(Received(Some(features)), search) == Err(BoundaryNotFound) <==>
            (forall j :: 0 <= j < |features| ==> !IsStateRegion(features[j], search)) ||
            (exists i :: FirstStateRegionAt(features, search, i) && features[i].geometry.None?)
  {
    if exists i :: FirstStateRegionAt(features, search, i) && features[i].geometry.None? {
      var i :| FirstStateRegionAt(features, search, i) && features[i].geometry.None?;
      GeometrylessMatchFails(features, search, i);
    }
    if SelectRegion(Received(Some(features)), search) == Err(BoundaryNotFound) {
      var found := FindFirst(features, search);
      if found.Some? {
        assert FirstStateRegionAt(features, search, found.value);
      }
    }
  }

  /** The component's state fields. */
  datatype View<C> = View(
    search: string,
    suggestions: seq<string>,
    boundary: seq<Path<C>>,
    markerPos: Option<LatLng<C>>,
    placeName: string,
    loading: bool)

  /** The state after one call, and how the call ended. */
  datatype Transition<C> = Transition(after: View<C>, outcome: Outcome)

  /**
   * One run of `fetchStateBoundary` on the state `v`, as a function of the
   * two replies and the centre the map library computes for the feature.
   * Once started, the run clears boundary and marker; a successful geocode
   * sets the display name; only a complete success sets boundary and marker;
   * `loading` is false at the end either way.
   */
  function Resolve<C>(v: View<C>, geo: Reply<Place>, regions: Reply<Region<C>>, center: LatLng<C>): Transition<C>
  {
    if |v.search| == 0 then Transition(v, Skipped)
    else
      var cleared := v.(boundary := [], markerPos := None, loading := false);
      match Geocode(geo)
      case Err(e) => Transition(cleared, Failed(e))
      case Ok(place) =>
        var named := cleared.(placeName := DisplayName(place, v.search));
        match SelectRegion(regions, v.search)
        case Err(e) => Transition(named, Failed(e))
        case Ok(geometry) =>
          match ToLeaflet(geometry)
          case None => Transition(named, Failed(MalformedGeometry))
          case Some(paths) => Transition(named.(boundary := paths, markerPos := Some(center)), Resolved)
  }

  /** An empty search changes nothing at all. */
  lemma EmptySearchIsNoOp<C>(v: View<C>, geo: Reply<Place>, regions: Reply<Region<C>>, center: LatLng<C>)
    requires |v.search| == 0
    ensures Resolve(v, geo, regions, center) == Transition(v, Skipped)
  {
  }

  /** A run never edits the search text or the suggestions, and a started run always ends not loading. */
  lemma ResolveFrame<C>(v: View<C>, geo: Reply<Place>, regions: Reply<Region<C>>, center: LatLng<C>)
    ensures var t := Resolve(v, geo, regions, center);
            t.after.search == v.search && t.after.suggestions == v.suggestions
    ensures |v.search| > 0 ==> !Resolve(v, geo, regions, center).after.loading
  {
  }

  /** On every failure the boundary is empty and the marker is absent, whatever they were before. */
  lemma FailureClearsMap<C>(v: View<C>, geo: Reply<Place>, regions: Reply<Region<C>>, center: LatLng<C>)
    requires Resolve(v, geo, regions, center).outcome.Failed?
    ensures var t := Resolve(v, geo, regions, center);
            t.after.boundary == [] && t.after.markerPos == None && !t.after.loading
  {
  }

  /**
   * The display name is set by a successful geocode and kept when a later
   * step fails; when geocoding fails it is left as it was.
   */
  lemma PlaceNameAfterGeocode<C>(v: View<C>, geo: Reply<Place>, regions: Reply<Region<C>>, center: LatLng<C>)
    requires |v.search| > 0
    ensures Geocode(geo).Ok? ==>
              Resolve(v, geo, regions, center).after.placeName == DisplayName(Geocode(geo).value, v.search)
    ensures Geocode(geo).Err? ==>
              Resolve(v, geo, regions, center) == Transition(v.(boundary := [], markerPos := None, loading := false), Failed(Geocode(geo).error))
  {
  }

  /**
   * A run succeeds exactly when every step does, and then the map shows the
   * converted geometry of the selected feature with the marker at the centre.
   */
  lemma SuccessIffAllSteps<C>(v: View<C>, geo: Reply<Place>, regions: Reply<Region<C>>, center: LatLng<C>)
    ensures Resolve(v, geo, regions, center).outcome == Resolved <==>
            |v.search| > 0 && Geocode(geo).Ok? && SelectRegion(regions, v.search).Ok? &&
            ToLeaflet(SelectRegion(regions, v.search).value).Some?
    ensures Resolve(v, geo, regions, center).outcome == Resolved ==>
            var t := Resolve(v, geo, regions, center);
            t.after.boundary == ToLeaflet(SelectRegion(regions, v.search).value).value &&
            t.after.markerPos == Some(center)
  {
  }

  /** Why geocoding fails: the request failed, no first feature came back, or a coordinate is falsy. */
  lemma GeocodeFailures(reply: Reply<Place>)
    ensures Geocode(reply) == Err(NetworkError) <==> reply.TransportError?
    ensures Geocode(reply) == Err(StateNotFound) <==>
              reply.Received? && (reply.features.None? || |reply.features.value| == 0)
    ensures Geocode(reply) == Err(CoordinatesNotAvailable) <==>
              reply.Received? && reply.features.Some? && |reply.features.value| > 0 &&
              !(Truthy(reply.features.value[0].lat) && Truthy(reply.features.value[0].lon))
  {
  }

  /** Why boundary selection fails before any feature is inspected. */
  lemma SelectionPreconditions<C>(reply: Reply<Region<C>>, search: string)
    ensures SelectRegion(reply, search) == Err(NetworkError) <==> reply.TransportError?
    ensures SelectRegion(reply, search) == Err(NoBoundariesReturned) <==>
              reply.Received? && (reply.features.None? || |reply.features.value| == 0)
  {
  }

  /** A zero latitude or longitude is rejected like a missing one. */
  lemma ZeroCoordinateRejected(name: Option<string>, lat: real, lon: real)
    requires lat == 0.0 || lon == 0.0
    ensures Geocode(Received(Some([Place(name, Some(lat), Some(lon))]))) == Err(CoordinatesNotAvailable)
  {
  }

  /**
   * The Kerala walk-through: the first boundary feature (the country) is
   * skipped, and the state-level polygon is drawn with its points swapped.
   */
  lemma KeralaScenario<C>(ring: Ring<C>, center: LatLng<C>)
    ensures
      var t := Resolve(
        View("Kerala", [], [], None, "", false),
        Received(Some([Place(Some("Kerala"), Some(10.85), Some(76.27))])),
        Received(Some([Region(Some("India"), Some(2), None),
                       Region(None, Some(4), Some(Polygon([ring])))])),
        center);
      t.outcome == Resolved && t.after.placeName == "Kerala" &&
      |t.after.boundary| == 1 && SwappedFrom(t.after.boundary[0], ring) &&
      t.after.markerPos == Some(center)
  {
    var regions := [Region(Some("India"), Some(2), None), Region(None, Some(4), Some(Polygon([ring])))];
    assert |Lower("India")| != |Lower("Kerala")|;
    assert !IsStateRegion(regions[0], "Kerala");
    FirstIsUnique(regions, "Kerala", 1);
  }

  /** The Atlantis walk-through: no geocoding match, nothing drawn. */
  lemma AtlantisScenario<C>(regions: Reply<Region<C>>, center: LatLng<C>)
    ensures
      var t := Resolve(View("Atlantis", [], [], None, "", false), Received(Some([])), regions, center);
      t.outcome == Failed(StateNotFound) && t.after.boundary == [] && t.after.markerPos == None
  {
  }
}
