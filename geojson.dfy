/**
 * Boundary geometries as the boundary lookup returns them (GeoJSON, positions
 * written longitude first) and their conversion into the paths the map draws
 * (Leaflet, latitude first). Coordinates are only carried and swapped, so
 * their type is a parameter.
 */
module GeoJson {
  import opened Wrappers

  /** A GeoJSON position `[lng, lat]`. */
  datatype LngLat<C> = LngLat(lng: C, lat: C)

  /** A Leaflet coordinate `[lat, lng]`. */
  datatype LatLng<C> = LatLng(lat: C, lng: C)

  /** A GeoJSON linear ring. */
  type Ring<C> = seq<LngLat<C>>

  /** One outline as the map draws it. */
  type Path<C> = seq<LatLng<C>>

  /**
   * A boundary geometry. `Polygon` holds an outer ring followed by its holes;
   * every other geometry type is read as a list of such polygons, which is
   * what `MultiPolygon` holds.
   */
  datatype Geometry<C> = Polygon(rings: seq<Ring<C>>) | MultiPolygon(polygons: seq<seq<Ring<C>>>)

  /** `path` lists the points of `ring` in the same order, each written latitude first. */
  ghost predicate SwappedFrom<C>(path: Path<C>, ring: Ring<C>)
  {
    |path| == |ring| && forall k :: 0 <= k < |ring| ==> path[k] == LatLng(ring[k].lat, ring[k].lng)
  }

  /** `ring.map(([lng, lat]) => [lat, lng])`. */
  function SwapRing<C>(ring: Ring<C>): (path: Path<C>)
    ensures SwappedFrom(path, ring)
  {
    if |ring| == 0 then []
    else [LatLng(ring[0].lat, ring[0].lng)] + SwapRing(ring[1..])
  }

  /**
   * `polygons.map(polygon => polygon[0].map(...))`: the swapped outer ring of
   * each polygon. A polygon without rings makes `polygon[0]` undefined and the
   * mapping throw, which is `None` here.
   */
  function OuterRings<C>(polygons: seq<seq<Ring<C>>>): (r: Option<seq<Path<C>>>)
    ensures r.Some? <==> forall i :: 0 <= i < |polygons| ==> |polygons[i]| > 0
    ensures r.Some? ==> |r.value| == |polygons|
    ensures r.Some? ==> forall i :: 0 <= i < |polygons| ==> SwappedFrom(r.value[i], polygons[i][0])
  {
    if |polygons| == 0 then Some([])
    else if |polygons[0]| == 0 then None
    else
      match OuterRings(polygons[1..])
      case None => None
      case Some(rest) => Some([SwapRing(polygons[0][0])] + rest)
  }

  /**
   * The conversion from GeoJSON to Leaflet outlines. A polygon yields exactly
   * its swapped outer ring; any other geometry yields one swapped outer ring
   * per polygon. Holes are dropped and ring lengths are kept. A polygon with
   * no rings cannot be converted (the source's `coordinates[0].map` throws).
   */
  function ToLeaflet<C>(g: Geometry<C>): (r: Option<seq<Path<C>>>)
    ensures g.Polygon? ==> (r.Some? <==> |g.rings| > 0)
    ensures g.Polygon? && r.Some? ==> |r.value| == 1 && SwappedFrom(r.value[0], g.rings[0])
    ensures g.MultiPolygon? ==> (r.Some? <==> forall i :: 0 <= i < |g.polygons| ==> |g.polygons[i]| > 0)
    ensures g.MultiPolygon? && r.Some? ==>
              |r.value| == |g.polygons| &&
              forall i :: 0 <= i < |g.polygons| ==> SwappedFrom(r.value[i], g.polygons[i][0])
  {
    match g
    case Polygon(rings) => if |rings| == 0 then None else Some([SwapRing(rings[0])])
    case MultiPolygon(polygons) => OuterRings(polygons)
  }

  /** The conversion reads only outer rings: changing the holes changes nothing. */
  lemma HolesDropped<C>(outer: Ring<C>, holes: seq<Ring<C>>, otherHoles: seq<Ring<C>>)
    ensures ToLeaflet(Polygon([outer] + holes)) == ToLeaflet(Polygon([outer] + otherHoles))
  {
  }

  /** Two polygon lists whose polygons have the same outer rings convert alike. */
  lemma {:induction false} HolesDroppedEach<C>(ps: seq<seq<Ring<C>>>, qs: seq<seq<Ring<C>>>)
    requires |ps| == |qs|
    requires forall i :: 0 <= i < |ps| ==> (|ps[i]| > 0 <==> |qs[i]| > 0)
    requires forall i :: 0 <= i < |ps| && |ps[i]| > 0 && |qs[i]| > 0 ==> ps[i][0] == qs[i][0]
    ensures ToLeaflet(MultiPolygon(ps)) == ToLeaflet(MultiPolygon(qs))
  {
    var a, b := OuterRings(ps), OuterRings(qs);
    if a.Some? {
      assert b.Some?;
      forall i | 0 <= i < |ps| ensures a.value[i] == b.value[i] {
        assert SwappedFrom(a.value[i], ps[i][0]) && SwappedFrom(b.value[i], qs[i][0]);
      }
      assert a.value == b.value;
    }
  }
}
