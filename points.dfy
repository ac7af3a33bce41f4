/**
  `lat_long_to_point` (ion_processing.py): pair the longitude and latitude
  columns of a frame into points, tag them as WGS84 and reproject the frame.
  The reprojection itself is a parameter.
*/
module Points {
  import opened Wrappers
  import opened Frames
  import opened ReferenceSystems

  /** A planar point; x is the longitude and y the latitude before reprojection. */
  datatype Point = Point(x: real, y: real)

  /** A geospatial frame: the rows, one geometry per row, and the CRS of the geometries. */
  datatype GeoTable = GeoTable(table: Table, geometry: seq<Point>, crs: Crs)

  /** The geographic system the raw coordinates are declared in. */
  const WGS84: Crs := "EPSG:4326"

  /** `[Point(lon, lat) for lon, lat in zip(longs, lats)]`; `zip` stops at the shorter input. */
  function PairPoints(longs: seq<real>, lats: seq<real>): (points: seq<Point>)
    ensures |points| == if |longs| <= |lats| then |longs| else |lats|
    ensures forall i :: 0 <= i < |points| ==> points[i] == Point(longs[i], lats[i])
  {
    if longs == [] || lats == [] then []
    else [Point(longs[0], lats[0])] + PairPoints(longs[1..], lats[1..])
  }

  /** `to_crs(target)`: every geometry is transformed from the frame's CRS into `target`. */
  function ToCrs(g: GeoTable, target: Crs, transform: (Crs, Crs, Point) -> Point): (h: GeoTable)
    ensures h.table == g.table && h.crs == target
    ensures |h.geometry| == |g.geometry|
    ensures forall i :: 0 <= i < |g.geometry| ==> h.geometry[i] == transform(g.crs, target, g.geometry[i])
  {
    GeoTable(g.table, seq(|g.geometry|, i requires 0 <= i < |g.geometry| => transform(g.crs, target, g.geometry[i])), target)
  }

  /**
    `lat_long_to_point(df, lat_col, long_col)`: one point per row, in row
    order, x from the longitude column and y from the latitude column, then
    reprojected from WGS84 into `target`. The longitude column is looked up
    first, so its KeyError wins when both are missing.
  */
  function LatLongToPoint(t: Table, latCol: string, longCol: string, target: Crs,
                          transform: (Crs, Crs, Point) -> Point): (r: Result<GeoTable, TableError>)
    requires t.WellFormed()
    ensures r.Failure? <==> longCol !in t.columns || latCol !in t.columns
    ensures r.Failure? ==> r.error == KeyError(if longCol !in t.columns then longCol else latCol)
    ensures r.Success? ==> r.value.table == t && r.value.crs == target
    ensures r.Success? ==> |r.value.geometry| == |t.rows|
    ensures r.Success? ==> forall i :: 0 <= i < |t.rows| ==>
              longCol in t.rows[i] && latCol in t.rows[i] &&
              r.value.geometry[i] == transform(WGS84, target, Point(t.rows[i][longCol], t.rows[i][latCol]))
  {
    var longs := Column(t, longCol);
    if longs.Failure? then Failure(longs.error)
    else
      var lats := Column(t, latCol);
      if lats.Failure? then Failure(lats.error)
      else
        var tagged := GeoTable(t, PairPoints(longs.value, lats.value), WGS84);
        Success(ToCrs(tagged, target, transform))
  }
}
