/** Coordinate reference systems, shared by the loader and the point construction. */
module ReferenceSystems {

  /** A coordinate reference system identifier, such as "EPSG:4326". */
  type Crs = string
}
