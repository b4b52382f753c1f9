/** Record shapes the store and the utilities share. */
module Types {

  /** `[lat, lng]`, or `[lng, lat]` once switched for GeoJSON. */
  type Location = (real, real)

  /** Two corners `[min, max]`; the store's dataset box is `[[south, west], [north, east]]`. */
  type Bounds = (Location, Location)

  /**
   * A cell of a spatial summary: a finite percentile, `null` for a cell without data, or a
   * number that is not finite (`NaN` or an infinity).
   */
  datatype CellValue = Empty | NonFinite | Pct(pct: real)

  /** A kernel of a guidance tree: a radial range belonging to the region at `regionDepth`. */
  datatype KernelGuidance = KernelGuidance(
    ring: (real, real),
    numPoints: seq<real>,
    diffEv: seq<real>,
    depth: int,
    index: int,
    regionDepth: int)
}
