/** The values a polyfile is read into. */
module Domain {
  import opened Wrappers

  /** The free-text description above a block: its comment lines, joined by newlines. */
  datatype DescriptionHeader = DescriptionHeader(content: string)

  /** The name of a block and its declared dimensions; `nColumns` is -1 when only the number
      of rows was given. */
  datatype Metadata = Metadata(name: string, nRows: int, nColumns: int)

  /** One row of coordinates. `z` is only set for readers configured with z values;
      `data` holds the values beyond the minimum column count. */
  datatype Point = Point(x: real, y: real, z: Option<real>, data: seq<real>)

  /** One block of the file. */
  datatype PolyObject = PolyObject(description: Option<DescriptionHeader>, metadata: Metadata, points: seq<Point>)

  /** The values a point was built from, in row order. */
  function Coordinates(p: Point): seq<real>
  {
    [p.x, p.y] + (if p.z.Some? then [p.z.value] else []) + p.data
  }
}
