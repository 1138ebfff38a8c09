/** The `{x, y}` records the shards hold: a label (page or day) and a view count. */
module Points {
  datatype Point = Point(x: string, y: int)
}
