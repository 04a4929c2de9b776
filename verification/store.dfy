/** The `orgchart_data` option: one stored document holding the whole chart. */
module Store {
  import opened Json

  /** What `get_option('orgchart_data')` holds once JSON-decoded: nothing at
      all, a list of node records, or something that is not an array. */
  datatype Stored = Absent | Saved(nodes: seq<Node>) | Unreadable

  /** The chart the handler starts from: an absent option reads as the
      default `'[]'`, and anything that does not decode to an array is
      replaced by the empty list. */
  function LoadChart(s: Stored): seq<Node>
  {
    match s
    case Saved(nodes) => nodes
    case _ => []
  }
}
