/** Events that the track sends to every safety algorithm. */
module Events {
  datatype Event =
    | Crossing(section: int)
    | Entry(section: int)
    | Exit(section: int)
    | Request(section: int)
    | Cancel(section: int)

  /** Does the event name a section that there is?  The algorithms themselves only check crossings. */
  predicate InRange(n: nat, e: Event) {
    e.Crossing? || 0 <= e.section < n
  }
}
