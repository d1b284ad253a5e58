/** One row of the grid-disruption table, as the dashboard reads and rewrites it. */
module Records {

  /**
   * The `Duration` field: absent until the load pass computes it, then either
   * the sentinel `'Unknown'` or the milliseconds between begin and restoration.
   */
  datatype Duration = Unset | UnknownDuration | Millis(ms: int)

  /**
   * The columns the dashboard uses. Dates are `M/D/Y` text and times `H:MM`
   * text as in the table; `Year` is the year column; demand loss and customer
   * counts stay text, where `''` means unknown.
   */
  datatype Record = Record(
    eventType: string,
    region: string,
    dateBegin: string,
    timeBegin: string,
    dateRestoration: string,
    timeRestoration: string,
    demandLoss: string,
    customers: string,
    year: int,
    duration: Duration)

  /** The key `d['Event Type']`. */
  function EventType(r: Record): string {
    r.eventType
  }

  /** The key `d['NERC Region']`. */
  function Region(r: Record): string {
    r.region
  }

  /** The key `d.Year`. */
  function Year(r: Record): int {
    r.year
  }
}
