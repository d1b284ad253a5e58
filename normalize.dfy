/**
 * The load-time passes of the dashboard's entry script: each record's event
 * type goes through a fixed remapping table, its duration is derived from the
 * four date and time fields, and its NERC region code is cleaned up. The
 * records are rewritten in place, in one array.
 */
module Normalize {
  import opened Strings
  import opened Records

  /** Near-duplicate event-type labels and the canonical label each one stands for. */
  const EventTypeMap: map<string, string> := map[
    "Severe Weather/Transmission Interruption" := "Severe Weather",
    "Severe Weather/Distribution Interruption" := "Severe Weather",
    "Weather" := "Severe Weather",
    "Sabotage - Operator Action(s)" := "Sabotage",
    "Distribution Interruption " := "Distribution Interruption",
    "Sabotage " := "Sabotage",
    "Actual Physical Event" := "Actual Physical Attack",
    " Vandalism" := "Vandalism",
    "Vandalism " := "Vandalism",
    "Physical Attack" := "Actual Physical Attack",
    "Transmission Interruption/Distribution Interruption" := "Transmission Interruption",
    "Suspicious Activity " := "Suspicious Activity",
    "Severe Weather - Winter" := "Severe Weather",
    "Severe Weather - Wind" := "Severe Weather",
    "Severe Weather - Thunderstorms" := "Severe Weather",
    "Natural Disaster/Transmission Interruption" := "Natural Disaster",
    "Transmission Disruption" := "Transmission Interruption",
    "Weather or Natural Disaster" := "Severe Weather",
    "Suspected Physical Attack" := "Suspicious Activity",
    "Potential Physical Attack" := "Suspicious Activity",
    "Cyber Attack" := "Cyber Event"
  ]

  /** The canonical labels the table maps to. */
  const CanonicalEventTypes: set<string> := {
    "Severe Weather", "Sabotage", "Distribution Interruption", "Actual Physical Attack", "Vandalism",
    "Transmission Interruption", "Suspicious Activity", "Natural Disaster", "Cyber Event"
  }

  /** No canonical label is itself a label that the table rewrites. */
  lemma TableValuesAreNotKeys()
    ensures forall k :: k in EventTypeMap ==> EventTypeMap[k] !in EventTypeMap
  {
    TableMapsToCanonical();
    CanonicalAreNotKeys();
  }

  lemma TableMapsToCanonical()
    ensures forall k :: k in EventTypeMap ==> EventTypeMap[k] in CanonicalEventTypes
  {
  }

  lemma CanonicalAreNotKeys()
    ensures forall v :: v in CanonicalEventTypes ==> v !in EventTypeMap
  {
    forall v | v in CanonicalEventTypes ensures v !in EventTypeMap {
      if v in {"Severe Weather", "Sabotage", "Distribution Interruption"} {
        WeatherAndSabotageNotKeys(v);
      } else if v in {"Actual Physical Attack", "Vandalism", "Transmission Interruption"} {
        AttackAndTransmissionNotKeys(v);
      } else {
        SuspicionAndDisasterNotKeys(v);
      }
    }
  }

  lemma WeatherAndSabotageNotKeys(v: string)
    requires v in {"Severe Weather", "Sabotage", "Distribution Interruption"}
    ensures v !in EventTypeMap
  {
  }

  lemma AttackAndTransmissionNotKeys(v: string)
    requires v in {"Actual Physical Attack", "Vandalism", "Transmission Interruption"}
    ensures v !in EventTypeMap
  {
  }

  lemma SuspicionAndDisasterNotKeys(v: string)
    requires v in {"Suspicious Activity", "Natural Disaster", "Cyber Event"}
    ensures v !in EventTypeMap
  {
  }

  /** A label found in the table becomes its mapped value; any other label stays. */
  function NormalizeEventType(raw: string): (r: string)
    ensures r !in EventTypeMap
    ensures raw !in EventTypeMap ==> r == raw
    ensures raw in EventTypeMap ==> r == EventTypeMap[raw]
  {
    TableValuesAreNotKeys();
    if raw in EventTypeMap then EventTypeMap[raw] else raw
  }

  /** Remapping an already remapped label changes nothing. */
  lemma EventTypeIdempotent(raw: string)
    ensures NormalizeEventType(NormalizeEventType(raw)) == NormalizeEventType(raw)
  {
  }

  /** The eight NERC regions the views know, in the order the dashboard lists them. */
  const Regions: seq<string> := ["SPP", "WECC", "MRO", "SERC", "TRE", "FRCC", "NPCC", "RFC"]

  /** The raw region codes that the cleanup rewrites. */
  const RegionAliases: set<string> := {"RF", "SPP RE", "PR", "SPP, SERC, TRE", "N/A"}

  /** Each raw region code the cleanup rewrites, and what it becomes. */
  const RegionAliasMap: map<string, string> := map[
    "RF" := "RFC",
    "SPP RE" := "SPP",
    "PR" := "",
    "SPP, SERC, TRE" := "",
    "N/A" := ""
  ]

  /**
   * The region `switch`: `RF` is `RFC`, `SPP RE` is `SPP`, the three invalid
   * codes become `''`, and every other code, known or not, is kept.
   */
  function NormalizeRegion(code: string): (r: string)
    ensures r !in RegionAliases
    ensures code !in RegionAliases ==> r == code
    ensures code in RegionAliases ==> r == "" || r in Regions
    ensures RegionAliasMap.Keys == RegionAliases
    ensures code in RegionAliasMap ==> r == RegionAliasMap[code]
  {
    match code
    case "RF" => "RFC"
    case "SPP RE" => "SPP"
    case "PR" => ""
    case "SPP, SERC, TRE" => ""
    case "N/A" => ""
    case _ => code
  }

  /** The canonical codes and `''` are fixed points, so the cleanup is idempotent. */
  lemma RegionIdempotent(code: string)
    ensures NormalizeRegion(NormalizeRegion(code)) == NormalizeRegion(code)
    ensures forall k :: 0 <= k < |Regions| ==> NormalizeRegion(Regions[k]) == Regions[k]
    ensures NormalizeRegion("") == ""
  {
  }

  /** Field `k` of a split, or `''` where JavaScript's `join` meets a missing field. */
  function Field(parts: seq<string>, k: nat): string {
    if k < |parts| then parts[k] else ""
  }

  /** `M/D/Y` split on `/` and joined as fields 2, 0, 1 with `-`. */
  function ReorderDate(date: string): string {
    var parts := Split(date, '/');
    Join([Field(parts, 2), Field(parts, 0), Field(parts, 1)], "-")
  }

  /** A well-formed `M/D/Y` date becomes `Y-M-D`. */
  lemma ReorderDateMDY(m: string, d: string, y: string)
    requires '/' !in m && '/' !in d && '/' !in y
    ensures ReorderDate(m + "/" + d + "/" + y) == y + "-" + m + "-" + d
  {
    SplitThree(m, d, y, '/');
    assert m + "/" + d + "/" + y == m + ['/'] + d + ['/'] + y;
    JoinThree(y, m, d, "-");
  }

  lemma JoinThree(a: string, b: string, c: string, sep: string)
    ensures Join([a, b, c], sep) == a + sep + b + sep + c
  {
    assert [a, b, c][1..] == [b, c];
    assert [b, c][1..] == [c];
    assert Join([b, c], sep) == b + sep + c;
    assert Join([a, b, c], sep) == a + sep + (b + sep + c);
  }

  /** A date with only one `/` loses its year: the missing field joins as `''`. */
  lemma ReorderDateShort(m: string, d: string)
    requires '/' !in m && '/' !in d
    ensures ReorderDate(m + "/" + d) == "-" + m + "-" + d
  {
    SplitAround(m, '/', d);
    assert m + "/" + d == m + ['/'] + d;
    assert Split(m + "/" + d, '/') == [m, d];
    JoinThree("", m, d, "-");
  }

  /** The text handed to the date parser: `Y-M-D` then `T` then the time. */
  function Stamp(date: string, time: string): string {
    ReorderDate(date) + "T" + time
  }

  /** One of the four date or time fields contains the text `Unknown`. */
  predicate HasUnknownField(r: Record) {
    Includes(r.dateBegin, "Unknown") || Includes(r.timeBegin, "Unknown")
    || Includes(r.dateRestoration, "Unknown") || Includes(r.timeRestoration, "Unknown")
  }

  /**
   * The `Duration` rule: `'Unknown'` when a date or time field mentions
   * `Unknown`, otherwise restoration minus begin as computed by `elapsed`
   * (the date parser and subtraction, which are not part of this model).
   */
  function ComputeDuration(r: Record, elapsed: (string, string) -> int): Duration {
    if HasUnknownField(r) then UnknownDuration
    else Millis(elapsed(Stamp(r.dateRestoration, r.timeRestoration), Stamp(r.dateBegin, r.timeBegin)))
  }

  /**
   * The duration is the sentinel exactly when `Unknown` occurs somewhere in one
   * of the four fields; otherwise it is the elapsed time between the reordered
   * stamps.
   */
  lemma DurationUnknownIff(r: Record, elapsed: (string, string) -> int)
    ensures ComputeDuration(r, elapsed) == UnknownDuration <==>
      exists i: nat :: OccursAt(r.dateBegin, "Unknown", i) || OccursAt(r.timeBegin, "Unknown", i)
                    || OccursAt(r.dateRestoration, "Unknown", i) || OccursAt(r.timeRestoration, "Unknown", i)
    ensures ComputeDuration(r, elapsed) != UnknownDuration ==>
      ComputeDuration(r, elapsed).Millis? &&
      ComputeDuration(r, elapsed).ms == elapsed(Stamp(r.dateRestoration, r.timeRestoration), Stamp(r.dateBegin, r.timeBegin))
  {
  }

  /** The test is a substring test: a time such as `Unknown PM` also counts. */
  lemma DurationUnknownBySubstring(r: Record, elapsed: (string, string) -> int)
    requires r.timeBegin == "Unknown PM"
    ensures ComputeDuration(r, elapsed) == UnknownDuration
  {
    assert OccursAt(r.timeBegin, "Unknown", 0);
  }

  /** The first pass: the record with its event type remapped. */
  function WithEventType(r: Record): Record {
    r.(eventType := NormalizeEventType(r.eventType))
  }

  /** The second pass: the record with its duration set and its region cleaned up. */
  function WithDurationAndRegion(r: Record, elapsed: (string, string) -> int): Record {
    r.(duration := ComputeDuration(r, elapsed), region := NormalizeRegion(r.region))
  }

  /** Both passes applied to one record. */
  function NormalizeRecord(r: Record, elapsed: (string, string) -> int): Record {
    WithDurationAndRegion(WithEventType(r), elapsed)
  }

  /** Both passes applied to every record, keeping count and order. */
  function NormalizeAll(rs: seq<Record>, elapsed: (string, string) -> int): (out: seq<Record>)
    ensures |out| == |rs|
    ensures forall i :: 0 <= i < |rs| ==> out[i] == NormalizeRecord(rs[i], elapsed)
  {
    seq(|rs|, i requires 0 <= i < |rs| => NormalizeRecord(rs[i], elapsed))
  }

  /**
   * A normalised record is a fixed point of normalisation: its label is
   * canonical, its region cleaned, and its duration is recomputed from the same
   * untouched date and time fields.
   */
  lemma NormalizeRecordIdempotent(r: Record, elapsed: (string, string) -> int)
    ensures NormalizeRecord(NormalizeRecord(r, elapsed), elapsed) == NormalizeRecord(r, elapsed)
    ensures NormalizeRecord(r, elapsed).eventType !in EventTypeMap
    ensures NormalizeRecord(r, elapsed).region !in RegionAliases
  {
    EventTypeIdempotent(r.eventType);
    RegionIdempotent(r.region);
  }

  /** The first `data.forEach`: remaps every event type in place. */
  method NormalizeEventTypes(data: array<Record>)
    modifies data
    ensures forall i :: 0 <= i < data.Length ==> data[i] == WithEventType(old(data[i]))
  {
    for i := 0 to data.Length
      invariant forall j :: 0 <= j < i ==> data[j] == WithEventType(old(data[j]))
      invariant forall j :: i <= j < data.Length ==> data[j] == old(data[j])
    {
      data[i] := WithEventType(data[i]);
    }
  }

  /** The second `data.forEach`: sets every duration and cleans every region in place. */
  method NormalizeDurationsAndRegions(data: array<Record>, elapsed: (string, string) -> int)
    modifies data
    ensures forall i :: 0 <= i < data.Length ==> data[i] == WithDurationAndRegion(old(data[i]), elapsed)
  {
    for i := 0 to data.Length
      invariant forall j :: 0 <= j < i ==> data[j] == WithDurationAndRegion(old(data[j]), elapsed)
      invariant forall j :: i <= j < data.Length ==> data[j] == old(data[j])
    {
      data[i] := WithDurationAndRegion(data[i], elapsed);
    }
  }

  /** Both passes in order: the array ends up holding `NormalizeAll` of what it held. */
  method NormalizeData(data: array<Record>, elapsed: (string, string) -> int)
    modifies data
    ensures data[..] == NormalizeAll(old(data[..]), elapsed)
  {
    NormalizeEventTypes(data);
    NormalizeDurationsAndRegions(data, elapsed);
  }
}
