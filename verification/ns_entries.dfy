/** CGM trend directions of a Nightscout glucose entry and the default entry.
    The name table maps each of the ten directions to the text Nightscout uses;
    parsing looks the text up and fails (`at` throws) for anything else. The
    stream reader extracts one whitespace-delimited token before the lookup, so
    the two names that contain a space cannot come back through a stream.
 */
module NsEntries {
  import opened Wrappers
  import Text

  datatype Direction =
    | NoDirection
    | DoubleUp
    | SingleUp
    | FortyFiveUp
    | Flat
    | FortyFiveDown
    | SingleDown
    | DoubleDown
    | NotComputable
    | RateOutOfRange

  /** The name of a direction, as written to JSON and to a stream. */
  function DirectionName(d: Direction): string {
    match d
    case NoDirection => "NONE"
    case DoubleUp => "DoubleUp"
    case SingleUp => "SingleUp"
    case FortyFiveUp => "FortyFiveUp"
    case Flat => "Flat"
    case FortyFiveDown => "FortyFiveDown"
    case SingleDown => "SingleDown"
    case DoubleDown => "DoubleDown"
    case NotComputable => "NOT COMPUTABLE"
    case RateOutOfRange => "RATE OUT OF RANGE"
  }

  /** The lookup table of `parse_direction`, keyed by name. */
  const DirectionTable: map<string, Direction> := map[
    "NONE" := NoDirection,
    "DoubleUp" := DoubleUp,
    "SingleUp" := SingleUp,
    "FortyFiveUp" := FortyFiveUp,
    "Flat" := Flat,
    "FortyFiveDown" := FortyFiveDown,
    "SingleDown" := SingleDown,
    "DoubleDown" := DoubleDown,
    "NOT COMPUTABLE" := NotComputable,
    "RATE OUT OF RANGE" := RateOutOfRange
  ]

  /** `parse_direction`: an exact, case-sensitive lookup; a miss is the `at` failure.
      The result names exactly the directions whose name is the input. */
  function ParseDirection(s: string): (r: Result<Direction>)
    ensures r.Ok? <==> exists d: Direction :: DirectionName(d) == s
    ensures r.Ok? ==> DirectionName(r.value) == s
  {
    if s in DirectionTable then
      assert DirectionName(DirectionTable[s]) == s;
      Ok(DirectionTable[s])
    else
      assert forall d: Direction :: DirectionName(d) in DirectionTable;
      Err("unordered_map::at: unknown direction")
  }

  /** `operator>>`: one token is read from the stream, then parsed. It
      succeeds exactly when the first whitespace-delimited token names a
      direction, and then yields that direction. */
  function StreamReadDirection(stream: string): (r: Result<Direction>)
    ensures r.Ok? <==> exists d: Direction :: DirectionName(d) == Text.ReadToken(stream)
    ensures r.Ok? ==> DirectionName(r.value) == Text.ReadToken(stream)
  {
    ParseDirection(Text.ReadToken(stream))
  }

  /** Ten directions, ten distinct names. */
  lemma DirectionNamesDistinct(d1: Direction, d2: Direction)
    ensures DirectionName(d1) == DirectionName(d2) ==> d1 == d2
  {
  }

  /** Printing then parsing gives the direction back. */
  lemma ParsePrintedDirection(d: Direction)
    ensures ParseDirection(DirectionName(d)) == Ok(d)
  {
    DirectionNamesInjective(d);
  }

  /** Parsing then printing gives the text back, for every name of the table. */
  lemma PrintParsedDirection(s: string)
    requires s in DirectionTable
    ensures ParseDirection(s).Ok? && DirectionName(ParseDirection(s).value) == s
  {
  }

  /** A case variant of a name is not in the table. */
  lemma ParseIsCaseSensitive()
    ensures ParseDirection("flat").Err?
    ensures ParseDirection("none").Err?
    ensures ParseDirection("").Err?
  {
    assert "flat" !in DirectionTable;
    assert "none" !in DirectionTable;
  }

  /** The eight one-word names survive a round trip through a stream, even
      with whitespace around them ... */
  lemma StreamRoundTripOneWord(d: Direction, lead: string, trail: string)
    requires !Text.HasSpace(DirectionName(d))
    requires Text.AllSpaces(lead) && Text.AllSpaces(trail)
    ensures StreamReadDirection(lead + DirectionName(d) + trail) == Ok(d)
  {
    Text.ReadTokenSurrounded(lead, DirectionName(d), trail);
    ParsePrintedDirection(d);
  }

  /** ... while the two names holding a space are cut at the space and fail. */
  lemma StreamCannotReadNotComputable()
    ensures StreamReadDirection(DirectionName(NotComputable)) == Err("unordered_map::at: unknown direction")
  {
    var s := DirectionName(NotComputable);
    assert s[3] == ' ';
    assert Text.ReadToken(s) == "NOT";
  }

  lemma StreamCannotReadRateOutOfRange()
    ensures StreamReadDirection(DirectionName(RateOutOfRange)) == Err("unordered_map::at: unknown direction")
  {
    var s := DirectionName(RateOutOfRange);
    assert s[4] == ' ';
    assert Text.ReadToken(s) == "RATE";
  }

  lemma DirectionNamesInjective(d: Direction)
    ensures DirectionTable[DirectionName(d)] == d
  {
  }

  /** A Nightscout glucose entry (`nightscout_entries`). The timestamp is a
      `ptime` that starts out as not-a-date-time, modelled as None. */
  datatype Entry = Entry(
    id: string,
    direction: Direction,
    previousSgv: Option<int>,
    timestamp: Option<int>,
    device: string,
    date: int,
    sgv: int,
    entryType: string,
    previousSgvNotActive: Option<bool>)

  /** The default-constructed entry. */
  function DefaultEntry(): (e: Entry)
    ensures e.direction == NotComputable
    ensures e.date == -1 && e.sgv == -1
    ensures e.previousSgv.None? && e.previousSgvNotActive.None? && e.timestamp.None?
    ensures e.id == "" && e.device == "" && e.entryType == ""
  {
    Entry("", NotComputable, None, None, "", -1, -1, "", None)
  }
}
