/** The two enumerations of a Nightscout treatment and their text forms,
    together with the optional string keys of the treatment record.

    The readers of both enumerations take the whole remainder of the stream
    (not one token), so a name holding a space reads back whole. A remainder
    that is not a name makes the reader dereference `end()` of its table,
    which has no defined outcome: the readers require a name.
 */
module NsTreatments {
  import opened Wrappers

  datatype TempBasal = Absolute | Percentage

  datatype EventType = TempBasalEvent | BgCheck | CorrectionBolus | MealBolus

  /** Output table of `temp_basal_t`. */
  function TempBasalName(tb: TempBasal): string {
    match tb
    case Absolute => "absolute"
    case Percentage => "percentage"
  }

  /** Input table of `temp_basal_t`, keyed by the whole remaining text. */
  const TempBasalTable: map<string, TempBasal> := map[
    "absolute" := Absolute,
    "percentage" := Percentage
  ]

  /** `operator>>` for `temp_basal_t`: the whole remainder is looked up. */
  function ReadTempBasal(rest: string): (tb: TempBasal)
    requires rest in TempBasalTable
    ensures TempBasalName(tb) == rest
  {
    TempBasalTable[rest]
  }

  /** Output table of `event_type_t`. */
  function EventTypeName(e: EventType): string {
    match e
    case TempBasalEvent => "Temp Basal"
    case BgCheck => "BG Check"
    case CorrectionBolus => "Correction Bolus"
    case MealBolus => "Meal Bolus"
  }

  /** Input table of `event_type_t`, keyed by the whole remaining text. */
  const EventTypeTable: map<string, EventType> := map[
    "Temp Basal" := TempBasalEvent,
    "BG Check" := BgCheck,
    "Correction Bolus" := CorrectionBolus,
    "Meal Bolus" := MealBolus
  ]

  /** `operator>>` for `event_type_t`: the whole remainder is looked up. */
  function ReadEventType(rest: string): (e: EventType)
    requires rest in EventTypeTable
    ensures EventTypeName(e) == rest
  {
    EventTypeTable[rest]
  }

  /** The input table accepts exactly the names the output table prints. */
  lemma TempBasalTableIsNames(s: string)
    ensures s in TempBasalTable <==> exists tb: TempBasal :: TempBasalName(tb) == s
  {
    if s in TempBasalTable {
      assert TempBasalName(TempBasalTable[s]) == s;
    }
  }

  lemma EventTypeTableIsNames(s: string)
    ensures s in EventTypeTable <==> exists e: EventType :: EventTypeName(e) == s
  {
    if s in EventTypeTable {
      assert EventTypeName(EventTypeTable[s]) == s;
    }
  }

  /** Printing then reading gives the value back ... */
  lemma TempBasalRoundTrip(tb: TempBasal)
    ensures TempBasalName(tb) in TempBasalTable
    ensures ReadTempBasal(TempBasalName(tb)) == tb
  {
  }

  lemma EventTypeRoundTrip(e: EventType)
    ensures EventTypeName(e) in EventTypeTable
    ensures ReadEventType(EventTypeName(e)) == e
  {
  }

  /** ... and reading then printing gives the text back. */
  lemma TempBasalTextRoundTrip(rest: string)
    requires rest in TempBasalTable
    ensures TempBasalName(ReadTempBasal(rest)) == rest
  {
  }

  lemma EventTypeTextRoundTrip(rest: string)
    requires rest in EventTypeTable
    ensures EventTypeName(ReadEventType(rest)) == rest
  {
  }

  /** Because the whole remainder is the key, the two-word names are read back
      whole, but the same name followed by a line break is not a name. */
  lemma EventTypeRemainderMustMatchExactly()
    ensures ReadEventType("Correction Bolus") == CorrectionBolus
    ensures ReadEventType("Temp Basal") == TempBasalEvent
    ensures "Temp Basal\n" !in EventTypeTable
    ensures "Temp" !in EventTypeTable
    ensures " absolute" !in TempBasalTable
  {
    assert "Temp Basal\n" != "Temp Basal";
    assert "Temp" != "Temp Basal";
    assert " absolute" != "absolute";
  }

  /** How a key of the treatment record is bound. */
  datatype Binding =
    | Timestamp
    | Streamed
    | InsulinAmount
    | OptionalText(default: Option<string>)
    | CarbAmount
    | PlainText
    | MinuteCount
    | InsulinRate
    | Number

  /** The key bindings of the treatment record, in declaration order. */
  const TreatmentBindings: seq<(string, Binding)> := [
    ("created_at", Timestamp),
    ("temp", Streamed),
    ("insulin", InsulinAmount),
    ("glucoseType", OptionalText(None)),
    ("eventType", Streamed),
    ("carbs", CarbAmount),
    ("_id", PlainText),
    ("timestamp", Timestamp),
    ("duration", MinuteCount),
    ("enteredBy", PlainText),
    ("absolute", InsulinRate),
    ("rate", Number),
    ("glucose", Number),
    ("units", OptionalText(None)),
    ("absorptionTime", MinuteCount),
    ("programmed", Number),
    ("ratio", Number),
    ("unabsorbed", Number)
  ]

  /** The value an optional text key takes from a document: the document's
      text when the key is there, the binding's default otherwise. */
  function ReadOptionalText(doc: map<string, string>, key: string, default: Option<string>): (r: Option<string>)
    ensures key in doc ==> r == Some(doc[key])
    ensures key !in doc ==> r == default
  {
    if key in doc then Some(doc[key]) else default
  }

  /** The keys bound as optional text, and only those: "glucoseType" and
      "units", both defaulting to none, so a document without them leaves the
      fields absent. */
  lemma OptionalKeysDefaultToNone(doc: map<string, string>)
    ensures forall i :: 0 <= i < |TreatmentBindings| && TreatmentBindings[i].1.OptionalText? ==>
      TreatmentBindings[i].0 in {"glucoseType", "units"} && TreatmentBindings[i].1.default.None?
    ensures TreatmentBindings[3] == ("glucoseType", OptionalText(None))
    ensures TreatmentBindings[13] == ("units", OptionalText(None))
    ensures "glucoseType" !in doc ==> ReadOptionalText(doc, "glucoseType", TreatmentBindings[3].1.default).None?
    ensures "units" !in doc ==> ReadOptionalText(doc, "units", TreatmentBindings[13].1.default).None?
  {
  }
}
