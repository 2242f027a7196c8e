/** The shared records of the determine-basal code: the profile, its one
    profile type, the insulin-on-board summary and the small records around
    them. Amounts of insulin and glucose are plain reals here, as in the
    header, where they are aliases of the JSON real type.
 */
module DataTypes {
  import opened Wrappers
  import Text

  /** `profile_types`: a single enumerator. */
  datatype ProfileType = Current

  /** `operator<<`: the name at the enumerator's index of a one-entry table. */
  function ProfileTypeName(t: ProfileType): string {
    match t
    case Current => "current"
  }

  /** `operator>>`: one token is read, then looked up with `at`, which throws
      for every other token. */
  function ReadProfileType(stream: string): (r: Result<ProfileType>)
    ensures r.Ok? <==> Text.ReadToken(stream) == "current"
    ensures r.Ok? ==> ProfileTypeName(r.value) == Text.ReadToken(stream)
  {
    if Text.ReadToken(stream) == "current" then Ok(Current)
    else Err("unordered_map::at: unknown profile type")
  }

  /** The printed name reads back, whatever whitespace surrounds it. */
  lemma ProfileTypeRoundTrip(t: ProfileType, lead: string, trail: string)
    requires Text.AllSpaces(lead) && Text.AllSpaces(trail)
    ensures ReadProfileType(lead + ProfileTypeName(t) + trail) == Ok(t)
  {
    Text.ReadTokenSurrounded(lead, ProfileTypeName(t), trail);
  }

  /** `iob_data_t`. */
  datatype IobData = IobData(
    bolussnooze: real,
    activity: real,
    iob: real,
    basaliob: Option<real>,
    netbasalinsulin: Option<real>,
    hightempinsulin: Option<real>)

  /** The six-argument constructor: the net basal argument is accepted but not
      stored, so that field keeps its empty default. */
  function MakeIobData(bolusSnooze: real, activity: real, iob: real,
                       basalIob: Option<real>, netBasalInsulin: Option<real>,
                       highTempInsulin: Option<real>): (d: IobData)
    ensures d.bolussnooze == bolusSnooze && d.activity == activity && d.iob == iob
    ensures d.basaliob == basalIob && d.hightempinsulin == highTempInsulin
    ensures d.netbasalinsulin.None?
  {
    IobData(bolusSnooze, activity, iob, basalIob, None, highTempInsulin)
  }

  /** Two calls that differ only in the net basal argument build the same record. */
  lemma MakeIobDataIgnoresNetBasal(b: real, a: real, i: real, basal: Option<real>,
                                   n1: Option<real>, n2: Option<real>, high: Option<real>)
    ensures MakeIobData(b, a, i, basal, n1, high) == MakeIobData(b, a, i, basal, n2, high)
  {
  }

  /** The default constructor: value-initialised numbers and empty optionals. */
  function DefaultIobData(): (d: IobData)
    ensures d.bolussnooze == 0.0 && d.activity == 0.0 && d.iob == 0.0
    ensures d.basaliob.None? && d.netbasalinsulin.None? && d.hightempinsulin.None?
  {
    MakeIobData(0.0, 0.0, 0.0, None, None, None)
  }

  /** `autosense_data_t`. */
  datatype AutosenseData = AutosenseData(ratio: real)

  /** `current_temp_t`. */
  datatype CurrentTemp = CurrentTemp(rate: real)

  /** `glucose_status_t`. */
  datatype GlucoseStatus = GlucoseStatus(glucose: real, delta: real, avgDelta: real)

  /** `profile_t`; `dia` is an empty marker type, so only its presence is kept. */
  datatype Profile = Profile(
    autosensAdjustTargets: bool,
    overrideHighTargetWithLow: bool,
    skipNeutralTemps: bool,
    tempTargetSet: Option<bool>,
    dia: Option<()>,
    sens: Option<real>,
    maxBg: Option<real>,
    minBg: Option<real>,
    targetBg: Option<real>,
    currentBasal: Option<real>,
    maxBasal: Option<real>,
    maxDailyBasal: Option<real>,
    model: Option<string>,
    outUnits: Option<string>,
    autosensMax: real,
    autosensMin: real,
    bolussnoozeDiaDivider: real,
    carbratioAdjustmentRatio: real,
    currentBasalSafetyMultiplier: real,
    maxDailySafetyMultiplier: real,
    min5mCarbImpact: real,
    maxIob: real,
    profileType: ProfileType)

  /** The default-constructed profile. */
  function DefaultProfile(): (p: Profile)
    ensures p.autosensAdjustTargets && !p.overrideHighTargetWithLow && !p.skipNeutralTemps
    ensures p.tempTargetSet.None? && p.dia.None? && p.sens.None?
    ensures p.maxBg.None? && p.minBg.None? && p.targetBg.None?
    ensures p.currentBasal.None? && p.maxBasal.None? && p.maxDailyBasal.None?
    ensures p.model.None? && p.outUnits.None?
    ensures p.autosensMax == 1.2 && p.autosensMin == 0.7
    ensures p.bolussnoozeDiaDivider == 2.0 && p.carbratioAdjustmentRatio == 1.0
    ensures p.currentBasalSafetyMultiplier == 4.0 && p.maxDailySafetyMultiplier == 3.0
    ensures p.min5mCarbImpact == 3.0 && p.maxIob == 0.0
    ensures p.profileType == Current
  {
    Profile(true, false, false, None, None, None, None, None, None, None, None, None, None, None,
            1.2, 0.7, 2.0, 1.0, 4.0, 3.0, 3.0, 0.0, Current)
  }

  /** The default sensitivity bounds bracket the neutral ratio 1. */
  lemma DefaultAutosensBracketsOne()
    ensures DefaultProfile().autosensMin < 1.0 < DefaultProfile().autosensMax
  {
  }

  /** The members of `profile_t`, in declaration order. */
  datatype ProfileField =
    | AutosensAdjustTargets | OverrideHighTargetWithLow | SkipNeutralTemps | TempTargetSet
    | Dia | Sens | MaxBg | MinBg | TargetBg | CurrentBasal | MaxBasal | MaxDailyBasal
    | Model | OutUnits | AutosensMax | AutosensMin | BolussnoozeDiaDivider
    | CarbratioAdjustmentRatio | CurrentBasalSafetyMultiplier | MaxDialySafetyMultiplier
    | Min5mCarbImpact | MaxIob | Type

  /** The member's name as declared in the structure. */
  function MemberName(f: ProfileField): string {
    match f
    case AutosensAdjustTargets => "autosens_adjust_targets"
    case OverrideHighTargetWithLow => "override_high_target_with_low"
    case SkipNeutralTemps => "skip_neutral_temps"
    case TempTargetSet => "temp_target_set"
    case Dia => "dia"
    case Sens => "sens"
    case MaxBg => "max_bg"
    case MinBg => "min_bg"
    case TargetBg => "target_bg"
    case CurrentBasal => "current_basal"
    case MaxBasal => "max_basal"
    case MaxDailyBasal => "max_daily_basal"
    case Model => "model"
    case OutUnits => "out_units"
    case AutosensMax => "autosens_max"
    case AutosensMin => "autosens_min"
    case BolussnoozeDiaDivider => "bolussnooze_dia_divider"
    case CarbratioAdjustmentRatio => "carbratio_adjustment_ratio"
    case CurrentBasalSafetyMultiplier => "current_basal_safety_multiplier"
    case MaxDialySafetyMultiplier => "max_dialy_safety_multiplier"
    case Min5mCarbImpact => "min_5m_carb_impact"
    case MaxIob => "max_iob"
    case Type => "type"
  }

  /** The JSON key each member is bound to by the constructor; `dia` is not bound. */
  function LinkedKey(f: ProfileField): Option<string> {
    match f
    case AutosensAdjustTargets => Some("autosens_adjust_targets")
    case OverrideHighTargetWithLow => Some("override_high_target_with_low")
    case SkipNeutralTemps => Some("skip_neutral_temps")
    case TempTargetSet => Some("temp_target_set")
    case Dia => None
    case Sens => Some("sens")
    case MaxBg => Some("max_bg")
    case MinBg => Some("min_bg")
    case TargetBg => Some("target_bg")
    case CurrentBasal => Some("current_basal")
    case MaxBasal => Some("max_basal")
    case MaxDailyBasal => Some("max_daily_basal")
    case Model => Some("model")
    case OutUnits => Some("out_units")
    case AutosensMax => Some("autosens_max")
    case AutosensMin => Some("autosens_min")
    case BolussnoozeDiaDivider => Some("bolussnooze_dia_divider")
    case CarbratioAdjustmentRatio => Some("carbratio_adjustment_ratio")
    case CurrentBasalSafetyMultiplier => Some("current_basal_safety_multiplier")
    case MaxDialySafetyMultiplier => Some("max_dialy_safety_multiplier")
    case Min5mCarbImpact => Some("min_5m_carb_impact")
    case MaxIob => Some("max_iob")
    case Type => Some("_type")
  }

  /** Every member is bound to the key of its own name, except `dia`, which is
      not bound, and `type`, which is bound as "_type". */
  lemma LinkedKeysFollowMemberNames(f: ProfileField)
    ensures f == Dia <==> LinkedKey(f).None?
    ensures f == Type ==> LinkedKey(f) == Some("_type")
    ensures f != Dia && f != Type ==> LinkedKey(f) == Some(MemberName(f))
  {
  }

  /** No two members share a key, so a document fills each member from its own key. */
  lemma LinkedKeysDistinct(f: ProfileField, g: ProfileField)
    requires LinkedKey(f).Some? && LinkedKey(f) == LinkedKey(g)
    ensures f == g
  {
  }
}
