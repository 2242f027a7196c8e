/** The start of oref0's `determine_basal`: decimal rounding, the expected
    glucose delta, glucose display units, and the guard sequence that either
    throws, sets a 30-minute temp while the CGM is unreliable, or settles the
    basal rate and the min/max/target glucose the rest of the algorithm would
    work from. Number-to-text formatting is a parameter (`show`) or is kept as
    the value and digit count it would print.
 */
module RequestedTemp {
  import opened Wrappers
  import opened Numeric
  import GlucoseUnit
  import DataTypes

  // ---- round_to ----

  /** `round_to(value, digits)`: the value rounded to `digits` decimals,
      halfway cases away from zero. */
  function RoundTo(value: real, digits: nat): (r: real)
    ensures IsStep(r, Pow10(digits))
    ensures value - 0.5 / Pow10(digits) <= r <= value + 0.5 / Pow10(digits)
    ensures value >= 0.0 ==> value - 0.5 / Pow10(digits) < r
    ensures value < 0.0 ==> r < value + 0.5 / Pow10(digits)
  {
    RoundToStepWithinHalf(value, Pow10(digits));
    RoundToStep(value, Pow10(digits))
  }

  /** Rounding an already rounded value changes nothing. */
  lemma RoundToIdempotent(value: real, digits: nat)
    ensures RoundTo(RoundTo(value, digits), digits) == RoundTo(value, digits)
  {
    RoundToStepOfStep(RoundTo(value, digits), Pow10(digits));
  }

  /** Two decimals cut the third; halfway cases move away from zero on both sides. */
  lemma RoundToExamples()
    ensures RoundTo(1.2345, 2) == 1.23
    ensures RoundTo(0.25, 1) == 0.3
    ensures RoundTo(-0.25, 1) == -0.3
  {
    assert Pow10(1) == 10.0;
    assert Pow10(2) == 100.0;
  }

  // ---- calculate_expected_delta ----

  /** The number of 5-minute periods in half the DIA, computed the source's way. */
  function FiveMinuteBlocks(dia: real): real {
    (dia / 2.0 * 60.0) / 5.0
  }

  /** `calculate_expected_delta`: the BGI plus the per-period change that would
      bring the eventual glucose to target over half the DIA, to one decimal.
      Half a DIA of 5-minute periods is 6·DIA of them. */
  function CalculateExpectedDelta(dia: real, targetBg: real, eventualBg: real, bgi: real): (r: real)
    requires dia != 0.0
    ensures IsStep(r, 10.0)
    ensures var v := bgi + (targetBg - eventualBg) / (6.0 * dia);
      v - 0.05 <= r <= v + 0.05 &&
      (v >= 0.0 ==> v - 0.05 < r) && (v < 0.0 ==> r < v + 0.05)
  {
    assert FiveMinuteBlocks(dia) == 6.0 * dia;
    assert Pow10(1) == 10.0;
    RoundTo(bgi + (targetBg - eventualBg) / FiveMinuteBlocks(dia), 1)
  }

  /** At target only the BGI is expected, rounded to one decimal. */
  lemma ExpectedDeltaAtTarget(dia: real, target: real, bgi: real)
    requires dia != 0.0
    ensures CalculateExpectedDelta(dia, target, target, bgi) == RoundTo(bgi, 1)
  {
    assert (target - target) / FiveMinuteBlocks(dia) == 0.0;
  }

  /** A larger gap to target never lowers the expected delta for a positive DIA. */
  lemma ExpectedDeltaMonotone(dia: real, target: real, e1: real, e2: real, bgi: real)
    requires dia > 0.0 && e2 <= e1
    ensures CalculateExpectedDelta(dia, target, e1, bgi) <= CalculateExpectedDelta(dia, target, e2, bgi)
  {
    var b := FiveMinuteBlocks(dia);
    DivMonotone(target - e1, target - e2, b);
    var x1, x2 := bgi + (target - e1) / b, bgi + (target - e2) / b;
    assert Pow10(1) == 10.0;
    CRoundMonotone(x1 * 10.0, x2 * 10.0);
    DivMonotone(CRound(x1 * 10.0) as real, CRound(x2 * 10.0) as real, 10.0);
  }

  // ---- convert_bg ----

  /** The text `to_fixed(value, digits)` would print: the value and the number
      of decimals. */
  datatype Shown = Shown(value: real, digits: nat)

  /** The display unit that selects the mmol/L conversion. */
  const MmolUnits: string := "mmol/L"

  /** `convert_bg`: a mg/dL reading shown in the profile's output unit, to one
      decimal in mmol/L, or whole in mg/dL when the unit is absent or anything
      else. */
  function ConvertBg(value: real, profile: DataTypes.Profile): (r: Shown)
    ensures profile.outUnits == Some(MmolUnits) ==>
      r.digits == 1 && IsStep(r.value, 10.0) &&
      value * GlucoseUnit.MmolPerMgDl - 0.05 <= r.value <= value * GlucoseUnit.MmolPerMgDl + 0.05 &&
      (value >= 0.0 ==> value * GlucoseUnit.MmolPerMgDl - 0.05 < r.value) &&
      (value < 0.0 ==> r.value < value * GlucoseUnit.MmolPerMgDl + 0.05)
    ensures profile.outUnits != Some(MmolUnits) ==> r == Shown(value, 0)
  {
    assert Pow10(1) == 10.0;
    if profile.outUnits == Some(MmolUnits) then Shown(RoundTo(value * 0.0555, 1), 1)
    else Shown(value, 0)
  }

  /** The mmol/L display is the unit type's mg/dL to mmol/L conversion, rounded. */
  lemma ConvertBgIsUnitConversion(value: real, profile: DataTypes.Profile)
    requires profile.outUnits == Some(MmolUnits)
    ensures ConvertBg(value, profile).value == RoundTo(GlucoseUnit.ToMmolL(GlucoseUnit.MgDl(value)).value, 1)
  {
  }

  /** 100 mg/dL is 5.55 mmol/L, shown as 5.6. */
  lemma ConvertBgExample(profile: DataTypes.Profile)
    requires profile.outUnits == Some(MmolUnits)
    ensures ConvertBg(100.0, profile) == Shown(5.6, 1)
    ensures ConvertBg(100.0, profile.(outUnits := None)) == Shown(100.0, 0)
  {
    assert Pow10(1) == 10.0;
    assert CRound(5.55 * 10.0) == 56;
  }

  // ---- determine_basal: the basal rate ----

  /** The basal the algorithm works from: the profile's current basal, or,
      with autosense data, that basal times the sensitivity ratio to the
      nearest 0.01 U/hr. */
  function AdjustedBasal(currentBasal: real, autosense: Option<DataTypes.AutosenseData>): (r: real)
    ensures autosense.None? ==> r == currentBasal
    ensures autosense.Some? ==>
      IsStep(r, 100.0) &&
      var v := currentBasal * autosense.value.ratio;
      v - 0.005 <= r <= v + 0.005 && (v >= 0.0 ==> v - 0.005 < r) && (v < 0.0 ==> r < v + 0.005)
  {
    assert Pow10(2) == 100.0;
    if autosense.Some? then RoundTo(currentBasal * autosense.value.ratio, 2) else currentBasal
  }

  /** A neutral ratio keeps a basal already given to the cent. */
  lemma NeutralRatioKeepsBasal(currentBasal: real)
    requires IsStep(currentBasal, 100.0)
    ensures AdjustedBasal(currentBasal, Some(DataTypes.AutosenseData(1.0))) == currentBasal
  {
    assert Pow10(2) == 100.0;
    RoundToStepOfStep(currentBasal, 100.0);
  }

  // ---- determine_basal: the targets ----

  /** The min, max and target glucose. */
  datatype Targets = Targets(minBg: real, maxBg: real, targetBg: real)

  /** The target lies within [min, max]. */
  predicate Ordered(t: Targets) {
    t.minBg <= t.targetBg <= t.maxBg
  }

  /** The autosense move of one glucose value: its distance above 60 is
      divided by the ratio and rounded to a whole number. */
  function AdjustTarget(x: real, ratio: real): real
    requires ratio != 0.0
  {
    CRound((x - 60.0) / ratio) as real + 60.0
  }

  /** For a positive ratio the move keeps the order of glucose values. */
  lemma AdjustTargetMonotone(x: real, y: real, ratio: real)
    requires ratio > 0.0 && x <= y
    ensures AdjustTarget(x, ratio) <= AdjustTarget(y, ratio)
  {
    DivMonotone(x - 60.0, y - 60.0, ratio);
    CRoundMonotone((x - 60.0) / ratio, (y - 60.0) / ratio);
  }

  /** A 50 % rise in sensitivity (ratio 2/3) raises a target of 100 to 120;
      60 stays where it is. */
  lemma AdjustTargetExample()
    ensures AdjustTarget(100.0, 2.0 / 3.0) == 120.0
    ensures AdjustTarget(60.0, 2.0 / 3.0) == 60.0
  {
    assert (100.0 - 60.0) / (2.0 / 3.0) == 60.0;
    CRoundOfInteger(60);
    CRoundOfInteger(0);
  }

  /** The adjustment as the source writes it: the second assignment to the
      minimum takes the adjusted maximum, and the maximum is left alone. */
  function AdjustTargetsAsWritten(t: Targets, ratio: real): (r: Targets)
    requires ratio != 0.0
    ensures r.maxBg == t.maxBg
    ensures r.minBg == AdjustTarget(t.maxBg, ratio)
  {
    var minBg := AdjustTarget(t.minBg, ratio);
    var minBg := AdjustTarget(t.maxBg, ratio);
    Targets(minBg, t.maxBg, AdjustTarget(t.targetBg, ratio))
  }

  /** Written that way, a ratio below 1 lifts the minimum above the maximum:
      80–160 with ratio 0.5 becomes 260–160. */
  lemma AsWrittenBreaksOrder()
    ensures AdjustTargetsAsWritten(Targets(80.0, 160.0, 120.0), 0.5) == Targets(260.0, 160.0, 180.0)
    ensures !Ordered(AdjustTargetsAsWritten(Targets(80.0, 160.0, 120.0), 0.5))
  {
    CRoundOfInteger(200);
    CRoundOfInteger(120);
  }

  /** The adjustment as intended: min, max and target each moved. */
  function AdjustTargets(t: Targets, ratio: real): (r: Targets)
    requires ratio != 0.0
    ensures r.minBg == AdjustTarget(t.minBg, ratio)
    ensures r.maxBg == AdjustTarget(t.maxBg, ratio)
    ensures r.targetBg == AdjustTarget(t.targetBg, ratio)
  {
    Targets(AdjustTarget(t.minBg, ratio), AdjustTarget(t.maxBg, ratio), AdjustTarget(t.targetBg, ratio))
  }

  /** For a positive ratio the intended adjustment keeps the target within
      [min, max]. */
  lemma AdjustTargetsKeepsOrder(t: Targets, ratio: real)
    requires ratio > 0.0 && Ordered(t)
    ensures Ordered(AdjustTargets(t, ratio))
  {
    AdjustTargetMonotone(t.minBg, t.targetBg, ratio);
    AdjustTargetMonotone(t.targetBg, t.maxBg, ratio);
  }

  // ---- determine_basal: the guard sequence ----

  /** What the guards decide: a temp basal while the CGM reads below 30, or
      the basal and targets the rest of the algorithm starts from. */
  datatype Decision =
    | SetTemp(rate: real, minutes: int, reason: string)
    | Proceed(basal: real, targets: Targets)

  const NoBasalMessage: string := "Could not get current basal rate"
  const CalibratingMessage: string := "CGM is calibrating or in ??? state"
  const NoTargetsMessage: string := "Missing min/max glucose numbers"

  /** Readings below this are treated as a calibrating or failed sensor. */
  const LowestTrustedBg: real := 30.0

  /** Autosense moves the targets: there is autosense data, the profile asks
      for it, and no temporary target is present (the optional is checked for
      presence, not for its value). */
  predicate AdjustsTargets(profile: DataTypes.Profile, autosense: Option<DataTypes.AutosenseData>) {
    autosense.Some? && profile.autosensAdjustTargets && profile.tempTargetSet.None?
  }

  /** The targets from the profile before any adjustment: the configured
      target, or the middle of [min, max]. */
  function ProfileTargets(minBg: real, maxBg: real, targetBg: Option<real>): (t: Targets)
    ensures t.minBg == minBg && t.maxBg == maxBg
    ensures targetBg.None? && minBg <= maxBg ==> Ordered(t)
    ensures targetBg.Some? ==> t.targetBg == targetBg.value
  {
    Targets(minBg, maxBg, if targetBg.Some? then targetBg.value else (minBg + maxBg) / 2.0)
  }

  /** The ratio divides glucose distances only once every earlier guard passed. */
  predicate DetermineBasalDefined(status: DataTypes.GlucoseStatus, profile: DataTypes.Profile,
                                  autosense: Option<DataTypes.AutosenseData>) {
    profile.currentBasal.Some? && status.glucose >= LowestTrustedBg &&
    profile.minBg.Some? && profile.maxBg.Some? && AdjustsTargets(profile, autosense)
    ==> autosense.value.ratio != 0.0
  }

  /** `determine_basal` up to its settled targets, with `show` printing a
      number. The autosense adjustment is the one the source compiles: the
      minimum is overwritten by the adjusted maximum, and the maximum keeps
      the profile's value. */
  function DetermineBasal(status: DataTypes.GlucoseStatus, temp: DataTypes.CurrentTemp,
                          profile: DataTypes.Profile, autosense: Option<DataTypes.AutosenseData>,
                          show: real -> string): (r: Result<Decision>)
    requires DetermineBasalDefined(status, profile, autosense)
    ensures profile.currentBasal.None? ==> r == Err(NoBasalMessage)
    ensures profile.currentBasal.Some? && status.glucose < LowestTrustedBg ==>
      var basal := AdjustedBasal(profile.currentBasal.value, autosense);
      (basal <= temp.rate ==> r.Ok? && r.value.SetTemp? && r.value.rate == basal && r.value.minutes == 30) &&
      (basal > temp.rate ==> r.Err? && |CalibratingMessage| <= |r.msg| && r.msg[..|CalibratingMessage|] == CalibratingMessage)
    ensures (profile.currentBasal.Some? && status.glucose >= LowestTrustedBg &&
             (profile.minBg.None? || profile.maxBg.None?)) ==> r == Err(NoTargetsMessage)
    ensures r.Ok? && r.value.Proceed? ==>
      profile.currentBasal.Some? && status.glucose >= LowestTrustedBg &&
      profile.minBg.Some? && profile.maxBg.Some? &&
      r.value.basal == AdjustedBasal(profile.currentBasal.value, autosense)
    ensures r.Ok? && r.value.Proceed? ==> r.value.targets.maxBg == profile.maxBg.value
    ensures r.Ok? && r.value.SetTemp? ==> r.value.rate <= temp.rate && status.glucose < LowestTrustedBg
  {
    if profile.currentBasal.None? then Err(NoBasalMessage)
    else
      var basal := AdjustedBasal(profile.currentBasal.value, autosense);
      if status.glucose < LowestTrustedBg then
        if basal <= temp.rate then
          Ok(SetTemp(basal, 30, CalibratingMessage + "; setting current basal of " + show(basal) + " as temp"))
        else
          Err(CalibratingMessage + ", temp " + show(temp.rate) + " <~ current basal " + show(basal) + "U/hr")
      else if profile.minBg.None? || profile.maxBg.None? then Err(NoTargetsMessage)
      else
        var t := ProfileTargets(profile.minBg.value, profile.maxBg.value, profile.targetBg);
        Ok(Proceed(basal, if AdjustsTargets(profile, autosense) then AdjustTargetsAsWritten(t, autosense.value.ratio) else t))
  }

  /** Once every guard passes it proceeds. Without an autosense adjustment
      the targets are the profile's. With one, the maximum stays the
      profile's, the minimum becomes the adjusted maximum and the target is
      adjusted. */
  lemma ProceedTargets(status: DataTypes.GlucoseStatus, temp: DataTypes.CurrentTemp,
                       profile: DataTypes.Profile, autosense: Option<DataTypes.AutosenseData>,
                       show: real -> string)
    requires DetermineBasalDefined(status, profile, autosense)
    requires profile.currentBasal.Some? && status.glucose >= LowestTrustedBg
    requires profile.minBg.Some? && profile.maxBg.Some?
    ensures var r := DetermineBasal(status, temp, profile, autosense, show);
      var t := ProfileTargets(profile.minBg.value, profile.maxBg.value, profile.targetBg);
      r.Ok? && r.value.Proceed? &&
      (AdjustsTargets(profile, autosense) ==>
         r.value.targets.maxBg == profile.maxBg.value &&
         r.value.targets.minBg == AdjustTarget(profile.maxBg.value, autosense.value.ratio) &&
         r.value.targets.targetBg == AdjustTarget(t.targetBg, autosense.value.ratio)) &&
      (!AdjustsTargets(profile, autosense) ==> r.value.targets == t)
  {
  }

  /** The profile of the target-order example: 80–160 mg/dL around 120, a
      basal of 1 U/hr, and otherwise the defaults. */
  function OrderExampleProfile(): (p: DataTypes.Profile)
    ensures p.minBg == Some(80.0) && p.maxBg == Some(160.0) && p.targetBg == Some(120.0)
    ensures p.currentBasal == Some(1.0) && p.autosensAdjustTargets && p.tempTargetSet.None?
  {
    DataTypes.DefaultProfile().(minBg := Some(80.0), maxBg := Some(160.0), targetBg := Some(120.0),
                                currentBasal := Some(1.0))
  }

  /** As compiled, an ordered profile can proceed with a minimum above its
      maximum: 80–160 around 120 at ratio 0.5 proceeds with 260–160 around 180. */
  lemma DetermineBasalBreaksOrder(status: DataTypes.GlucoseStatus, temp: DataTypes.CurrentTemp,
                                  show: real -> string)
    requires status.glucose >= LowestTrustedBg
    ensures var r := DetermineBasal(status, temp, OrderExampleProfile(), Some(DataTypes.AutosenseData(0.5)), show);
      r.Ok? && r.value.Proceed? && r.value.targets == Targets(260.0, 160.0, 180.0) && !Ordered(r.value.targets)
  {
    AsWrittenBreaksOrder();
  }

  /** `determine_basal` as evidently intended: the same guards, messages and
      basal, with min, max and target each moved by autosense. */
  function DetermineBasalIntended(status: DataTypes.GlucoseStatus, temp: DataTypes.CurrentTemp,
                                  profile: DataTypes.Profile, autosense: Option<DataTypes.AutosenseData>,
                                  show: real -> string): (r: Result<Decision>)
    requires DetermineBasalDefined(status, profile, autosense)
    ensures var w := DetermineBasal(status, temp, profile, autosense, show);
      !(w.Ok? && w.value.Proceed?) ==> r == w
    ensures var w := DetermineBasal(status, temp, profile, autosense, show);
      w.Ok? && w.value.Proceed? ==> r.Ok? && r.value.Proceed? && r.value.basal == w.value.basal
    ensures r.Ok? && r.value.Proceed? && AdjustsTargets(profile, autosense) ==>
      r.value.targets == AdjustTargets(ProfileTargets(profile.minBg.value, profile.maxBg.value, profile.targetBg),
                                       autosense.value.ratio)
    ensures r.Ok? && r.value.Proceed? && !AdjustsTargets(profile, autosense) ==>
      r.value.targets == ProfileTargets(profile.minBg.value, profile.maxBg.value, profile.targetBg)
  {
    var w := DetermineBasal(status, temp, profile, autosense, show);
    if w.Ok? && w.value.Proceed? then
      var t := ProfileTargets(profile.minBg.value, profile.maxBg.value, profile.targetBg);
      Ok(Proceed(w.value.basal, if AdjustsTargets(profile, autosense) then AdjustTargets(t, autosense.value.ratio) else t))
    else w
  }

  /** With ordered profile targets and a positive ratio, the intended
      program's settled target lies within its settled [min, max]. */
  lemma ProceedTargetsOrdered(status: DataTypes.GlucoseStatus, temp: DataTypes.CurrentTemp,
                              profile: DataTypes.Profile, autosense: Option<DataTypes.AutosenseData>,
                              show: real -> string)
    requires DetermineBasalDefined(status, profile, autosense)
    requires profile.minBg.Some? && profile.maxBg.Some? && profile.minBg.value <= profile.maxBg.value
    requires profile.targetBg.Some? ==> profile.minBg.value <= profile.targetBg.value <= profile.maxBg.value
    requires autosense.Some? ==> autosense.value.ratio > 0.0
    ensures var r := DetermineBasalIntended(status, temp, profile, autosense, show);
      r.Ok? && r.value.Proceed? ==> Ordered(r.value.targets)
  {
    var r := DetermineBasalIntended(status, temp, profile, autosense, show);
    if r.Ok? && r.value.Proceed? {
      var t := ProfileTargets(profile.minBg.value, profile.maxBg.value, profile.targetBg);
      assert Ordered(t);
      if AdjustsTargets(profile, autosense) {
        AdjustTargetsKeepsOrder(t, autosense.value.ratio);
      }
    }
  }

  /** A default profile has no current basal, so the first guard throws. */
  lemma DefaultProfileThrows(status: DataTypes.GlucoseStatus, temp: DataTypes.CurrentTemp,
                             autosense: Option<DataTypes.AutosenseData>, show: real -> string)
    ensures DetermineBasal(status, temp, DataTypes.DefaultProfile(), autosense, show) == Err(NoBasalMessage)
  {
  }
}
