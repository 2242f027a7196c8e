/** Insulin on board by the Walsh curves: the fraction of a bolus still
    active a whole number of minutes after it was given, for five durations
    of insulin action (DIA), and the dose record the simulator keeps.
 */
module IobCalc {
  import Numeric

  /** `insulin_duration_t`: the DIA in minutes. */
  datatype InsulinDuration = T180 | T210 | T240 | T300 | T360

  /** The enumerator's value. */
  function DiaMinutes(d: InsulinDuration): (m: int)
    ensures m > 0
    ensures m % 30 == 0 && 180 <= m <= 360
  {
    match d
    case T180 => 180
    case T210 => 210
    case T240 => 240
    case T300 => 300
    case T360 => 360
  }

  /** Five enumerators, five different durations. */
  lemma DiaMinutesDistinct(d1: InsulinDuration, d2: InsulinDuration)
    ensures DiaMinutes(d1) == DiaMinutes(d2) ==> d1 == d2
  {
  }

  /** The minutes argument is a 16-bit signed integer. */
  newtype Int16 = x: int | -0x8000 <= x < 0x8000

  /** The fitted quartic of each curve, in percent, at `t` minutes. */
  function CurvePercent(d: InsulinDuration, t: real): real {
    var t2 := t * t;
    var t3 := t2 * t;
    var t4 := t3 * t;
    match d
    case T180 => -0.0000003203 * t4 + 0.0001354 * t3 - 0.01759 * t2 + 0.09255 * t + 99.951
    case T210 => -0.000000159 * t4 + 0.000087168 * t3 - 0.014898990 * t2 + 0.282046657 * t + 99.924242424
    case T240 => -0.0000000331 * t4 + 0.0000253 * t3 - 0.00551 * t2 - 0.09086 * t + 99.95
    case T300 => -0.0000000295 * t4 + 0.0000232 * t3 - 0.00555 * t2 + 0.0449 * t + 99.3
    case T360 => -0.00000001493 * t4 + 0.00001413 * t3 - 0.004095 * t2 + 0.06365 * t + 99.7
  }

  /** `insulin_on_board_pct`: all of the dose before or at the bolus, none of
      it from the DIA on, and in between the curve, scaled to a fraction and
      clamped to [0, 1]. */
  function InsulinOnBoardPct(t: Int16, d: InsulinDuration): (r: real)
    ensures 0.0 <= r <= 1.0
    ensures t <= 0 ==> r == 1.0
    ensures t as int >= DiaMinutes(d) ==> r == 0.0
    ensures 0 < t as int < DiaMinutes(d) ==> r == Numeric.Clamp01(CurvePercent(d, t as real) / 100.0)
  {
    if t <= 0 then 1.0
    else if t as int >= DiaMinutes(d) then 0.0
    else Numeric.Clamp01(CurvePercent(d, t as real) / 100.0)
  }

  /** The curves are not the whole story at the ends: the 210-minute quartic
      rises above 100 % at minute 20, where the clamp cuts it, and every
      quartic is still above zero at its own DIA, where the early exit gives 0. */
  lemma ClampAndExitsMatter()
    ensures CurvePercent(T210, 20.0) > 100.0 && InsulinOnBoardPct(20, T210) == 1.0
    ensures forall d: InsulinDuration :: CurvePercent(d, DiaMinutes(d) as real) > 0.0
    ensures forall d: InsulinDuration :: InsulinOnBoardPct(DiaMinutes(d) as Int16, d) == 0.0
  {
    forall d: InsulinDuration
      ensures CurvePercent(d, DiaMinutes(d) as real) > 0.0
    {
      match d
      case T180 => assert CurvePercent(d, 180.0) == 0.108672;
      case T210 => assert CurvePercent(d, 210.0) == 0.146639394;
      case T240 => assert CurvePercent(d, 240.0) == 0.696944;
      case T300 => assert CurvePercent(d, 300.0) == 0.72;
      case T360 => assert CurvePercent(d, 360.0) == 0.3846112;
    }
  }

  /** The default test item: a 180-minute curve at offset 0 keeps the whole dose. */
  lemma DefaultTestItem()
    ensures InsulinOnBoardPct(0, T180) == 1.0
  {
  }

  /** The documented points of the 3-hour curve, every 20 minutes. */
  lemma DocumentedTable180()
    ensures InsulinOnBoardPct(20, T180) == 0.95797952
    ensures InsulinOnBoardPct(40, T180) == 0.83354632
    ensures InsulinOnBoardPct(60, T180) == 0.67275312
    ensures InsulinOnBoardPct(80, T180) == 0.50984312
    ensures InsulinOnBoardPct(100, T180) == 0.36676
    ensures InsulinOnBoardPct(120, T180) == 0.25314792
    ensures InsulinOnBoardPct(140, T180) == 0.16635152
    ensures InsulinOnBoardPct(160, T180) == 0.09141592
  {
  }

  /** The documented points of the 3.5-hour curve. */
  lemma DocumentedTable210()
    ensures InsulinOnBoardPct(40, T210) == 0.92539436704
    ensures InsulinOnBoardPct(60, T210) == 0.79978325844
    ensures InsulinOnBoardPct(80, T210) == 0.65251814984
    ensures InsulinOnBoardPct(100, T210) == 0.50407008124
    ensures InsulinOnBoardPct(120, T210) == 0.36880449264
    ensures InsulinOnBoardPct(140, T210) == 0.25498122404
    ensures InsulinOnBoardPct(160, T210) == 0.16475451544
    ensures InsulinOnBoardPct(180, T210) == 0.09417300684
    ensures InsulinOnBoardPct(200, T210) == 0.03317973824
  {
  }

  /** The documented points of the 4-hour curve. */
  lemma DocumentedTable240()
    ensures InsulinOnBoardPct(20, T240) == 0.96125904
    ensures InsulinOnBoardPct(40, T240) == 0.89034064
    ensures InsulinOnBoardPct(60, T240) == 0.79698224
    ensures InsulinOnBoardPct(80, T240) == 0.69015024
    ensures InsulinOnBoardPct(100, T240) == 0.57754
    ensures InsulinOnBoardPct(120, T240) == 0.46557584
    ensures InsulinOnBoardPct(140, T240) == 0.35941104
    ensures InsulinOnBoardPct(160, T240) == 0.26292784
    ensures InsulinOnBoardPct(180, T240) == 0.17873744
    ensures InsulinOnBoardPct(200, T240) == 0.10818
    ensures InsulinOnBoardPct(220, T240) == 0.05132464
  {
  }

  /** The documented points of the 5-hour curve. */
  lemma DocumentedTable300()
    ensures InsulinOnBoardPct(20, T300) == 0.9815888
    ensures InsulinOnBoardPct(40, T300) == 0.9362528
    ensures InsulinOnBoardPct(60, T300) == 0.8664288
    ensures InsulinOnBoardPct(80, T300) == 0.7804208
    ensures InsulinOnBoardPct(100, T300) == 0.6854
    ensures InsulinOnBoardPct(120, T300) == 0.5874048
    ensures InsulinOnBoardPct(140, T300) == 0.4913408
    ensures InsulinOnBoardPct(160, T300) == 0.4009808
    ensures InsulinOnBoardPct(180, T300) == 0.3189648
    ensures InsulinOnBoardPct(200, T300) == 0.2468
    ensures InsulinOnBoardPct(220, T300) == 0.1848608
    ensures InsulinOnBoardPct(240, T300) == 0.1323888
    ensures InsulinOnBoardPct(260, T300) == 0.0874928
    ensures InsulinOnBoardPct(280, T300) == 0.0471488
  {
  }

  /** The documented points of the 6-hour curve. */
  lemma DocumentedTable360()
    ensures InsulinOnBoardPct(20, T360) == 0.994456512
    ensures InsulinOnBoardPct(40, T360) == 0.965600992
    ensures InsulinOnBoardPct(60, T360) == 0.916355872
    ensures InsulinOnBoardPct(80, T360) == 0.852070272
    ensures InsulinOnBoardPct(100, T360) == 0.77752
    ensures InsulinOnBoardPct(120, T360) == 0.696907552
    ensures InsulinOnBoardPct(140, T360) == 0.613862112
    ensures InsulinOnBoardPct(160, T360) == 0.531439552
    ensures InsulinOnBoardPct(180, T360) == 0.452122432
    ensures InsulinOnBoardPct(200, T360) == 0.37782
    ensures InsulinOnBoardPct(220, T360) == 0.309868192
    ensures InsulinOnBoardPct(240, T360) == 0.249029632
    ensures InsulinOnBoardPct(260, T360) == 0.195493632
    ensures InsulinOnBoardPct(280, T360) == 0.148876192
    ensures InsulinOnBoardPct(300, T360) == 0.10822
    ensures InsulinOnBoardPct(320, T360) == 0.071994432
    ensures InsulinOnBoardPct(340, T360) == 0.038095552
  {
  }

  /** `dose`: an amount of insulin, when it was given, and its curve. */
  datatype Dose = Dose(amount: real, doseTime: int, dia: InsulinDuration)

  /** The constructor, which asserts a positive amount. */
  function NewDose(amount: real, dia: InsulinDuration, when: int): (d: Dose)
    requires amount > 0.0
    ensures d.amount == amount && d.dia == dia && d.doseTime == when
    ensures DiaMinutes(d.dia) > 0
  {
    Dose(amount, when, dia)
  }

  /** The constructor with its defaults: the 4-hour curve, given now. */
  function NewDoseNow(amount: real, now: int): (d: Dose)
    requires amount > 0.0
    ensures d.amount == amount && d.doseTime == now
    ensures DiaMinutes(d.dia) == 240
  {
    NewDose(amount, T240, now)
  }
}
