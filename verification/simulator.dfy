/** The state of the glucose simulator: a bounded history of glucose values,
    carbohydrate doses with their GlucoDyn absorption, and the clean-up and
    insulin-on-board steps run on each tick. Time points are whole seconds and
    "now" is always a parameter.
 */
module Simulator {
  import Numeric
  import GlucoseUnit
  import IobCalc
  import DiabeticCalcs

  // ---- Glucose history ----

  /** `glucose_state_t`: the most recent values, oldest first. */
  datatype GlucoseState = GlucoseState(values: seq<GlucoseUnit.MmolL>, capacity: nat, target: GlucoseUnit.MmolL)

  /** The history holds at least one and at most `capacity` values. */
  predicate Valid(s: GlucoseState) {
    1 <= |s.values| <= s.capacity
  }

  /** The constructor: a positive capacity, and the target as the only value. */
  function NewGlucoseState(target: GlucoseUnit.MmolL, capacity: nat): (s: GlucoseState)
    requires capacity > 0
    ensures Valid(s)
    ensures s.values == [target] && s.capacity == capacity && s.target == target
  {
    GlucoseState([target], capacity, target)
  }

  /** The default constructor: a target of 5.5 mmol/L and room for one value. */
  function DefaultGlucoseState(): (s: GlucoseState)
    ensures Valid(s) && s.capacity == 1
    ensures s.values == [GlucoseUnit.MmolL(5.5)] && s.target == GlucoseUnit.MmolL(5.5)
  {
    NewGlucoseState(GlucoseUnit.MmolLiteral(5.5), 1)
  }

  /** The last `k` elements of a sequence, or all of it when it is shorter. */
  function LastAtMost<T>(xs: seq<T>, k: nat): (r: seq<T>)
    ensures |r| == if |xs| <= k then |xs| else k
    ensures forall i :: 0 <= i < |r| ==> r[i] == xs[|xs| - |r| + i]
  {
    if |xs| <= k then xs else xs[|xs| - k..]
  }

  /** `add_value`: append, then erase from the front while over capacity. */
  method AddValue(s: GlucoseState, v: GlucoseUnit.MmolL) returns (r: GlucoseState)
    ensures r.values == LastAtMost(s.values + [v], s.capacity)
    ensures r.capacity == s.capacity && r.target == s.target
  {
    var all := s.values + [v];
    var values := all;
    assert all[|all| - |values|..] == all;
    while |values| > s.capacity
      invariant |values| <= |all| && values == all[|all| - |values|..]
      invariant |values| < |all| ==> |values| >= s.capacity
      decreases |values|
    {
      values := values[1..];
    }
    r := GlucoseState(values, s.capacity, s.target);
  }

  /** The result of `add_value` as a value, for stating properties of histories. */
  function Added(s: GlucoseState, v: GlucoseUnit.MmolL): GlucoseState {
    GlucoseState(LastAtMost(s.values + [v], s.capacity), s.capacity, s.target)
  }

  /** `current_value`: the newest value, the one the history ends with; the
      history must not be empty. */
  function CurrentValue(s: GlucoseState): (v: GlucoseUnit.MmolL)
    requires |s.values| > 0
    ensures s.values == s.values[..|s.values| - 1] + [v]
  {
    s.values[|s.values| - 1]
  }

  /** `previous_value`: the value before the newest, or the only value. */
  function PreviousValue(s: GlucoseState): (v: GlucoseUnit.MmolL)
    requires |s.values| > 0
    ensures |s.values| >= 2 ==> s.values == s.values[..|s.values| - 2] + [v, CurrentValue(s)]
    ensures |s.values| == 1 ==> v == CurrentValue(s)
  {
    if |s.values| == 1 then s.values[0] else s.values[|s.values| - 2]
  }

  /** Adding a value keeps a valid history valid, makes the added value the
      current one, and keeps every value it does not push out, in order. */
  lemma AddValueKeepsHistory(s: GlucoseState, v: GlucoseUnit.MmolL)
    requires Valid(s)
    ensures Valid(Added(s, v))
    ensures CurrentValue(Added(s, v)) == v
    ensures |Added(s, v).values| == if |s.values| < s.capacity then |s.values| + 1 else s.capacity
    ensures |s.values| < s.capacity ==> Added(s, v).values == s.values + [v]
  {
  }

  /** After adding a value the previous value is the old current one, unless
      the history holds a single value, when both are the added value. */
  lemma PreviousIsOldCurrent(s: GlucoseState, v: GlucoseUnit.MmolL)
    requires Valid(s)
    ensures s.capacity >= 2 ==> PreviousValue(Added(s, v)) == CurrentValue(s)
    ensures s.capacity == 1 ==> PreviousValue(Added(s, v)) == v && Added(s, v).values == [v]
  {
    var all := s.values + [v];
    assert all[|all| - 2] == CurrentValue(s);
  }

  // ---- Carbohydrate doses ----

  /** `carb_dose_t`: grams, grams absorbed per minute, and when it was eaten. */
  datatype CarbDose = CarbDose(amount: real, absorptionRate: real, doseTime: int)

  /** The constructor: negative amounts and rates are raised to 0. */
  function NewCarbDose(doseTime: int, amount: real, absorptionRate: real): (c: CarbDose)
    ensures c.amount >= 0.0 && c.absorptionRate >= 0.0 && c.doseTime == doseTime
    ensures amount >= 0.0 ==> c.amount == amount
    ensures absorptionRate >= 0.0 ==> c.absorptionRate == absorptionRate
    ensures amount < 0.0 ==> c.amount == 0.0
    ensures absorptionRate < 0.0 ==> c.absorptionRate == 0.0
  {
    CarbDose(if amount < 0.0 then 0.0 else amount,
             if absorptionRate < 0.0 then 0.0 else absorptionRate,
             doseTime)
  }

  /** `calc_duration`: the whole minutes from one time point to another, cut
      toward zero, as a `double`. */
  function Elapsed(from: int, to: int): (r: real)
    ensures Numeric.IsStep(r, 1.0)
    ensures to >= from ==> 0.0 <= r && 60.0 * r <= (to - from) as real < 60.0 * r + 60.0
    ensures to < from ==> r <= 0.0 && 60.0 * r - 60.0 < (to - from) as real <= 60.0 * r
  {
    Numeric.WholeMinutes(from, to) as real
  }

  /** The activity time AT = amount / rate is only computed for a dose that is
      not in the future, and must then not divide by zero; an empty dose at
      minute 0 would divide by AT = 0. */
  predicate CobDefined(c: CarbDose, now: int) {
    Elapsed(c.doseTime, now) < 0.0 ||
    (c.absorptionRate != 0.0 && !(c.amount == 0.0 && Elapsed(c.doseTime, now) == 0.0))
  }

  /** `carb_dose_t::calc_cob`: all of the dose before it is eaten, then the
      dose less what the GlucoDyn curve has absorbed, and nothing once t
      passes AT. */
  function DoseCob(c: CarbDose, now: int): (r: real)
    requires CobDefined(c, now)
    ensures Elapsed(c.doseTime, now) < 0.0 ==> r == c.amount
    ensures Elapsed(c.doseTime, now) >= 0.0 && Elapsed(c.doseTime, now) > c.amount / c.absorptionRate ==> r == 0.0
    ensures Elapsed(c.doseTime, now) == 0.0 && c.amount / c.absorptionRate > 0.0 ==> r == c.amount
  {
    var t := Elapsed(c.doseTime, now);
    if t < 0.0 then c.amount
    else DoseCurve(c.amount, c.amount / c.absorptionRate, t)
  }

  /** The three pieces of `calc_cob` for a dose D absorbed over AT minutes,
      t minutes after it was eaten: all of D at the start, none after AT. */
  function DoseCurve(d: real, at: real, t: real): (r: real)
    requires t >= 0.0 && (t <= at ==> at != 0.0)
    ensures t > at ==> r == 0.0
    ensures t == 0.0 && at > 0.0 ==> r == d
  {
    assert t == 0.0 ==> 2.0 * d * t * t == 0.0;
    d - (if t < at / 2.0 then (2.0 * d * t * t) / (at * at)
         else if t <= at then ((4.0 * d) / at) * (t - (t * t) / (2.0 * at)) - d
         else d)
  }

  /** The end of the second half: at t = AT the expression reaches 0. */
  lemma SecondHalfEnds(d: real, at: real)
    requires at > 0.0
    ensures d - (((4.0 * d) / at) * (at - (at * at) / (2.0 * at)) - d) == 0.0
  {
    Numeric.QuotientOf(at * at, 2.0 * at, at / 2.0);
    Numeric.QuotientTimesDivisor(4.0 * d, at);
    var q := (4.0 * d) / at;
    assert q * (at / 2.0) == (q * at) / 2.0;
  }

  /** The pieces of `calc_cob` are the reference curve, the closed end
      included. */
  lemma DoseCurveIsCob(d: real, at: real, t: real)
    requires at >= 0.0 && t >= 0.0 && (t <= at ==> at != 0.0)
    ensures DoseCurve(d, at, t) == DiabeticCalcs.Cob(d, at, t)
  {
    if t < at / 2.0 {
      assert 2.0 * d * t * t == d * 2.0 * (t * t);
      DiabeticCalcs.FirstHalfIsCurve(d, at, t);
    } else if t < at {
      DiabeticCalcs.SecondHalfIsCurve(d, at, t);
    } else if t == at {
      SecondHalfEnds(d, at);
    }
  }

  /** `tick` follows the reference curve with AT = amount / rate: for a dose
      that has been eaten, a non-negative amount and a positive rate, it is
      exactly the GlucoDyn carbs on board, so it stays within [0, amount]. */
  lemma DoseCobIsCurve(c: CarbDose, now: int)
    requires c.amount >= 0.0 && c.absorptionRate > 0.0
    requires Elapsed(c.doseTime, now) >= 0.0 && CobDefined(c, now)
    ensures c.amount / c.absorptionRate >= 0.0
    ensures DoseCob(c, now) == DiabeticCalcs.Cob(c.amount, c.amount / c.absorptionRate, Elapsed(c.doseTime, now))
    ensures 0.0 <= DoseCob(c, now) <= c.amount
  {
    var t := Elapsed(c.doseTime, now);
    var at := c.amount / c.absorptionRate;
    Numeric.DivMonotone(0.0, c.amount, c.absorptionRate);
    if at == 0.0 {
      assert c.amount == 0.0 by {
        Numeric.QuotientTimesDivisor(c.amount, c.absorptionRate);
      }
    }
    DoseCurveIsCob(c.amount, at, t);
    DiabeticCalcs.CobBounds(c.amount, at, t);
  }

  /** A dose in the future counts in full. */
  lemma FutureDoseCountsInFull(c: CarbDose, now: int)
    requires now < c.doseTime - 59
    ensures CobDefined(c, now) && DoseCob(c, now) == c.amount
  {
  }

  // ---- Insulin doses ----

  /** `calc_iob`: all of a future dose, none past its DIA, and otherwise the
      amount times the curve's fraction at the elapsed whole minutes. */
  function CalcIob(now: int, item: IobCalc.Dose): (r: real)
    ensures now < item.doseTime ==> r == item.amount
    ensures now >= item.doseTime && Numeric.WholeMinutes(item.doseTime, now) >= IobCalc.DiaMinutes(item.dia) ==> r == 0.0
  {
    if now < item.doseTime then item.amount
    else
      var duration := Numeric.WholeMinutes(item.doseTime, now);
      if duration > IobCalc.DiaMinutes(item.dia) then 0.0
      else Portion(item.amount, IobCalc.InsulinOnBoardPct(duration as IobCalc.Int16, item.dia))
  }

  /** A fraction of an amount. */
  function Portion(amount: real, fraction: real): real {
    amount * fraction
  }

  /** A dose given never has more than its amount on board, nor less than none. */
  lemma CalcIobBounds(now: int, item: IobCalc.Dose)
    requires now >= item.doseTime && item.amount >= 0.0
    ensures 0.0 <= CalcIob(now, item) <= item.amount
  {
    var duration := Numeric.WholeMinutes(item.doseTime, now);
    if duration <= IobCalc.DiaMinutes(item.dia) {
      ScaledFraction(item.amount, IobCalc.InsulinOnBoardPct(duration as IobCalc.Int16, item.dia));
    }
  }

  /** A fraction in [0, 1] of a non-negative amount stays within [0, amount]. */
  lemma ScaledFraction(amount: real, pc: real)
    requires 0.0 <= pc <= 1.0
    ensures amount >= 0.0 ==> 0.0 <= Portion(amount, pc) <= amount
  {
    if amount >= 0.0 {
      Numeric.MulMonotone(0.0, pc, amount);
      Numeric.MulMonotone(pc, 1.0, amount);
    }
  }

  /** Within the DIA, the insulin on board is the amount times the curve. */
  lemma CalcIobFollowsCurve(now: int, item: IobCalc.Dose)
    requires item.doseTime <= now
    requires Numeric.WholeMinutes(item.doseTime, now) <= IobCalc.DiaMinutes(item.dia)
    ensures Numeric.WholeMinutes(item.doseTime, now) < 0x8000
    ensures CalcIob(now, item) ==
      Portion(item.amount, IobCalc.InsulinOnBoardPct(Numeric.WholeMinutes(item.doseTime, now) as IobCalc.Int16, item.dia))
  {
  }

  // ---- Clean-up ----

  /** An insulin dose is dropped once its whole elapsed minutes reach its DIA. */
  predicate InsulinSpent(now: int, d: IobCalc.Dose) {
    Elapsed(d.doseTime, now) >= IobCalc.DiaMinutes(d.dia) as real
  }

  /** A carbohydrate dose is dropped once it lies in the past and nothing of
      it is left on board; the clean-up only asks `tick` in that case. */
  predicate CarbsSpent(now: int, c: CarbDose)
    requires now > c.doseTime ==> CobDefined(c, now)
  {
    now > c.doseTime && DoseCob(c, now) <= 0.0
  }

  /** Every dose that `tick` is asked about can be evaluated. */
  predicate CarbsCleanable(now: int, cs: seq<CarbDose>) {
    forall i :: 0 <= i < |cs| ==> (now > cs[i].doseTime ==> CobDefined(cs[i], now))
  }

  /** A dose of the list that the clean-up drops. */
  predicate DroppedFrom(now: int, c: CarbDose, cs: seq<CarbDose>)
    requires CarbsCleanable(now, cs)
  {
    c in cs && CarbsSpent(now, c)
  }

  /** `a` is `b` with some elements left out, the rest in their order. */
  predicate SubsequenceOf<T(==)>(a: seq<T>, b: seq<T>)
    decreases |b|
  {
    if |a| == 0 then true
    else if |b| == 0 then false
    else if a[0] == b[0] then SubsequenceOf(a[1..], b[1..])
    else SubsequenceOf(a, b[1..])
  }

  /** The erase/remove_if of the insulin doses: the unspent ones, in order. */
  function KeepInsulin(now: int, ds: seq<IobCalc.Dose>): (r: seq<IobCalc.Dose>)
    ensures |r| <= |ds|
    ensures forall i :: 0 <= i < |r| ==> !InsulinSpent(now, r[i]) && r[i] in ds
    ensures forall d :: d in ds && !InsulinSpent(now, d) ==> d in r
    ensures forall d :: multiset(r)[d] == if InsulinSpent(now, d) then 0 else multiset(ds)[d]
    decreases |ds|
  {
    if |ds| == 0 then []
    else
      var rest := KeepInsulin(now, ds[1..]);
      assert multiset(ds) == multiset([ds[0]]) + multiset(ds[1..]) by {
        assert ds == [ds[0]] + ds[1..];
      }
      if InsulinSpent(now, ds[0]) then rest else [ds[0]] + rest
  }

  /** The erase/remove_if of the carbohydrate doses: the unspent ones, in order. */
  function KeepCarbs(now: int, cs: seq<CarbDose>): (r: seq<CarbDose>)
    requires CarbsCleanable(now, cs)
    ensures |r| <= |cs|
    ensures CarbsCleanable(now, r)
    ensures forall i :: 0 <= i < |r| ==> !CarbsSpent(now, r[i]) && r[i] in cs
    ensures forall i :: 0 <= i < |cs| && !CarbsSpent(now, cs[i]) ==> cs[i] in r
    decreases |cs|
  {
    if |cs| == 0 then []
    else
      var rest := KeepCarbs(now, cs[1..]);
      if CarbsSpent(now, cs[0]) then rest else [cs[0]] + rest
  }

  /** The carbohydrate filter keeps every copy of an unspent dose and no copy
      of a spent one. */
  lemma {:induction false} KeepCarbsCounts(now: int, cs: seq<CarbDose>)
    requires CarbsCleanable(now, cs)
    ensures forall c :: multiset(KeepCarbs(now, cs))[c] == if DroppedFrom(now, c, cs) then 0 else multiset(cs)[c]
    decreases |cs|
  {
    if |cs| > 0 {
      KeepCarbsCounts(now, cs[1..]);
      assert cs == [cs[0]] + cs[1..];
      assert multiset(cs) == multiset([cs[0]]) + multiset(cs[1..]);
    }
  }

  /** `clean_up`: both filters, applied at the same "now". Each list keeps
      exactly its unspent doses, every copy of them, in their order. */
  function CleanUp(now: int, insulin: seq<IobCalc.Dose>, carbs: seq<CarbDose>): (r: (seq<IobCalc.Dose>, seq<CarbDose>))
    requires CarbsCleanable(now, carbs)
    ensures SubsequenceOf(r.0, insulin) && SubsequenceOf(r.1, carbs)
    ensures forall d :: multiset(r.0)[d] == if InsulinSpent(now, d) then 0 else multiset(insulin)[d]
    ensures forall c :: multiset(r.1)[c] == if DroppedFrom(now, c, carbs) then 0 else multiset(carbs)[c]
  {
    KeepInsulinInOrder(now, insulin);
    KeepCarbsInOrder(now, carbs);
    KeepCarbsCounts(now, carbs);
    (KeepInsulin(now, insulin), KeepCarbs(now, carbs))
  }

  /** The survivors keep their relative order. */
  lemma {:induction false} KeepInsulinInOrder(now: int, ds: seq<IobCalc.Dose>)
    ensures SubsequenceOf(KeepInsulin(now, ds), ds)
    decreases |ds|
  {
    if |ds| > 0 {
      KeepInsulinInOrder(now, ds[1..]);
      var rest := KeepInsulin(now, ds[1..]);
      if InsulinSpent(now, ds[0]) {
        SkipFirst(rest, ds);
      } else {
        assert ([ds[0]] + rest)[1..] == rest;
      }
    }
  }

  /** The survivors keep their relative order. */
  lemma {:induction false} KeepCarbsInOrder(now: int, cs: seq<CarbDose>)
    requires CarbsCleanable(now, cs)
    ensures SubsequenceOf(KeepCarbs(now, cs), cs)
    decreases |cs|
  {
    if |cs| > 0 {
      KeepCarbsInOrder(now, cs[1..]);
      var rest := KeepCarbs(now, cs[1..]);
      if CarbsSpent(now, cs[0]) {
        SkipFirst(rest, cs);
      } else {
        assert ([cs[0]] + rest)[1..] == rest;
      }
    }
  }

  /** A subsequence of the tail is a subsequence of the whole. */
  lemma {:induction false} SkipFirst<T>(a: seq<T>, b: seq<T>)
    requires |b| > 0 && SubsequenceOf(a, b[1..])
    ensures SubsequenceOf(a, b)
    decreases |b|, 0
  {
    if |a| > 0 && a[0] == b[0] {
      SubsequenceShrinks(a, b[1..]);
    }
  }

  /** Dropping the first element of a subsequence keeps it a subsequence. */
  lemma {:induction false} SubsequenceShrinks<T>(a: seq<T>, b: seq<T>)
    requires |a| > 0 && SubsequenceOf(a, b)
    ensures SubsequenceOf(a[1..], b)
    decreases |b|, 1
  {
    if a[0] == b[0] {
      SkipFirst(a[1..], b);
    } else {
      SubsequenceShrinks(a, b[1..]);
      SkipFirst(a[1..], b);
    }
  }

  /** The clean-up only drops insulin that no longer counts: every dropped
      dose has no insulin on board at that time. */
  lemma DroppedInsulinIsSpent(now: int, d: IobCalc.Dose)
    requires InsulinSpent(now, d)
    ensures CalcIob(now, d) == 0.0
  {
    assert IobCalc.DiaMinutes(d.dia) > 0;
  }
}
