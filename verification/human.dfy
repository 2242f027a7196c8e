/** `simulator_human_t`: the simulated patient stub. It remembers the glucose
    and basal rate it was built with; the carbohydrate, bolus and basal-rate
    setters accept their argument and change nothing.
 */
module Human {
  import CarbUnit
  import GlucoseUnit
  import InsulinUnit
  import InsulinTimeUnit

  /** The two members of the stub. */
  datatype SimulatorHuman = SimulatorHuman(currentGlucose: GlucoseUnit.Glucose, currentBasalRate: InsulinTimeUnit.InsulinRate)

  /** The constructor. */
  function NewSimulatorHuman(glucose: GlucoseUnit.Glucose, basalRate: InsulinTimeUnit.InsulinRate): (h: SimulatorHuman)
    ensures GetGlucose(h) == glucose && GetBasalRate(h) == basalRate
  {
    SimulatorHuman(glucose, basalRate)
  }

  /** `get_glucose`. */
  function GetGlucose(h: SimulatorHuman): GlucoseUnit.Glucose {
    h.currentGlucose
  }

  /** `get_basal_rate`. */
  function GetBasalRate(h: SimulatorHuman): InsulinTimeUnit.InsulinRate {
    h.currentBasalRate
  }

  /** A call on the `human_t` interface that changes the patient. */
  datatype Action =
    | AddCarbohydrate(carbs: CarbUnit.Carb)
    | BolusInsulin(insulin: InsulinUnit.Insulin)
    | SetBasalRate(rate: InsulinTimeUnit.InsulinRate)

  /** One setter applied to the stub: an empty body, whatever the argument. */
  function Apply(h: SimulatorHuman, a: Action): (r: SimulatorHuman)
    ensures GetGlucose(r) == GetGlucose(h) && GetBasalRate(r) == GetBasalRate(h)
  {
    match a
    case AddCarbohydrate(_) => h
    case BolusInsulin(_) => h
    case SetBasalRate(_) => h
  }

  /** A sequence of setters, applied in order. */
  function ApplyAll(h: SimulatorHuman, actions: seq<Action>): SimulatorHuman
    decreases |actions|
  {
    if |actions| == 0 then h else ApplyAll(Apply(h, actions[0]), actions[1..])
  }

  /** No sequence of setters changes what the getters report: the glucose
      and basal rate stay those given to the constructor. Setting a basal
      rate is in particular not reflected by `get_basal_rate`. */
  lemma {:induction false} ApplyAllKeepsReadings(h: SimulatorHuman, actions: seq<Action>)
    ensures GetGlucose(ApplyAll(h, actions)) == GetGlucose(h)
    ensures GetBasalRate(ApplyAll(h, actions)) == GetBasalRate(h)
    decreases |actions|
  {
    if |actions| > 0 {
      ApplyAllKeepsReadings(Apply(h, actions[0]), actions[1..]);
    }
  }

  /** Setting a new basal rate and reading it back gives the old rate. */
  lemma SetBasalRateIsIgnored(glucose: GlucoseUnit.Glucose, oldRate: InsulinTimeUnit.InsulinRate, newRate: InsulinTimeUnit.InsulinRate)
    ensures GetBasalRate(Apply(NewSimulatorHuman(glucose, oldRate), SetBasalRate(newRate))) == oldRate
  {
  }
}
