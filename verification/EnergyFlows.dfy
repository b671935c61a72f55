/** Energy per channel, and the trapezoid that turns two power readings into energy. */
module EnergyFlows {
  import opened Rounding

  /** What one bucket accumulates: seven site channels and one channel per consumer. */
  datatype Channel =
    | GridImport | GridExport | PvGeneration | BatteryCharge | BatteryDischarge
    | Uncontrollable | Surplus
    | Consumer(id: string)

  /** Energy in kWh on every channel; a consumer without an entry has none. */
  datatype Energy = Energy(
    gridImport: real, gridExport: real, pv: real, charge: real, discharge: real,
    uncontrollable: real, surplus: real, consumers: map<string, real>)

  const NO_ENERGY := Energy(0.0, 0.0, 0.0, 0.0, 0.0, 0.0, 0.0, map[])

  function Amount(e: Energy, c: Channel): real {
    match c
    case GridImport => e.gridImport
    case GridExport => e.gridExport
    case PvGeneration => e.pv
    case BatteryCharge => e.charge
    case BatteryDischarge => e.discharge
    case Uncontrollable => e.uncontrollable
    case Surplus => e.surplus
    case Consumer(id) => Entry(e.consumers, id)
  }

  /** `TryGetValue(id, out double v)`: 0 when the key is missing. */
  function Entry(m: map<string, real>, id: string): real {
    if id in m then m[id] else 0.0
  }

  function PlusEntries(a: map<string, real>, b: map<string, real>): map<string, real> {
    map id | id in a.Keys + b.Keys :: Entry(a, id) + Entry(b, id)
  }

  function Plus(a: Energy, b: Energy): (r: Energy)
    ensures forall c :: Amount(r, c) == Amount(a, c) + Amount(b, c)
    ensures r.consumers.Keys == a.consumers.Keys + b.consumers.Keys
  {
    Energy(a.gridImport + b.gridImport, a.gridExport + b.gridExport, a.pv + b.pv, a.charge + b.charge,
           a.discharge + b.discharge, a.uncontrollable + b.uncontrollable, a.surplus + b.surplus,
           PlusEntries(a.consumers, b.consumers))
  }

  /** The site readings of one dispatch cycle, in kW, under the pool sign rule. */
  datatype Reading = Reading(
    grid: real, pv: real, battery: real, uncontrollable: real, surplus: real,
    consumers: map<string, real>)

  /** Energy of the part of a linear power course that the clamped end points span. */
  function Trapezoid(from: real, to: real, hours: real): (kwh: real)
    ensures hours >= 0.0 ==> kwh >= 0.0
  {
    (Positive(from) + Positive(to)) * 0.5 * hours
  }

  /** The same without clamping. */
  function SignedTrapezoid(from: real, to: real, hours: real): real {
    (from + to) * 0.5 * hours
  }

  /** Clamping splits a signed course into its two directions and loses nothing. */
  lemma ClampedDirections(from: real, to: real, hours: real)
    ensures Trapezoid(from, to, hours) - Trapezoid(-from, -to, hours) == SignedTrapezoid(from, to, hours)
  {
    var plus := (Positive(from) + Positive(to)) * 0.5;
    var minus := (Positive(-from) + Positive(-to)) * 0.5;
    assert plus - minus == (from + to) * 0.5;
    assert plus * hours - minus * hours == (plus - minus) * hours;
  }

  /** What one accepted live step adds. */
  function StepEnergy(prev: Reading, cur: Reading, hours: real): (e: Energy)
    ensures hours >= 0.0 ==> forall c :: Amount(e, c) >= 0.0
    ensures e.consumers.Keys == cur.consumers.Keys
  {
    Energy(
      Trapezoid(prev.grid, cur.grid, hours), Trapezoid(-prev.grid, -cur.grid, hours),
      Trapezoid(prev.pv, cur.pv, hours),
      Trapezoid(-prev.battery, -cur.battery, hours), Trapezoid(prev.battery, cur.battery, hours),
      Trapezoid(prev.uncontrollable, cur.uncontrollable, hours),
      Trapezoid(prev.surplus, cur.surplus, hours),
      map id | id in cur.consumers :: Trapezoid(Entry(prev.consumers, id), cur.consumers[id], hours))
  }
}
