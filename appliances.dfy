/** Appliance records and the value of one table cell: the consumption and the cost
    of one appliance over one period (script.js:133-191). */
module Appliances {
  import opened Numbers

  /** One appliance. `id` is the creation timestamp; `enabled` says whether the
      appliance takes part in the calculations. */
  datatype Device = Device(id: int, name: string, usageHours: Num, power: Num, pricePerKwh: Num, enabled: bool)

  /** The rows of the table body, in the order they are shown. */
  datatype Period = Hour | Day | Month | Year | Custom

  const Periods: seq<Period> := [Hour, Day, Month, Year, Custom]
  const DaysPerMonth: real := 30.44
  const DaysPerYear: real := 365.25
  const WattsPerKilowatt: real := 1000.0

  /** A cell pair as shown: consumption in kWh and cost, NaN and infinities shown as 0. */
  datatype Cell = Cell(consumption: real, cost: real)

  function PowerKw(d: Device): Num {
    Div(d.power, WattsPerKilowatt)
  }

  /** Consumption over one day of use; also the custom period and the overall row. */
  function DayConsumption(d: Device): Num {
    Mul(PowerKw(d), d.usageHours)
  }

  /** Consumption over `p`, multiplied out in the order the table code uses. */
  function Consumption(d: Device, p: Period): (r: Num)
    ensures d.power.Fin? && d.usageHours.Fin? ==>
      r == Fin(d.power.value / WattsPerKilowatt * Factor(p, d.usageHours.value))
    ensures d.power.NaN? || (p != Hour && d.usageHours.NaN?) ==> r.NaN?
  {
    match p
    case Hour => Mul(PowerKw(d), Fin(1.0))
    case Day => DayConsumption(d)
    case Month => Mul(DayConsumption(d), Fin(DaysPerMonth))
    case Year => Mul(DayConsumption(d), Fin(DaysPerYear))
    case Custom => DayConsumption(d)
  }

  /** The cell for appliance `d` in the row of period `p`. Nothing is computed
      unless calculation is on and the appliance is enabled. */
  function CellAt(d: Device, p: Period, doCalculation: bool): (c: Cell)
    ensures !(doCalculation && d.enabled) ==> c == Cell(0.0, 0.0)
    ensures !Consumption(d, p).Fin? ==> c.consumption == 0.0 && c.cost == 0.0
    ensures doCalculation && d.enabled && Consumption(d, p).Fin? ==> c.consumption == Consumption(d, p).value
    ensures !Mul(Consumption(d, p), d.pricePerKwh).Fin? ==> c.cost == 0.0
    ensures doCalculation && d.enabled && Mul(Consumption(d, p), d.pricePerKwh).Fin? ==>
      c.cost == Consumption(d, p).value * d.pricePerKwh.value
  {
    if doCalculation && d.enabled then
      var consumption := Consumption(d, p);
      Cell(OrZero(consumption), OrZero(Mul(consumption, d.pricePerKwh)))
    else
      Cell(0.0, 0.0)
  }

  /** The cells of one row, one per appliance in list order. */
  function Row(ds: seq<Device>, p: Period, doCalculation: bool): (row: seq<Cell>)
    ensures |row| == |ds|
    ensures forall j {:trigger row[j]} :: 0 <= j < |ds| ==> row[j] == CellAt(ds[j], p, doCalculation)
    ensures !doCalculation ==> forall j :: 0 <= j < |ds| ==> row[j] == Cell(0.0, 0.0)
    ensures forall j {:trigger row[j]} :: 0 <= j < |ds| && !ds[j].enabled ==> row[j] == Cell(0.0, 0.0)
    ensures doCalculation ==> forall j {:trigger row[j]} :: 0 <= j < |ds| && ds[j].enabled && HasFiniteFields(ds[j]) ==>
      var kwh := ds[j].power.value / WattsPerKilowatt * Factor(p, ds[j].usageHours.value);
      row[j] == Cell(kwh, kwh * ds[j].pricePerKwh.value)
  {
    seq(|ds|, j requires 0 <= j < |ds| => CellAt(ds[j], p, doCalculation))
  }

  predicate HasFiniteFields(d: Device) {
    d.usageHours.Fin? && d.power.Fin? && d.pricePerKwh.Fin?
  }

  /** Hours of use counted by period `p`: 1, the daily hours, or the daily hours
      times the days in a month or a year. */
  function Factor(p: Period, hours: real): real {
    match p
    case Hour => 1.0
    case Day => hours
    case Month => hours * DaysPerMonth
    case Year => hours * DaysPerYear
    case Custom => hours
  }

  /** For an enabled appliance with finite attributes and calculation on, the cell
      holds power / 1000 times the period's hours, and that times the price. */
  lemma CellFormula(d: Device, p: Period)
    requires d.enabled && HasFiniteFields(d)
    ensures var kwh := d.power.value / WattsPerKilowatt * Factor(p, d.usageHours.value);
            CellAt(d, p, true) == Cell(kwh, kwh * d.pricePerKwh.value)
  {
  }

  /** The month row is the day row times 30.44 in both columns, whatever the
      appliance holds (NaN and infinities included, since they show as 0 in both). */
  lemma MonthIsDayTimes(d: Device, doCalculation: bool)
    ensures var day := CellAt(d, Day, doCalculation);
            CellAt(d, Month, doCalculation) == Cell(day.consumption * DaysPerMonth, day.cost * DaysPerMonth)
  {
  }

  /** The year row is the day row times 365.25 in both columns, whatever the
      appliance holds. */
  lemma YearIsDayTimes(d: Device, doCalculation: bool)
    ensures var day := CellAt(d, Day, doCalculation);
            CellAt(d, Year, doCalculation) == Cell(day.consumption * DaysPerYear, day.cost * DaysPerYear)
  {
  }

  /** The custom row reuses the appliance's own hours, so it equals the day row. */
  lemma CustomIsDay(d: Device, doCalculation: bool)
    ensures CellAt(d, Custom, doCalculation) == CellAt(d, Day, doCalculation)
  {
  }

  /** An example appliance: 1000 W used 5 hours a day at 5 per kWh. */
  const Kettle: Device := Device(1, "kettle", Fin(5.0), Fin(1000.0), Fin(5.0), true)

  /** Its cells, row by row: 1 kWh and 5 an hour, 5 kWh and 25 a day, 152.2 kWh and
      761 a month, 1826.25 kWh and 9131.25 a year, and the day's figures again for
      the custom period. */
  lemma ExampleTable(p: Period)
    ensures CellAt(Kettle, p, true) == match p
      case Hour => Cell(1.0, 5.0)
      case Day => Cell(5.0, 25.0)
      case Month => Cell(152.2, 761.0)
      case Year => Cell(1826.25, 9131.25)
      case Custom => Cell(5.0, 25.0)
  {
  }
}
