/**
 * The per-trip figures of the pipeline: fuel used, fuel cost, idling ratio,
 * average speed and the two red/blue tags, each stated on one row's values.
 */
module Metrics {
  import opened Wrappers
  import opened Durations
  import opened Rounding
  import opened Frames

  /** The user's settings: yen per litre, kilometres per litre, idling alert threshold in percent. */
  datatype Config = Config(fuelPrice: real, fuelEfficiency: real, idlingThreshold: real)

  const Red: string := "red"
  const Blue: string := "blue"

  // ---------------------------------------------------------------------
  // Converting one cell
  // ---------------------------------------------------------------------

  /** The number a numeric cell holds, and None for text or a missing value. */
  function NumberOf(c: Cell): Option<real> {
    match c
    case Num(x) => Some(x)
    case _ => None
  }

  /** The cell for an optional number: the missing value stands for None. */
  function CellOf(v: Option<real>): (c: Cell)
    ensures NumberOf(c) == v
  {
    match v
    case Some(x) => Num(x)
    case None => Missing
  }

  /**
   * convert_time_to_minutes applied to a cell. The string form of a number
   * or of a missing value ("90", "1.5", "nan") never contains ':', so only a
   * text cell can give minutes.
   */
  function CellMinutes(c: Cell): (r: Option<real>)
    ensures !c.Text? ==> r.None?
  {
    match c
    case Text(s) => ConvertTimeToMinutes(s)
    case _ => None
  }

  /**
   * `pd.to_numeric(..., errors='coerce')` on a cell: a number stays, a
   * missing value stays missing, text goes through `toNumeric` (which gives
   * None where pandas coerces to NaN).
   */
  function CellNumber(c: Cell, toNumeric: string -> Option<real>): (r: Option<real>)
    ensures c.Num? ==> r == Some(c.x)
    ensures c.Missing? ==> r.None?
  {
    match c
    case Text(s) => toNumeric(s)
    case Num(x) => Some(x)
    case Missing => None
  }

  // ---------------------------------------------------------------------
  // The formulas of one trip
  // ---------------------------------------------------------------------

  /** Litres of fuel for a distance: distance / efficiency, rounded to 2 places. */
  function FuelLiters(distanceKm: real, efficiency: real): (liters: real)
    requires efficiency != 0.0
    ensures HasPlaces(liters, 2)
  {
    Round(distanceKm / efficiency, 2)
  }

  /** Cost of the fuel: litres * price, rounded to whole yen. */
  function FuelCost(liters: real, price: real): (cost: real)
    ensures HasPlaces(cost, 0)
  {
    Round(liters * price, 0)
  }

  /** Idle time as a percentage of drive time, rounded to 2 places. */
  function IdlingRatio(idleMinutes: real, driveMinutes: real): (ratio: real)
    requires driveMinutes > 0.0
    ensures HasPlaces(ratio, 2)
  {
    Round(idleMinutes / driveMinutes * 100.0, 2)
  }

  /** Kilometres per hour: distance over drive time in hours, rounded to 2 places. */
  function AverageSpeed(distanceKm: real, driveMinutes: real): (speed: real)
    requires driveMinutes > 0.0
    ensures HasPlaces(speed, 2)
  {
    Round(distanceKm / (driveMinutes / 60.0), 2)
  }

  /** Red when the fuel cost exceeds a hundred litres' worth, blue otherwise (NaN compares false). */
  function FuelColour(cost: Option<real>, price: real): (colour: string)
    ensures colour == Red <==> cost.Some? && cost.value > price * 100.0
    ensures colour == Red || colour == Blue
  {
    if cost.Some? && cost.value > price * 100.0 then Red else Blue
  }

  /** Red when the idling ratio exceeds the threshold, blue otherwise (NaN compares false). */
  function IdleColour(ratio: Option<real>, threshold: real): (colour: string)
    ensures colour == Red <==> ratio.Some? && ratio.value > threshold
    ensures colour == Blue <==> ratio.None? || ratio.value <= threshold
  {
    if ratio.Some? && ratio.value > threshold then Red else Blue
  }

  /** Scaling up by two decimal places multiplies by a hundred. */
  lemma ScaleUpTwo(x: real)
    ensures ScaleUp(x, 2) == 100.0 * x
  {
    assert ScaleUp(x, 1) == 10.0 * x;
  }

  /** Fuel litres are within half a hundredth of a litre of distance / efficiency. */
  lemma FuelLitersClose(distanceKm: real, efficiency: real)
    requires efficiency != 0.0
    ensures -0.005 <= FuelLiters(distanceKm, efficiency) - distanceKm / efficiency <= 0.005
  {
    RoundError(distanceKm / efficiency, 2);
    ScaleUpTwo(FuelLiters(distanceKm, efficiency) - distanceKm / efficiency);
  }

  /** The fuel cost is within half a yen of litres * price. */
  lemma FuelCostClose(liters: real, price: real)
    ensures -0.5 <= FuelCost(liters, price) - liters * price <= 0.5
  {
    RoundError(liters * price, 0);
  }

  /** The idling ratio is within half a hundredth of a percent of idle / drive * 100. */
  lemma IdlingRatioClose(idleMinutes: real, driveMinutes: real)
    requires driveMinutes > 0.0
    ensures -0.005 <= IdlingRatio(idleMinutes, driveMinutes) - idleMinutes / driveMinutes * 100.0 <= 0.005
  {
    RoundError(idleMinutes / driveMinutes * 100.0, 2);
    ScaleUpTwo(IdlingRatio(idleMinutes, driveMinutes) - idleMinutes / driveMinutes * 100.0);
  }

  /** The average speed is within half a hundredth of a km/h of distance / (drive / 60). */
  lemma AverageSpeedClose(distanceKm: real, driveMinutes: real)
    requires driveMinutes > 0.0
    ensures -0.005 <= AverageSpeed(distanceKm, driveMinutes) - distanceKm / (driveMinutes / 60.0) <= 0.005
  {
    RoundError(distanceKm / (driveMinutes / 60.0), 2);
    ScaleUpTwo(AverageSpeed(distanceKm, driveMinutes) - distanceKm / (driveMinutes / 60.0));
  }

  /** 100 km at 5 km/L and 160 yen/L: 20 litres, 3200 yen, a blue cost tag. */
  lemma FuelExample()
    ensures FuelLiters(100.0, 5.0) == 20.0
    ensures FuelCost(20.0, 160.0) == 3200.0
    ensures FuelColour(Some(3200.0), 160.0) == Blue
  {
    RoundExact(20.0, 2, 2000);
    RoundExact(3200.0, 0, 3200);
  }

  /** 30 idle minutes in 120 drive minutes is 25 percent; 60 km in 90 minutes is 40 km/h. */
  lemma RatioAndSpeedExample()
    ensures IdlingRatio(30.0, 120.0) == 25.0
    ensures AverageSpeed(60.0, 90.0) == 40.0
  {
    RoundExact(25.0, 2, 2500);
    RoundExact(40.0, 2, 4000);
  }

  /** Both tags use a strict comparison: at the boundary the tag is blue. */
  lemma BoundaryIsBlue(price: real, threshold: real)
    ensures FuelColour(Some(price * 100.0), price) == Blue
    ensures IdleColour(Some(threshold), threshold) == Blue
  {
  }
}
