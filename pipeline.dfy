/**
 * process_csv_data: the trip-log pipeline run on a table already read from
 * the CSV file. It locates the drive-time, idle-time, date and distance
 * columns by keyword, converts times to minutes and the distance to a
 * number, drops the rows without a positive drive time and a distance,
 * and adds the fuel, cost, idling-ratio, speed, date and colour columns.
 *
 * `Process` is the pipeline on table values, stage by stage;
 * `ProcessCsvData` runs the same stages on a DataFrame object in place.
 */
module Pipeline {
  import opened Wrappers
  import opened Frames
  import opened Columns
  import opened Metrics
  import opened Rounding

  // Column labels the pipeline writes.
  const DriveTimeName: string := "走行時間"
  const IdleTimeName: string := "アイドリング時間"
  const DriveMinutesName: string := "運転時間_分"
  const IdleMinutesName: string := "アイドリング時間_分"
  const DistanceKmName: string := "走行距離_km"
  const FuelLitersName: string := "燃料使用量_L"
  const FuelCostName: string := "燃料費_円"
  const IdlingRatioName: string := "アイドリング率_％"
  const AverageSpeedName: string := "平均速度_km_h"
  const TripDateName: string := "運行日"
  const FuelColourName: string := "燃料費カラー"
  const IdleColourName: string := "アイドリングカラー"

  /** The required columns, in the order they are looked for. */
  datatype Field = DriveTime | IdleTime | Distance

  /** The failure: the first required column not found, and the headers the frame had at that moment. */
  datatype MissingColumn = MissingColumn(field: Field, columns: seq<string>)

  /** Where the columns were found: positions in the header list (renaming and appending never move a column). */
  datatype Resolution = Resolution(handle: nat, idle: nat, date: Option<nat>, distance: nat)

  // ---------------------------------------------------------------------
  // The labels the pipeline writes contain none of the keywords it looks for
  // ---------------------------------------------------------------------

  /** A text lacking some character of `sub` does not contain `sub`. */
  lemma MissingCharacter(s: string, sub: string, c: char)
    requires c in sub && c !in s
    ensures !Contains(s, sub)
  {
  }

  /** The renamed drive-time and idle-time labels and the two minute labels hide no keyword. */
  lemma WrittenLabelsHideKeywords()
    ensures !ContainsAny(DriveTimeName, [IdleKey])
    ensures !ContainsAny(DriveTimeName, [DateKey]) && !ContainsAny(IdleTimeName, [DateKey])
    ensures !ContainsAny(DriveTimeName, DistanceKeys) && !ContainsAny(IdleTimeName, DistanceKeys)
    ensures !ContainsAny(DriveMinutesName, DistanceKeys) && !ContainsAny(IdleMinutesName, DistanceKeys)
  {
    assert !Contains(DriveTimeName, IdleKey);
    MissingCharacter(DriveTimeName, DateKey, '日');
    MissingCharacter(IdleTimeName, DateKey, '日');
    MissingCharacter(DriveTimeName, DriveDistanceKey, '距');
    MissingCharacter(DriveTimeName, SegmentDistanceKey, '距');
    MissingCharacter(IdleTimeName, DriveDistanceKey, '距');
    MissingCharacter(IdleTimeName, SegmentDistanceKey, '距');
    MissingCharacter(DriveMinutesName, DriveDistanceKey, '距');
    MissingCharacter(DriveMinutesName, SegmentDistanceKey, '距');
    MissingCharacter(IdleMinutesName, DriveDistanceKey, '距');
    MissingCharacter(IdleMinutesName, SegmentDistanceKey, '距');
  }

  // ---------------------------------------------------------------------
  // Locating the columns
  // ---------------------------------------------------------------------

  /** The headers after the drive-time column (at `h`) is renamed. */
  function HeadersAfterDrive(cs: seq<string>, h: nat): seq<string>
    requires h < |cs|
  {
    Renamed(cs, cs[h], DriveTimeName)
  }

  /** The headers after the idle-time column (at `i`) is renamed as well. */
  function HeadersAfterIdle(cs: seq<string>, h: nat, i: nat): seq<string>
    requires h < |cs| && i < |cs|
  {
    Renamed(HeadersAfterDrive(cs, h), HeadersAfterDrive(cs, h)[i], IdleTimeName)
  }

  /** The headers when the distance column is looked for: the two minute columns have been assigned. */
  function HeadersBeforeDistance(cs: seq<string>, h: nat, i: nat): seq<string>
    requires h < |cs| && i < |cs|
  {
    WithName(WithName(HeadersAfterIdle(cs, h, i), DriveMinutesName), IdleMinutesName)
  }

  /**
   * The column lookups of process_csv_data, in its order: drive time
   * (ハンドル), idle time (アイドリング) after the first rename, the optional
   * date (日付) after the second, and the distance (走行距離 or 区間距離) after
   * the minute columns have been added. The first lookup that finds nothing
   * is the failure, with the headers of that moment.
   */
  function Resolve(cs: seq<string>): (r: Result<Resolution, MissingColumn>)
    ensures r.Ok? ==>
      && IsFirstMatch(cs, [HandleKey], r.value.handle)
      && IsFirstMatch(HeadersAfterDrive(cs, r.value.handle), [IdleKey], r.value.idle)
      && (r.value.date.Some? ==>
            IsFirstMatch(HeadersAfterIdle(cs, r.value.handle, r.value.idle), [DateKey], r.value.date.value))
      && (r.value.date.None? ==> NoMatch(HeadersAfterIdle(cs, r.value.handle, r.value.idle), [DateKey]))
      && IsFirstMatch(HeadersBeforeDistance(cs, r.value.handle, r.value.idle), DistanceKeys, r.value.distance)
      && r.value.distance < |cs|
    ensures r.Err? && r.error.field == DriveTime ==>
      NoMatch(cs, [HandleKey]) && r.error.columns == cs
    ensures r.Err? && r.error.field == IdleTime ==>
      exists h :: IsFirstMatch(cs, [HandleKey], h) &&
        NoMatch(HeadersAfterDrive(cs, h), [IdleKey]) && r.error.columns == HeadersAfterDrive(cs, h)
    ensures r.Err? && r.error.field == Distance ==>
      exists h, i :: IsFirstMatch(cs, [HandleKey], h) && IsFirstMatch(HeadersAfterDrive(cs, h), [IdleKey], i) &&
        NoMatch(HeadersBeforeDistance(cs, h, i), DistanceKeys) && r.error.columns == HeadersBeforeDistance(cs, h, i)
  {
    match FindColumn(cs, [HandleKey])
    case None => Err(MissingColumn(DriveTime, cs))
    case Some(h) =>
      var cs1 := HeadersAfterDrive(cs, h);
      match FindColumn(cs1, [IdleKey])
      case None => Err(MissingColumn(IdleTime, cs1))
      case Some(i) =>
        var date := FindColumn(HeadersAfterIdle(cs, h, i), [DateKey]);
        var cs4 := HeadersBeforeDistance(cs, h, i);
        match FindColumn(cs4, DistanceKeys)
        case None => Err(MissingColumn(Distance, cs4))
        case Some(d) =>
          assert d < |cs| by {
            WrittenLabelsHideKeywords();
          }
          Ok(Resolution(h, i, date, d))
  }

  // ---------------------------------------------------------------------
  // Column operations (pandas' vectorised arithmetic and Series.apply)
  // ---------------------------------------------------------------------

  /** A converted column holds only numbers and missing values. */
  predicate NumbersOnly(col: seq<Cell>) {
    forall k | 0 <= k < |col| :: !col[k].Text?
  }

  /** `col.apply(convert_time_to_minutes)` */
  function MinutesColumn(col: seq<Cell>): (r: seq<Cell>)
    ensures |r| == |col| && NumbersOnly(r)
  {
    seq(|col|, k requires 0 <= k < |col| => CellOf(CellMinutes(col[k])))
  }

  /** `pd.to_numeric(col, errors='coerce')` */
  function NumericColumn(col: seq<Cell>, toNumeric: string -> Option<real>): (r: seq<Cell>)
    ensures |r| == |col| && NumbersOnly(r)
  {
    seq(|col|, k requires 0 <= k < |col| => CellOf(CellNumber(col[k], toNumeric)))
  }

  /** The rows `dropna(subset=[drive minutes, distance])` keeps: both present. */
  function PresentMask(drive: seq<Cell>, distance: seq<Cell>): (m: seq<bool>)
    requires |drive| == |distance|
    ensures |m| == |drive|
  {
    seq(|drive|, k requires 0 <= k < |drive| => !drive[k].Missing? && !distance[k].Missing?)
  }

  /** The test `col > 0` on positive numbers. */
  predicate IsPositive(c: Cell) {
    c.Num? && c.x > 0.0
  }

  /** The rows `df[df[drive minutes] > 0]` keeps. */
  function PositiveMask(drive: seq<Cell>): (m: seq<bool>)
    ensures |m| == |drive|
  {
    seq(|drive|, k requires 0 <= k < |drive| => IsPositive(drive[k]))
  }

  /** Every cell of the column is a positive number. */
  predicate AllPositive(col: seq<Cell>) {
    forall k | 0 <= k < |col| :: IsPositive(col[k])
  }

  /** `(distance / fuel_efficiency).round(2)` */
  function FuelColumn(distance: seq<Cell>, efficiency: real): (r: seq<Cell>)
    requires efficiency != 0.0
    ensures |r| == |distance|
    ensures forall k | 0 <= k < |r| :: (r[k].Num? <==> distance[k].Num?) && !r[k].Text?
    ensures forall k | 0 <= k < |r| && r[k].Num? :: HasPlaces(r[k].x, 2)
  {
    seq(|distance|, k requires 0 <= k < |distance| =>
      match NumberOf(distance[k])
      case Some(d) => Num(FuelLiters(d, efficiency))
      case None => Missing)
  }

  /** `(fuel * fuel_price).round(0)` */
  function CostColumn(fuel: seq<Cell>, price: real): (r: seq<Cell>)
    ensures |r| == |fuel|
    ensures forall k | 0 <= k < |r| :: (r[k].Num? <==> fuel[k].Num?) && !r[k].Text?
    ensures forall k | 0 <= k < |r| && r[k].Num? :: HasPlaces(r[k].x, 0)
  {
    seq(|fuel|, k requires 0 <= k < |fuel| =>
      match NumberOf(fuel[k])
      case Some(l) => Num(FuelCost(l, price))
      case None => Missing)
  }

  /** `(idle / drive * 100).round(2)`; every drive cell must be a positive number. */
  function RatioColumn(idle: seq<Cell>, drive: seq<Cell>): (r: seq<Cell>)
    requires |idle| == |drive| && AllPositive(drive)
    ensures |r| == |idle|
    ensures forall k | 0 <= k < |r| :: (r[k].Num? <==> idle[k].Num?) && !r[k].Text?
    ensures forall k | 0 <= k < |r| && r[k].Num? :: HasPlaces(r[k].x, 2)
  {
    seq(|idle|, k requires 0 <= k < |idle| =>
      match NumberOf(idle[k])
      case Some(i) => Num(IdlingRatio(i, drive[k].x))
      case None => Missing)
  }

  /** `(distance / (drive / 60)).round(2)`; every drive cell must be a positive number. */
  function SpeedColumn(distance: seq<Cell>, drive: seq<Cell>): (r: seq<Cell>)
    requires |distance| == |drive| && AllPositive(drive)
    ensures |r| == |distance|
    ensures forall k | 0 <= k < |r| :: (r[k].Num? <==> distance[k].Num?) && !r[k].Text?
    ensures forall k | 0 <= k < |r| && r[k].Num? :: HasPlaces(r[k].x, 2)
  {
    seq(|distance|, k requires 0 <= k < |distance| =>
      match NumberOf(distance[k])
      case Some(d) => Num(AverageSpeed(d, drive[k].x))
      case None => Missing)
  }

  /** `pd.to_datetime(col, errors='coerce')`, cell by cell through `toDatetime`. */
  function DateColumn(col: seq<Cell>, toDatetime: Cell -> Cell): (r: seq<Cell>)
    ensures |r| == |col|
    ensures forall k | 0 <= k < |r| :: r[k] == toDatetime(col[k])
  {
    seq(|col|, k requires 0 <= k < |col| => toDatetime(col[k]))
  }

  /** `cost.apply(lambda x: 'red' if x > fuel_price * 100 else 'blue')` */
  function FuelColourColumn(cost: seq<Cell>, price: real): (r: seq<Cell>)
    ensures |r| == |cost|
    ensures forall k | 0 <= k < |r| :: r[k] == Text(Red) <==> cost[k].Num? && cost[k].x > price * 100.0
    ensures forall k | 0 <= k < |r| :: r[k] == Text(Red) || r[k] == Text(Blue)
  {
    seq(|cost|, k requires 0 <= k < |cost| => Text(FuelColour(NumberOf(cost[k]), price)))
  }

  /** `ratio.apply(lambda x: 'red' if x > idling_threshold else 'blue')`: a missing ratio (NaN) is tagged blue. */
  function IdleColourColumn(ratio: seq<Cell>, threshold: real): (r: seq<Cell>)
    ensures |r| == |ratio|
    ensures forall k | 0 <= k < |r| :: r[k] == Text(Red) <==> ratio[k].Num? && ratio[k].x > threshold
    ensures forall k | 0 <= k < |r| :: r[k] == Text(Red) || r[k] == Text(Blue)
  {
    seq(|ratio|, k requires 0 <= k < |ratio| => Text(IdleColour(NumberOf(ratio[k]), threshold)))
  }

  /** A computed fuel cell is within 0.005 L of distance / efficiency. */
  lemma FuelColumnClose(distance: seq<Cell>, efficiency: real, k: nat)
    requires efficiency != 0.0 && k < |distance| && distance[k].Num?
    ensures FuelColumn(distance, efficiency)[k].Num?
    ensures -0.005 <= FuelColumn(distance, efficiency)[k].x - distance[k].x / efficiency <= 0.005
  {
    FuelLitersClose(distance[k].x, efficiency);
  }

  /** A computed cost cell is within half a yen of litres * price. */
  lemma CostColumnClose(fuel: seq<Cell>, price: real, k: nat)
    requires k < |fuel| && fuel[k].Num?
    ensures CostColumn(fuel, price)[k].Num?
    ensures -0.5 <= CostColumn(fuel, price)[k].x - fuel[k].x * price <= 0.5
  {
    FuelCostClose(fuel[k].x, price);
  }

  /** A computed ratio cell is within 0.005 % of idle / drive * 100. */
  lemma RatioColumnClose(idle: seq<Cell>, drive: seq<Cell>, k: nat)
    requires |idle| == |drive| && AllPositive(drive) && k < |idle| && idle[k].Num?
    ensures RatioColumn(idle, drive)[k].Num?
    ensures -0.005 <= RatioColumn(idle, drive)[k].x - idle[k].x / drive[k].x * 100.0 <= 0.005
  {
    IdlingRatioClose(idle[k].x, drive[k].x);
  }

  /** A computed speed cell is within 0.005 km/h of distance / (drive / 60). */
  lemma SpeedColumnClose(distance: seq<Cell>, drive: seq<Cell>, k: nat)
    requires |distance| == |drive| && AllPositive(drive) && k < |distance| && distance[k].Num?
    ensures SpeedColumn(distance, drive)[k].Num?
    ensures -0.005 <= SpeedColumn(distance, drive)[k].x - distance[k].x / (drive[k].x / 60.0) <= 0.005
  {
    AverageSpeedClose(distance[k].x, drive[k].x);
  }

  // ---------------------------------------------------------------------
  // The stages on table values
  // ---------------------------------------------------------------------

  /** Lines 48-49: the two minute columns. */
  function ConvertTimes(t: Table): (r: Table)
    requires Shaped(t) && DriveTimeName in t.columns && IdleTimeName in t.columns
    ensures Shaped(r) && r.height == t.height
    ensures r.columns == WithName(WithName(t.columns, DriveMinutesName), IdleMinutesName)
    ensures Select(r, DriveMinutesName) == MinutesColumn(Select(t, DriveTimeName))
    ensures Select(r, IdleMinutesName) == MinutesColumn(Select(t, IdleTimeName))
    ensures forall n | n in t.columns && n != DriveMinutesName && n != IdleMinutesName :: Select(r, n) == Select(t, n)
  {
    var t3 := WithColumn(t, DriveMinutesName, MinutesColumn(Select(t, DriveTimeName)));
    WithColumn(t3, IdleMinutesName, MinutesColumn(Select(t3, IdleTimeName)))
  }

  /** Line 55: the numeric distance column, from the column labelled `source`. */
  function ConvertDistance(t: Table, source: string, toNumeric: string -> Option<real>): (r: Table)
    requires Shaped(t) && source in t.columns
    ensures Shaped(r) && r.height == t.height && r.columns == WithName(t.columns, DistanceKmName)
    ensures Select(r, DistanceKmName) == NumericColumn(Select(t, source), toNumeric)
    ensures forall n | n in t.columns && n != DistanceKmName :: Select(r, n) == Select(t, n)
  {
    WithColumn(t, DistanceKmName, NumericColumn(Select(t, source), toNumeric))
  }

  /** The rows the two filters of lines 58-59 keep, stated on the table before them. */
  function KeepMask(t: Table): (m: seq<bool>)
    requires Shaped(t) && DriveMinutesName in t.columns && DistanceKmName in t.columns
    ensures |m| == t.height
    ensures forall k | 0 <= k < |m| :: m[k] <==>
      && IsPositive(Select(t, DriveMinutesName)[k])
      && !Select(t, DistanceKmName)[k].Missing?
  {
    And(PresentMask(Select(t, DriveMinutesName), Select(t, DistanceKmName)), PositiveMask(Select(t, DriveMinutesName)))
  }

  /** Testing positivity commutes with filtering. */
  lemma PositiveMaskFilter(col: seq<Cell>, m: seq<bool>)
    requires |col| == |m|
    ensures PositiveMask(FilterMask(col, m)) == FilterMask(PositiveMask(col), m)
  {
    var a, b := PositiveMask(FilterMask(col, m)), FilterMask(PositiveMask(col), m);
    forall k | 0 <= k < |a| ensures a[k] == b[k] {
      FilterMaskAt(col, m, k);
      FilterMaskAt(PositiveMask(col), m, k);
    }
  }

  /**
   * Lines 58-59: drop the rows whose drive minutes or distance are missing,
   * then keep those with positive drive minutes. Every remaining drive-time
   * cell is a positive number, so the divisions of lines 66-67 are defined.
   */
  function DropInvalid(t: Table): (r: Table)
    requires Shaped(t) && DriveMinutesName in t.columns && DistanceKmName in t.columns
    ensures Shaped(r) && r.columns == t.columns && r.height == CountTrue(KeepMask(t))
    ensures forall j | 0 <= j < |t.columns| :: r.data[j] == FilterMask(t.data[j], KeepMask(t))
    ensures forall n | n in t.columns :: Select(r, n) == FilterMask(Select(t, n), KeepMask(t))
    ensures AllPositive(Select(r, DriveMinutesName))
  {
    var present := PresentMask(Select(t, DriveMinutesName), Select(t, DistanceKmName));
    var t6 := Where(t, present);
    var r := Where(t6, PositiveMask(Select(t6, DriveMinutesName)));
    PositiveMaskFilter(Select(t, DriveMinutesName), present);
    forall j | 0 <= j < |t.columns| ensures r.data[j] == FilterMask(t.data[j], KeepMask(t)) {
      FilterFilter(t.data[j], present, PositiveMask(Select(t, DriveMinutesName)));
    }
    FilterMaskAll(Select(t6, DriveMinutesName), PositiveMask(Select(t6, DriveMinutesName)), IsPositive);
    r
  }

  /** Lines 62-63: fuel litres and fuel cost. */
  function AddFuel(t: Table, cfg: Config): (r: Table)
    requires Shaped(t) && cfg.fuelEfficiency != 0.0 && DistanceKmName in t.columns
    ensures Shaped(r) && r.height == t.height
    ensures r.columns == WithName(WithName(t.columns, FuelLitersName), FuelCostName)
    ensures forall n | n in t.columns && n != FuelLitersName && n != FuelCostName :: Select(r, n) == Select(t, n)
    ensures Select(r, FuelLitersName) == FuelColumn(Select(t, DistanceKmName), cfg.fuelEfficiency)
    ensures Select(r, FuelCostName) == CostColumn(FuelColumn(Select(t, DistanceKmName), cfg.fuelEfficiency), cfg.fuelPrice)
  {
    var t8 := WithColumn(t, FuelLitersName, FuelColumn(Select(t, DistanceKmName), cfg.fuelEfficiency));
    WithColumn(t8, FuelCostName, CostColumn(Select(t8, FuelLitersName), cfg.fuelPrice))
  }

  /** Lines 66-67: idling ratio and average speed; every drive-minutes cell must be a positive number. */
  function AddRates(t: Table): (r: Table)
    requires Shaped(t) && DriveMinutesName in t.columns && IdleMinutesName in t.columns && DistanceKmName in t.columns
    requires AllPositive(Select(t, DriveMinutesName))
    ensures Shaped(r) && r.height == t.height
    ensures r.columns == WithName(WithName(t.columns, IdlingRatioName), AverageSpeedName)
    ensures forall n | n in t.columns && n != IdlingRatioName && n != AverageSpeedName :: Select(r, n) == Select(t, n)
    ensures Select(r, IdlingRatioName) == RatioColumn(Select(t, IdleMinutesName), Select(t, DriveMinutesName))
    ensures Select(r, AverageSpeedName) == SpeedColumn(Select(t, DistanceKmName), Select(t, DriveMinutesName))
  {
    var t10 := WithColumn(t, IdlingRatioName, RatioColumn(Select(t, IdleMinutesName), Select(t, DriveMinutesName)));
    WithColumn(t10, AverageSpeedName, SpeedColumn(Select(t10, DistanceKmName), Select(t10, DriveMinutesName)))
  }

  /** Lines 70-71: the trip date column, when a date column was found. */
  function AddDate(t: Table, source: Option<string>, toDatetime: Cell -> Cell): (r: Table)
    requires Shaped(t) && (source.Some? ==> source.value in t.columns)
    ensures Shaped(r) && r.height == t.height
    ensures r.columns == if source.Some? then WithName(t.columns, TripDateName) else t.columns
    ensures source.Some? ==> Select(r, TripDateName) == DateColumn(Select(t, source.value), toDatetime)
    ensures forall n | n in t.columns && n != TripDateName :: Select(r, n) == Select(t, n)
  {
    if source.Some? then WithColumn(t, TripDateName, DateColumn(Select(t, source.value), toDatetime)) else t
  }

  /** Lines 74-75: the fuel-cost and idling colour tags. */
  function AddColours(t: Table, cfg: Config): (r: Table)
    requires Shaped(t) && FuelCostName in t.columns && IdlingRatioName in t.columns
    ensures Shaped(r) && r.height == t.height
    ensures r.columns == WithName(WithName(t.columns, FuelColourName), IdleColourName)
    ensures Select(r, FuelColourName) == FuelColourColumn(Select(t, FuelCostName), cfg.fuelPrice)
    ensures Select(r, IdleColourName) == IdleColourColumn(Select(t, IdlingRatioName), cfg.idlingThreshold)
    ensures forall n | n in t.columns && n != FuelColourName && n != IdleColourName :: Select(r, n) == Select(t, n)
  {
    var t13 := WithColumn(t, FuelColourName, FuelColourColumn(Select(t, FuelCostName), cfg.fuelPrice));
    WithColumn(t13, IdleColourName, IdleColourColumn(Select(t13, IdlingRatioName), cfg.idlingThreshold))
  }

  /** The frame after both renames (lines 36 and 42). */
  function RenameBoth(t: Table, res: Resolution): (r: Table)
    requires Shaped(t) && Resolve(t.columns) == Ok(res)
    ensures Shaped(r) && r.data == t.data && r.height == t.height
    ensures r.columns == HeadersAfterIdle(t.columns, res.handle, res.idle)
    ensures DriveTimeName in r.columns && IdleTimeName in r.columns
  {
    var t1 := RenameColumn(t, t.columns[res.handle], DriveTimeName);
    var r := RenameColumn(t1, t1.columns[res.idle], IdleTimeName);
    WrittenLabelsHideKeywords();
    assert r.columns[res.handle] == DriveTimeName;
    r
  }

  /** The label of the date column, when one was found (line 45). */
  function DateLabel(t: Table, res: Resolution): (r: Option<string>)
    requires Shaped(t) && Resolve(t.columns) == Ok(res)
    ensures r.Some? <==> res.date.Some?
    ensures r.Some? ==> Contains(r.value, DateKey)
  {
    if res.date.Some? then Some(HeadersAfterIdle(t.columns, res.handle, res.idle)[res.date.value]) else None
  }

  /** Lines 33-55: both renames, the two minute columns and the numeric distance column. */
  function Prepare(t: Table, res: Resolution, toNumeric: string -> Option<real>): (r: Table)
    requires Shaped(t) && Resolve(t.columns) == Ok(res)
    ensures Shaped(r) && r.height == t.height
    ensures DriveMinutesName in r.columns && IdleMinutesName in r.columns && DistanceKmName in r.columns
    ensures DateLabel(t, res).Some? ==> DateLabel(t, res).value in r.columns
  {
    var t2 := RenameBoth(t, res);
    var t4 := ConvertTimes(t2);
    ConvertDistance(t4, t4.columns[res.distance], toNumeric)
  }

  /**
   * The labels after lines 58-75: each assignment appends its label unless
   * it is already there, so every earlier label keeps its position.
   */
  function FinishedLabels(cs: seq<string>, dated: bool): (r: seq<string>)
    ensures |cs| <= |r| && forall j | 0 <= j < |cs| :: r[j] == cs[j]
  {
    var b := WithTwoNames(WithTwoNames(cs, FuelLitersName, FuelCostName), IdlingRatioName, AverageSpeedName);
    var c := if dated then WithName(b, TripDateName) else b;
    WithTwoNames(c, FuelColourName, IdleColourName)
  }

  /** Two labels appended in turn, each unless it is already there. */
  function WithTwoNames(cs: seq<string>, first: string, second: string): (r: seq<string>)
    ensures |cs| <= |r| && forall j | 0 <= j < |cs| :: r[j] == cs[j]
  {
    WithName(WithName(cs, first), second)
  }

  /** Lines 58-75: the row filters and every derived column, given the date column's label if any. */
  function Finish(t: Table, date: Option<string>, cfg: Config, toDatetime: Cell -> Cell): (r: Table)
    requires Shaped(t) && cfg.fuelEfficiency != 0.0
    requires DriveMinutesName in t.columns && IdleMinutesName in t.columns && DistanceKmName in t.columns
    requires date.Some? ==> date.value in t.columns
    ensures Shaped(r) && r.height == CountTrue(KeepMask(t)) && r.height <= t.height
  {
    var t7 := DropInvalid(t);
    var t9 := AddFuel(t7, cfg);
    var t11 := AddRates(t9);
    var t12 := AddDate(t11, date, toDatetime);
    AddColours(t12, cfg)
  }

  /** The labels Finish leaves are the ones FinishedLabels lists. */
  lemma FinishLabels(t: Table, date: Option<string>, cfg: Config, toDatetime: Cell -> Cell)
    requires Shaped(t) && cfg.fuelEfficiency != 0.0
    requires DriveMinutesName in t.columns && IdleMinutesName in t.columns && DistanceKmName in t.columns
    requires date.Some? ==> date.value in t.columns
    ensures Finish(t, date, cfg, toDatetime).columns == FinishedLabels(t.columns, date.Some?)
  {
  }

  /** The stages after the columns have been located. */
  function Transform(t: Table, res: Resolution, cfg: Config,
                     toNumeric: string -> Option<real>, toDatetime: Cell -> Cell): (r: Table)
    requires Shaped(t) && Resolve(t.columns) == Ok(res) && cfg.fuelEfficiency != 0.0
    ensures Shaped(r) && r.height <= t.height
  {
    Finish(Prepare(t, res, toNumeric), DateLabel(t, res), cfg, toDatetime)
  }

  /** The whole of process_csv_data on a table value: the failure of the first missing column, or the new table. */
  function Process(t: Table, cfg: Config,
                   toNumeric: string -> Option<real>, toDatetime: Cell -> Cell): (r: Result<Table, MissingColumn>)
    requires Shaped(t) && cfg.fuelEfficiency != 0.0
    ensures r.Ok? <==> Resolve(t.columns).Ok?
    ensures r.Err? ==> r.error == Resolve(t.columns).error
  {
    match Resolve(t.columns)
    case Err(e) => Err(e)
    case Ok(res) => Ok(Transform(t, res, cfg, toNumeric, toDatetime))
  }

  // ---------------------------------------------------------------------
  // The program as written: object-dtype minute columns
  // ---------------------------------------------------------------------

  /** How process_csv_data as written ends without a table: a missing column, or `round` refusing an object column. */
  datatype Failure = ColumnNotFound(missing: MissingColumn) | ObjectRounding

  /** The column holds at least one missing value. */
  predicate HasMissing(col: seq<Cell>) {
    exists k | 0 <= k < |col| :: col[k].Missing?
  }

  /**
   * A minute column that holds pd.NA comes out of `Series.apply` with object
   * dtype, and `dropna` and the mask keep that dtype; either column being
   * object makes the ratio of line 66 an object Series, on which `round(2)`
   * raises TypeError (pandas 2.2 and later). A file with a header and no
   * rows has object columns, and `apply` on an empty Series keeps that
   * dtype, so it raises too.
   */
  predicate ObjectMinutes(p: Table)
    requires HasInputs(p)
  {
    p.height == 0 || HasMissing(Select(p, DriveMinutesName)) || HasMissing(Select(p, IdleMinutesName))
  }

  /**
   * process_csv_data as written: the failure of the first missing column;
   * ObjectRounding when a time cell of the input does not convert or there
   * are no rows; the table Process gives otherwise.
   */
  function ProcessAsWritten(t: Table, cfg: Config,
                            toNumeric: string -> Option<real>, toDatetime: Cell -> Cell): (r: Result<Table, Failure>)
    requires Shaped(t) && cfg.fuelEfficiency != 0.0
    ensures r.Err? && r.error.ColumnNotFound? <==> Resolve(t.columns).Err?
    ensures r.Err? && r.error.ColumnNotFound? ==> r.error.missing == Resolve(t.columns).error
    ensures r == Err(ObjectRounding) <==>
      Resolve(t.columns).Ok? && ObjectMinutes(Prepare(t, Resolve(t.columns).value, toNumeric))
    ensures r.Ok? ==> Process(t, cfg, toNumeric, toDatetime) == Ok(r.value)
  {
    match Resolve(t.columns)
    case Err(e) => Err(ColumnNotFound(e))
    case Ok(res) =>
      if ObjectMinutes(Prepare(t, res, toNumeric)) then Err(ObjectRounding)
      else Ok(Transform(t, res, cfg, toNumeric, toDatetime))
  }

  // ---------------------------------------------------------------------
  // What each stage after the lookups keeps and adds
  // ---------------------------------------------------------------------

  /** The input columns the row filters and the formulas read exist in `t`. */
  predicate HasInputs(t: Table) {
    Shaped(t) && DriveMinutesName in t.columns && IdleMinutesName in t.columns && DistanceKmName in t.columns
  }

  /** `r` holds the same three input columns as `t`. */
  predicate SameInputs(r: Table, t: Table)
    requires HasInputs(r) && HasInputs(t)
  {
    && Select(r, DriveMinutesName) == Select(t, DriveMinutesName)
    && Select(r, IdleMinutesName) == Select(t, IdleMinutesName)
    && Select(r, DistanceKmName) == Select(t, DistanceKmName)
  }

  lemma DropStage(t: Table)
    requires HasInputs(t)
    ensures var r := DropInvalid(t);
      && HasInputs(r) && r.height == CountTrue(KeepMask(t))
      && Select(r, DriveMinutesName) == FilterMask(Select(t, DriveMinutesName), KeepMask(t))
      && Select(r, IdleMinutesName) == FilterMask(Select(t, IdleMinutesName), KeepMask(t))
      && Select(r, DistanceKmName) == FilterMask(Select(t, DistanceKmName), KeepMask(t))
      && AllPositive(Select(r, DriveMinutesName))
  {
  }

  lemma FuelStage(t: Table, cfg: Config)
    requires HasInputs(t) && cfg.fuelEfficiency != 0.0
    ensures var r := AddFuel(t, cfg);
      && HasInputs(r) && SameInputs(r, t) && r.height == t.height
      && FuelLitersName in r.columns && FuelCostName in r.columns
      && Select(r, FuelLitersName) == FuelColumn(Select(t, DistanceKmName), cfg.fuelEfficiency)
      && Select(r, FuelCostName) == CostColumn(FuelColumn(Select(t, DistanceKmName), cfg.fuelEfficiency), cfg.fuelPrice)
  {
  }

  lemma RatesStage(t: Table)
    requires HasInputs(t) && AllPositive(Select(t, DriveMinutesName))
    requires FuelLitersName in t.columns && FuelCostName in t.columns
    ensures var r := AddRates(t);
      && HasInputs(r) && SameInputs(r, t) && r.height == t.height
      && FuelLitersName in r.columns && FuelCostName in r.columns
      && IdlingRatioName in r.columns && AverageSpeedName in r.columns
      && Select(r, FuelLitersName) == Select(t, FuelLitersName)
      && Select(r, FuelCostName) == Select(t, FuelCostName)
      && Select(r, IdlingRatioName) == RatioColumn(Select(t, IdleMinutesName), Select(t, DriveMinutesName))
      && Select(r, AverageSpeedName) == SpeedColumn(Select(t, DistanceKmName), Select(t, DriveMinutesName))
  {
  }

  /** The labels of the figures computed after the filters. */
  predicate HasFigures(t: Table) {
    && HasInputs(t)
    && FuelLitersName in t.columns && FuelCostName in t.columns
    && IdlingRatioName in t.columns && AverageSpeedName in t.columns
  }

  /** `r` holds the same input columns and figures as `t`. */
  predicate SameFigures(r: Table, t: Table)
    requires HasFigures(r) && HasFigures(t)
  {
    && SameInputs(r, t)
    && Select(r, FuelLitersName) == Select(t, FuelLitersName)
    && Select(r, FuelCostName) == Select(t, FuelCostName)
    && Select(r, IdlingRatioName) == Select(t, IdlingRatioName)
    && Select(r, AverageSpeedName) == Select(t, AverageSpeedName)
  }

  lemma DateStage(t: Table, date: Option<string>, toDatetime: Cell -> Cell)
    requires HasFigures(t) && (date.Some? ==> date.value in t.columns)
    ensures var r := AddDate(t, date, toDatetime);
      HasFigures(r) && SameFigures(r, t) && r.height == t.height
  {
  }

  lemma ColourStage(t: Table, cfg: Config)
    requires HasFigures(t)
    ensures var r := AddColours(t, cfg);
      && HasFigures(r) && SameFigures(r, t) && r.height == t.height
      && FuelColourName in r.columns && IdleColourName in r.columns
      && Select(r, FuelColourName) == FuelColourColumn(Select(t, FuelCostName), cfg.fuelPrice)
      && Select(r, IdleColourName) == IdleColourColumn(Select(t, IdlingRatioName), cfg.idlingThreshold)
  {
  }

  // ---------------------------------------------------------------------
  // The pipeline on the frame object
  // ---------------------------------------------------------------------

  /** Lines 48-49 on the frame. */
  method AddMinuteColumns(df: DataFrame)
    requires df.Valid() && DriveTimeName in df.columns && IdleTimeName in df.columns
    modifies df
    ensures df.Valid() && df.Value() == ConvertTimes(old(df.Value()))
  {
    df.Assign(DriveMinutesName, MinutesColumn(df.Column(DriveTimeName)));
    df.Assign(IdleMinutesName, MinutesColumn(df.Column(IdleTimeName)));
  }

  /** Line 55 on the frame. */
  method AddDistanceColumn(df: DataFrame, source: string, toNumeric: string -> Option<real>)
    requires df.Valid() && source in df.columns
    modifies df
    ensures df.Valid() && df.Value() == ConvertDistance(old(df.Value()), source, toNumeric)
  {
    df.Assign(DistanceKmName, NumericColumn(df.Column(source), toNumeric));
  }

  /** Lines 58-59 on the frame. */
  method DropInvalidRows(df: DataFrame)
    requires df.Valid() && DriveMinutesName in df.columns && DistanceKmName in df.columns
    modifies df
    ensures df.Valid() && df.Value() == DropInvalid(old(df.Value()))
  {
    df.Filter(PresentMask(df.Column(DriveMinutesName), df.Column(DistanceKmName)));
    df.Filter(PositiveMask(df.Column(DriveMinutesName)));
  }

  /** Lines 62-63 on the frame. */
  method AddFuelColumns(df: DataFrame, cfg: Config)
    requires df.Valid() && cfg.fuelEfficiency != 0.0 && DistanceKmName in df.columns
    modifies df
    ensures df.Valid() && df.Value() == AddFuel(old(df.Value()), cfg)
  {
    df.Assign(FuelLitersName, FuelColumn(df.Column(DistanceKmName), cfg.fuelEfficiency));
    df.Assign(FuelCostName, CostColumn(df.Column(FuelLitersName), cfg.fuelPrice));
  }

  /** Lines 66-67 on the frame. */
  method AddRateColumns(df: DataFrame)
    requires df.Valid() && HasInputs(df.Value()) && AllPositive(df.Column(DriveMinutesName))
    modifies df
    ensures df.Valid() && df.Value() == AddRates(old(df.Value()))
  {
    df.Assign(IdlingRatioName, RatioColumn(df.Column(IdleMinutesName), df.Column(DriveMinutesName)));
    df.Assign(AverageSpeedName, SpeedColumn(df.Column(DistanceKmName), df.Column(DriveMinutesName)));
  }

  /** Lines 70-71 on the frame. */
  method AddDateColumn(df: DataFrame, source: Option<string>, toDatetime: Cell -> Cell)
    requires df.Valid() && (source.Some? ==> source.value in df.columns)
    modifies df
    ensures df.Valid() && df.Value() == AddDate(old(df.Value()), source, toDatetime)
  {
    if source.Some? {
      df.Assign(TripDateName, DateColumn(df.Column(source.value), toDatetime));
    }
  }

  /** Lines 74-75 on the frame. */
  method AddColourColumns(df: DataFrame, cfg: Config)
    requires df.Valid() && FuelCostName in df.columns && IdlingRatioName in df.columns
    modifies df
    ensures df.Valid() && df.Value() == AddColours(old(df.Value()), cfg)
  {
    df.Assign(FuelColourName, FuelColourColumn(df.Column(FuelCostName), cfg.fuelPrice));
    df.Assign(IdleColourName, IdleColourColumn(df.Column(IdlingRatioName), cfg.idlingThreshold));
  }

  /** Lines 58-75 on the frame: the row filters, then the figures, the date and the tags. */
  method FinishStages(df: DataFrame, date: Option<string>, cfg: Config, toDatetime: Cell -> Cell)
    requires df.Valid() && HasInputs(df.Value()) && cfg.fuelEfficiency != 0.0
    requires date.Some? ==> date.value in df.columns
    modifies df
    ensures df.Valid() && df.Value() == Finish(old(df.Value()), date, cfg, toDatetime)
  {
    ghost var t5 := df.Value();
    DropInvalidRows(df);
    DropStage(t5);
    ghost var t7 := df.Value();
    AddFuelColumns(df, cfg);
    FuelStage(t7, cfg);
    ghost var t9 := df.Value();
    AddRateColumns(df);
    RatesStage(t9);
    ghost var t11 := df.Value();
    AddDateColumn(df, date, toDatetime);
    DateStage(t11, date, toDatetime);
    AddColourColumns(df, cfg);
  }

  /**
   * Lines 33-55 on the frame: the lookups and renames, the minute columns and
   * the numeric distance column; or the first missing column, reported with
   * the headers `df` has at that moment.
   */
  method PrepareStages(df: DataFrame, toNumeric: string -> Option<real>)
    returns (located: Result<Resolution, MissingColumn>, dateName: Option<string>)
    requires df.Valid()
    modifies df
    ensures df.Valid()
    ensures located.Ok? <==> Resolve(old(df.columns)).Ok?
    ensures located.Err? ==> located.error == Resolve(old(df.columns)).error && located.error.columns == df.columns
    ensures located.Ok? ==>
      && located.value == Resolve(old(df.columns)).value
      && df.Value() == Prepare(old(df.Value()), located.value, toNumeric)
      && dateName == DateLabel(old(df.Value()), located.value)
  {
    ghost var t := df.Value();
    dateName := None;
    var handle := FindColumn(df.columns, [HandleKey]);
    if handle.None? {
      return Err(MissingColumn(DriveTime, df.columns)), None;
    }
    df.Rename(df.columns[handle.value], DriveTimeName);

    var idle := FindColumn(df.columns, [IdleKey]);
    if idle.None? {
      return Err(MissingColumn(IdleTime, df.columns)), None;
    }
    df.Rename(df.columns[idle.value], IdleTimeName);
    ghost var t2 := df.Value();

    var date := FindColumn(df.columns, [DateKey]);
    dateName := if date.Some? then Some(df.columns[date.value]) else None;

    WrittenLabelsHideKeywords();
    assert df.columns[handle.value] == DriveTimeName;
    AddMinuteColumns(df);

    var distance := FindColumn(df.columns, DistanceKeys);
    if distance.None? {
      return Err(MissingColumn(Distance, df.columns)), None;
    }
    var res := Resolution(handle.value, idle.value, date, distance.value);
    assert Resolve(t.columns) == Ok(res);
    assert t2 == RenameBoth(t, res);
    AddDistanceColumn(df, df.columns[distance.value], toNumeric);
    located := Ok(res);
  }

  /**
   * process_csv_data on the frame `df` read from the file: `df` is changed
   * in place stage by stage into Process's table, or the first missing
   * column is reported with the headers `df` has at that moment.
   */
  method ProcessCsvData(df: DataFrame, cfg: Config,
                        toNumeric: string -> Option<real>, toDatetime: Cell -> Cell)
    returns (outcome: Outcome<MissingColumn>)
    requires df.Valid() && cfg.fuelEfficiency != 0.0
    modifies df
    ensures df.Valid()
    ensures Resolve(old(df.columns)).Err? ==> outcome == Fail(Resolve(old(df.columns)).error)
    ensures Resolve(old(df.columns)).Ok? ==>
      outcome == Pass && df.Value() == Transform(old(df.Value()), Resolve(old(df.columns)).value, cfg, toNumeric, toDatetime)
    ensures outcome.Fail? ==> outcome.error.columns == df.columns
  {
    var located, dateName := PrepareStages(df, toNumeric);
    if located.Err? {
      return Fail(located.error);
    }
    FinishStages(df, dateName, cfg, toDatetime);
    outcome := Pass;
  }
}
