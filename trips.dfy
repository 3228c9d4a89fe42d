/**
 * What process_csv_data computes, row by row: the rows it keeps, the
 * figures of each kept trip against a reference computed from the input
 * row alone, and the input columns it carries through unchanged.
 */
module Trips {
  import opened Wrappers
  import opened Frames
  import opened Columns
  import opened Metrics
  import opened Pipeline

  /** The labels the pipeline assigns (lines 48-75). */
  predicate IsAssignedLabel(n: string) {
    n in {DriveMinutesName, IdleMinutesName, DistanceKmName, FuelLitersName, FuelCostName,
          IdlingRatioName, AverageSpeedName, TripDateName, FuelColourName, IdleColourName}
  }

  // ---------------------------------------------------------------------
  // Which input columns the lookups find, in terms of the input headers
  // ---------------------------------------------------------------------

  /** Header `j` contains one of the keywords and is none of the labels in `avoid` (those already renamed). */
  predicate MatchesOutside(cs: seq<string>, keys: seq<string>, avoid: set<string>, j: int) {
    0 <= j < |cs| && cs[j] !in avoid && ContainsAny(cs[j], keys)
  }

  /** Header `i` is the first that MatchesOutside. */
  predicate FirstOutside(cs: seq<string>, keys: seq<string>, avoid: set<string>, i: int) {
    MatchesOutside(cs, keys, avoid, i) && forall j | 0 <= j < i :: !MatchesOutside(cs, keys, avoid, j)
  }

  /** No header MatchesOutside. */
  predicate NoneOutside(cs: seq<string>, keys: seq<string>, avoid: set<string>) {
    forall j | 0 <= j < |cs| :: !MatchesOutside(cs, keys, avoid, j)
  }

  /** After the drive-time rename, a header matches the idle keyword exactly when its input label does and was not renamed. */
  lemma AfterDriveAt(cs: seq<string>, h: nat, j: nat)
    requires IsFirstMatch(cs, [HandleKey], h) && j < |cs|
    ensures ContainsAny(HeadersAfterDrive(cs, h)[j], [IdleKey]) <==> MatchesOutside(cs, [IdleKey], {cs[h]}, j)
  {
    WrittenLabelsHideKeywords();
  }

  /** After both renames, a header matches the date or distance keywords exactly when its input label does and was not renamed. */
  lemma AfterIdleAt(cs: seq<string>, h: nat, i: nat, keys: seq<string>, j: nat)
    requires IsFirstMatch(cs, [HandleKey], h) && IsFirstMatch(HeadersAfterDrive(cs, h), [IdleKey], i) && j < |cs|
    requires !ContainsAny(DriveTimeName, keys) && !ContainsAny(IdleTimeName, keys)
    ensures HeadersAfterDrive(cs, h)[i] == cs[i] && cs[i] != cs[h]
    ensures ContainsAny(HeadersAfterIdle(cs, h, i)[j], keys) <==> MatchesOutside(cs, keys, {cs[h], cs[i]}, j)
  {
    WrittenLabelsHideKeywords();
    var cs1 := HeadersAfterDrive(cs, h);
    assert cs1[i] != DriveTimeName;
  }

  /** The drive-time lookup fails exactly when no input header contains ハンドル. */
  lemma DriveLookup(cs: seq<string>)
    ensures Resolve(cs) == Err(MissingColumn(DriveTime, cs)) <==> NoMatch(cs, [HandleKey])
    ensures Resolve(cs).Ok? ==> IsFirstMatch(cs, [HandleKey], Resolve(cs).value.handle)
  {
    if NoMatch(cs, [HandleKey]) {
      assert FindColumn(cs, [HandleKey]).None?;
    }
  }

  /**
   * With 走行時間 at the first ハンドル header `h`, the idle-time lookup finds
   * the first header containing アイドリング among those not carrying the
   * label of `h`, and fails exactly when there is none.
   */
  lemma IdleLookup(cs: seq<string>, h: nat)
    requires IsFirstMatch(cs, [HandleKey], h)
    ensures Resolve(cs) == Err(MissingColumn(IdleTime, HeadersAfterDrive(cs, h))) <==> NoneOutside(cs, [IdleKey], {cs[h]})
    ensures Resolve(cs).Ok? ==> FirstOutside(cs, [IdleKey], {cs[h]}, Resolve(cs).value.idle)
  {
    var cs1 := HeadersAfterDrive(cs, h);
    FirstMatchUnique(cs, [HandleKey], h);
    forall j | 0 <= j < |cs| ensures ContainsAny(cs1[j], [IdleKey]) <==> MatchesOutside(cs, [IdleKey], {cs[h]}, j) {
      AfterDriveAt(cs, h, j);
    }
    if NoneOutside(cs, [IdleKey], {cs[h]}) {
      assert FindColumn(cs1, [IdleKey]).None?;
    }
  }

  /**
   * With both located at `h` and `i`, the date lookup finds the first
   * header containing 日付 and the distance lookup the first containing
   * 走行距離 or 区間距離, each among the headers carrying neither renamed
   * label, and the distance lookup fails exactly when there is none.
   */
  lemma LaterLookups(cs: seq<string>, h: nat, i: nat)
    requires IsFirstMatch(cs, [HandleKey], h) && FirstOutside(cs, [IdleKey], {cs[h]}, i)
    ensures Resolve(cs).Err? ==>
      Resolve(cs) == Err(MissingColumn(Distance, HeadersBeforeDistance(cs, h, i)))
    ensures Resolve(cs).Err? <==> NoneOutside(cs, DistanceKeys, {cs[h], cs[i]})
    ensures Resolve(cs).Ok? ==>
      var res := Resolve(cs).value;
      && res.handle == h && res.idle == i
      && FirstOutside(cs, DistanceKeys, {cs[h], cs[i]}, res.distance)
      && (res.date.Some? ==> FirstOutside(cs, [DateKey], {cs[h], cs[i]}, res.date.value))
      && (res.date.None? ==> NoneOutside(cs, [DateKey], {cs[h], cs[i]}))
  {
    var cs1, cs2, cs4 := HeadersAfterDrive(cs, h), HeadersAfterIdle(cs, h, i), HeadersBeforeDistance(cs, h, i);
    WrittenLabelsHideKeywords();
    FirstMatchUnique(cs, [HandleKey], h);
    forall j | 0 <= j < |cs| ensures ContainsAny(cs1[j], [IdleKey]) <==> MatchesOutside(cs, [IdleKey], {cs[h]}, j) {
      AfterDriveAt(cs, h, j);
    }
    FirstMatchUnique(cs1, [IdleKey], i);
    forall j | 0 <= j < |cs|
      ensures ContainsAny(cs2[j], [DateKey]) <==> MatchesOutside(cs, [DateKey], {cs[h], cs[i]}, j)
      ensures ContainsAny(cs4[j], DistanceKeys) <==> MatchesOutside(cs, DistanceKeys, {cs[h], cs[i]}, j)
    {
      AfterIdleAt(cs, h, i, [DateKey], j);
      AfterIdleAt(cs, h, i, DistanceKeys, j);
    }
    forall j | |cs| <= j < |cs4| ensures !ContainsAny(cs4[j], DistanceKeys) {
    }
    if NoneOutside(cs, DistanceKeys, {cs[h], cs[i]}) {
      assert FindColumn(cs4, DistanceKeys).None?;
    }
  }

  // ---------------------------------------------------------------------
  // The stages after the lookups, one at a time
  // ---------------------------------------------------------------------

  /** The columns that Finish leaves, in terms of the filtered input columns. */
  lemma FinishColumns(t: Table, date: Option<string>, cfg: Config, toDatetime: Cell -> Cell)
    requires HasInputs(t) && cfg.fuelEfficiency != 0.0
    requires date.Some? ==> date.value in t.columns
    ensures
      var out := Finish(t, date, cfg, toDatetime);
      var m := KeepMask(t);
      var drive := FilterMask(Select(t, DriveMinutesName), m);
      var idle := FilterMask(Select(t, IdleMinutesName), m);
      var distance := FilterMask(Select(t, DistanceKmName), m);
      && out.height == CountTrue(m)
      && AllPositive(drive)
      && HasFigures(out) && FuelColourName in out.columns && IdleColourName in out.columns
      && Select(out, DriveMinutesName) == drive
      && Select(out, IdleMinutesName) == idle
      && Select(out, DistanceKmName) == distance
      && Select(out, FuelLitersName) == FuelColumn(distance, cfg.fuelEfficiency)
      && Select(out, FuelCostName) == CostColumn(FuelColumn(distance, cfg.fuelEfficiency), cfg.fuelPrice)
      && Select(out, IdlingRatioName) == RatioColumn(idle, drive)
      && Select(out, AverageSpeedName) == SpeedColumn(distance, drive)
      && Select(out, FuelColourName) ==
           FuelColourColumn(CostColumn(FuelColumn(distance, cfg.fuelEfficiency), cfg.fuelPrice), cfg.fuelPrice)
      && Select(out, IdleColourName) == IdleColourColumn(RatioColumn(idle, drive), cfg.idlingThreshold)
  {
    var t7 := DropInvalid(t);
    DropStage(t);
    var t9 := AddFuel(t7, cfg);
    FuelStage(t7, cfg);
    var t11 := AddRates(t9);
    RatesStage(t9);
    var t12 := AddDate(t11, date, toDatetime);
    DateStage(t11, date, toDatetime);
    ColourStage(t12, cfg);
  }

  // ---------------------------------------------------------------------
  // The columns the stages before the filters read, back in the input
  // ---------------------------------------------------------------------

  /** None of the labels written before line 71 contains the date keyword. */
  lemma PreparedLabelsHideDateKey()
    ensures !Contains(DriveMinutesName, DateKey) && !Contains(IdleMinutesName, DateKey)
    ensures !Contains(DistanceKmName, DateKey)
    ensures !Contains(FuelLitersName, DateKey) && !Contains(FuelCostName, DateKey)
    ensures !Contains(IdlingRatioName, DateKey) && !Contains(AverageSpeedName, DateKey)
  {
    MissingCharacter(DriveMinutesName, DateKey, '日');
    MissingCharacter(IdleMinutesName, DateKey, '日');
    MissingCharacter(DistanceKmName, DateKey, '日');
    MissingCharacter(FuelLitersName, DateKey, '日');
    MissingCharacter(FuelCostName, DateKey, '日');
    MissingCharacter(IdlingRatioName, DateKey, '日');
    MissingCharacter(AverageSpeedName, DateKey, '日');
  }

  /** The first label of a list that has a property no earlier label has is the first occurrence of that label. */
  lemma FirstOfItsKind(cs: seq<string>, i: nat, keys: seq<string>)
    requires IsFirstMatch(cs, keys, i)
    ensures IndexOf(cs, cs[i]) == i
  {
  }

  /** After both renames, the first column labelled 走行時間 is the located drive-time column. */
  lemma DriveLabelFirst(cs: seq<string>, h: nat, i: nat)
    requires IsFirstMatch(cs, [HandleKey], h) && IsFirstMatch(HeadersAfterDrive(cs, h), [IdleKey], i)
    requires DriveTimeName !in cs
    ensures DriveTimeName in HeadersAfterIdle(cs, h, i)
    ensures IndexOf(HeadersAfterIdle(cs, h, i), DriveTimeName) == h
  {
    var cs1, cs2 := HeadersAfterDrive(cs, h), HeadersAfterIdle(cs, h, i);
    WrittenLabelsHideKeywords();
    assert cs2[h] == DriveTimeName;
    forall j | 0 <= j < h ensures cs2[j] != DriveTimeName {
      assert cs[j] != cs[h];
    }
  }

  /** After both renames, the first column labelled アイドリング時間 is the located idle-time column. */
  lemma IdleLabelFirst(cs: seq<string>, h: nat, i: nat)
    requires IsFirstMatch(cs, [HandleKey], h) && IsFirstMatch(HeadersAfterDrive(cs, h), [IdleKey], i)
    ensures IdleTimeName in HeadersAfterIdle(cs, h, i)
    ensures IndexOf(HeadersAfterIdle(cs, h, i), IdleTimeName) == i
  {
    var cs1, cs2 := HeadersAfterDrive(cs, h), HeadersAfterIdle(cs, h, i);
    assert OccursAt(IdleTimeName, IdleKey, 0);
    assert ContainsAny(IdleTimeName, [IdleKey]) by {
      assert Contains(IdleTimeName, [IdleKey][0]);
    }
    assert cs2[i] == IdleTimeName;
    forall j | 0 <= j < i ensures cs2[j] != IdleTimeName {
      assert cs1[j] != cs1[i];
    }
  }

  /** The located distance label sits among the input labels and is the first of its name there. */
  lemma DistanceLabelFirst(cs: seq<string>, h: nat, i: nat, d: nat)
    requires h < |cs| && i < |cs| && d < |cs|
    requires IsFirstMatch(HeadersBeforeDistance(cs, h, i), DistanceKeys, d)
    ensures HeadersBeforeDistance(cs, h, i)[d] == HeadersAfterIdle(cs, h, i)[d]
    ensures HeadersAfterIdle(cs, h, i)[d] != DriveMinutesName && HeadersAfterIdle(cs, h, i)[d] != IdleMinutesName
    ensures IndexOf(HeadersAfterIdle(cs, h, i), HeadersAfterIdle(cs, h, i)[d]) == d
  {
    var cs2, cs4 := HeadersAfterIdle(cs, h, i), HeadersBeforeDistance(cs, h, i);
    WrittenLabelsHideKeywords();
    forall j | 0 <= j < d ensures cs2[j] != cs2[d] {
      assert cs4[j] == cs2[j];
    }
  }

  /** After both renames the drive-time, idle-time and date labels select the located input columns. */
  lemma RenamedColumns(t: Table, res: Resolution)
    requires Shaped(t) && Resolve(t.columns) == Ok(res) && DriveTimeName !in t.columns
    ensures var t2 := RenameBoth(t, res);
      && Select(t2, DriveTimeName) == t.data[res.handle]
      && Select(t2, IdleTimeName) == t.data[res.idle]
      && (res.date.Some? ==> Select(t2, t2.columns[res.date.value]) == t.data[res.date.value])
      && Select(t2, t2.columns[res.distance]) == t.data[res.distance]
  {
    DriveLabelFirst(t.columns, res.handle, res.idle);
    IdleLabelFirst(t.columns, res.handle, res.idle);
    if res.date.Some? {
      FirstOfItsKind(HeadersAfterIdle(t.columns, res.handle, res.idle), res.date.value, [DateKey]);
    }
    DistanceLabelFirst(t.columns, res.handle, res.idle, res.distance);
  }

  /** Lines 48-49 read the renamed time columns and leave the other columns alone. */
  lemma TimesStage(t2: Table, other: string)
    requires Shaped(t2) && DriveTimeName in t2.columns && IdleTimeName in t2.columns
    requires other in t2.columns && other != DriveMinutesName && other != IdleMinutesName
    ensures var t4 := ConvertTimes(t2);
      && Shaped(t4) && t4.height == t2.height
      && DriveMinutesName in t4.columns && IdleMinutesName in t4.columns && other in t4.columns
      && Select(t4, DriveMinutesName) == MinutesColumn(Select(t2, DriveTimeName))
      && Select(t4, IdleMinutesName) == MinutesColumn(Select(t2, IdleTimeName))
      && Select(t4, other) == Select(t2, other)
  {
  }

  /** Line 55 reads the distance column and leaves the other columns alone. */
  lemma DistanceStage(t4: Table, source: string, other: string, toNumeric: string -> Option<real>)
    requires Shaped(t4) && DriveMinutesName in t4.columns && IdleMinutesName in t4.columns
    requires source in t4.columns && other in t4.columns && other != DistanceKmName
    ensures var p := ConvertDistance(t4, source, toNumeric);
      && HasInputs(p) && p.height == t4.height && other in p.columns
      && Select(p, DriveMinutesName) == Select(t4, DriveMinutesName)
      && Select(p, IdleMinutesName) == Select(t4, IdleMinutesName)
      && Select(p, DistanceKmName) == NumericColumn(Select(t4, source), toNumeric)
      && Select(p, other) == Select(t4, other)
  {
  }

  /** The three columns the filters and formulas read, traced back to the located input columns. */
  lemma PreparedColumns(t: Table, res: Resolution, toNumeric: string -> Option<real>)
    requires Shaped(t) && Resolve(t.columns) == Ok(res) && DriveTimeName !in t.columns
    ensures var p := Prepare(t, res, toNumeric);
      && HasInputs(p) && p.height == t.height
      && Select(p, DriveMinutesName) == MinutesColumn(t.data[res.handle])
      && Select(p, IdleMinutesName) == MinutesColumn(t.data[res.idle])
      && Select(p, DistanceKmName) == NumericColumn(t.data[res.distance], toNumeric)
      && (res.date.Some? ==> Select(p, DateLabel(t, res).value) == t.data[res.date.value])
  {
    var t2 := RenameBoth(t, res);
    RenamedColumns(t, res);
    DistanceLabelFirst(t.columns, res.handle, res.idle, res.distance);
    var source := t2.columns[res.distance];
    var t4 := ConvertTimes(t2);
    assert t4.columns[res.distance] == source;
    TimesStage(t2, source);
    DistanceStage(t4, source, DriveMinutesName, toNumeric);
    if res.date.Some? {
      var date := DateLabel(t, res).value;
      PreparedLabelsHideDateKey();
      TimesStage(t2, date);
      DistanceStage(t4, source, date, toNumeric);
    }
  }

  // ---------------------------------------------------------------------
  // One trip: the reference computed from one input row
  // ---------------------------------------------------------------------

  /**
   * The two renamed labels each end up on one column only: no other input
   * header repeats the located drive-time or idle-time header, and none is
   * already アイドリング時間. Otherwise `df['走行時間']` or `df['アイドリング時間']`
   * would be a frame of several columns.
   */
  predicate RenamesUnique(cs: seq<string>, res: Resolution)
    requires res.handle < |cs| && res.idle < |cs|
  {
    forall j | 0 <= j < |cs| ::
      && (j != res.handle ==> cs[j] != cs[res.handle])
      && (j != res.idle ==> cs[j] != cs[res.idle] && cs[j] != IdleTimeName)
  }

  /** The positions `res` names lie inside the table. */
  predicate Located(t: Table, res: Resolution) {
    && Shaped(t)
    && res.handle < |t.columns| && res.idle < |t.columns| && res.distance < |t.columns|
    && (res.date.Some? ==> res.date.value < |t.columns|)
  }

  lemma ResolveLocates(t: Table)
    requires Shaped(t) && Resolve(t.columns).Ok?
    ensures Located(t, Resolve(t.columns).value)
  {
  }

  /** Drive minutes of input row `r`: its ハンドル cell through convert_time_to_minutes. */
  function DriveMinutesAt(t: Table, res: Resolution, r: nat): Option<real>
    requires Located(t, res) && r < t.height
  {
    CellMinutes(t.data[res.handle][r])
  }

  /** Idle minutes of input row `r`: its アイドリング cell through convert_time_to_minutes. */
  function IdleMinutesAt(t: Table, res: Resolution, r: nat): Option<real>
    requires Located(t, res) && r < t.height
  {
    CellMinutes(t.data[res.idle][r])
  }

  /** Distance of input row `r`: its distance cell through to_numeric. */
  function DistanceAt(t: Table, res: Resolution, toNumeric: string -> Option<real>, r: nat): Option<real>
    requires Located(t, res) && r < t.height
  {
    CellNumber(t.data[res.distance][r], toNumeric)
  }

  /** A row with these drive-time and distance cells is kept: positive minutes and a numeric distance. */
  predicate KeptCells(drive: Cell, distance: Cell, toNumeric: string -> Option<real>) {
    && CellMinutes(drive).Some? && CellMinutes(drive).value > 0.0
    && CellNumber(distance, toNumeric).Some?
  }

  /** Row `r` is kept: its drive time converts to a positive number of minutes and its distance to a number. */
  predicate Kept(t: Table, res: Resolution, toNumeric: string -> Option<real>, r: nat)
    requires Located(t, res) && r < t.height
  {
    KeptCells(t.data[res.handle][r], t.data[res.distance][r], toNumeric)
  }

  /** The rows kept by their drive-time and distance cells, as a mask. */
  function KeptMask(drive: seq<Cell>, distance: seq<Cell>, toNumeric: string -> Option<real>): (m: seq<bool>)
    requires |drive| == |distance|
    ensures |m| == |drive| && forall r | 0 <= r < |drive| :: m[r] == KeptCells(drive[r], distance[r], toNumeric)
  {
    seq(|drive|, r requires 0 <= r < |drive| => KeptCells(drive[r], distance[r], toNumeric))
  }

  /** The kept rows as a mask over the input. */
  function KeptRows(t: Table, res: Resolution, toNumeric: string -> Option<real>): (m: seq<bool>)
    requires Located(t, res)
    ensures |m| == t.height && forall r | 0 <= r < t.height :: m[r] == Kept(t, res, toNumeric, r)
  {
    KeptMask(t.data[res.handle], t.data[res.distance], toNumeric)
  }

  /** The table has every label an output row is read through. */
  predicate HasRowLabels(out: Table) {
    && HasFigures(out) && FuelColourName in out.columns && IdleColourName in out.columns
  }

  /**
   * Output row `k`: drive minutes, idle minutes, distance, fuel litres,
   * fuel cost, idling ratio, average speed, fuel tag and idling tag.
   */
  function RowOf(out: Table, k: nat): seq<Cell>
    requires HasRowLabels(out) && k < out.height
  {
    [Select(out, DriveMinutesName)[k], Select(out, IdleMinutesName)[k], Select(out, DistanceKmName)[k],
     Select(out, FuelLitersName)[k], Select(out, FuelCostName)[k], Select(out, IdlingRatioName)[k],
     Select(out, AverageSpeedName)[k], Select(out, FuelColourName)[k], Select(out, IdleColourName)[k]]
  }

  /**
   * The figures of one trip from its drive minutes, idle minutes and
   * distance, each formula of lines 62-75 applied directly, as the filters
   * of lines 58-59 evidently intend: a missing idle time leaves the ratio
   * missing and its tag blue, since NaN > threshold is false. The program
   * as written raises instead (ProcessAsWritten).
   */
  function TripRow(drive: real, idle: Option<real>, distance: real, cfg: Config): seq<Cell>
    requires drive > 0.0 && cfg.fuelEfficiency != 0.0
  {
    var fuel := FuelLiters(distance, cfg.fuelEfficiency);
    var cost := FuelCost(fuel, cfg.fuelPrice);
    var ratio := if idle.Some? then Some(IdlingRatio(idle.value, drive)) else None;
    [Num(drive), CellOf(idle), Num(distance), Num(fuel), Num(cost), CellOf(ratio),
     Num(AverageSpeed(distance, drive)), Text(FuelColour(Some(cost), cfg.fuelPrice)),
     Text(IdleColour(ratio, cfg.idlingThreshold))]
  }

  /** The reference figures of kept input row `r`. */
  function ExpectedRow(t: Table, res: Resolution, cfg: Config, toNumeric: string -> Option<real>, r: nat): seq<Cell>
    requires Located(t, res) && r < t.height && Kept(t, res, toNumeric, r) && cfg.fuelEfficiency != 0.0
  {
    TripRow(DriveMinutesAt(t, res, r).value, IdleMinutesAt(t, res, r), DistanceAt(t, res, toNumeric, r).value, cfg)
  }

  // ---------------------------------------------------------------------
  // The output rows against the reference
  // ---------------------------------------------------------------------

  /** The filters of lines 58-59 on converted columns keep the rows KeptMask describes. */
  lemma ConvertedMask(p: Table, drive: seq<Cell>, distance: seq<Cell>, toNumeric: string -> Option<real>)
    requires HasInputs(p) && |drive| == |distance| == p.height
    requires Select(p, DriveMinutesName) == MinutesColumn(drive)
    requires Select(p, DistanceKmName) == NumericColumn(distance, toNumeric)
    ensures KeepMask(p) == KeptMask(drive, distance, toNumeric)
  {
  }

  /** The two filters of lines 58-59 keep exactly the rows Kept describes. */
  lemma KeepMaskIsKept(t: Table, res: Resolution, toNumeric: string -> Option<real>)
    requires Shaped(t) && Resolve(t.columns) == Ok(res) && DriveTimeName !in t.columns
    ensures Located(t, res)
    ensures KeepMask(Prepare(t, res, toNumeric)) == KeptRows(t, res, toNumeric)
  {
    ResolveLocates(t);
    PreparedColumns(t, res, toNumeric);
    ConvertedMask(Prepare(t, res, toNumeric), t.data[res.handle], t.data[res.distance], toNumeric);
  }

  /** Output row `k` of columns built by the formulas is the trip its three input cells give. */
  lemma ColumnsRow(out: Table, drive: seq<Cell>, idle: seq<Cell>, distance: seq<Cell>, cfg: Config, k: nat)
    requires HasRowLabels(out) && k < out.height && cfg.fuelEfficiency != 0.0
    requires |drive| == |idle| == |distance| == out.height && AllPositive(drive) && distance[k].Num? && !idle[k].Text?
    requires Select(out, DriveMinutesName) == drive
    requires Select(out, IdleMinutesName) == idle
    requires Select(out, DistanceKmName) == distance
    requires Select(out, FuelLitersName) == FuelColumn(distance, cfg.fuelEfficiency)
    requires Select(out, FuelCostName) == CostColumn(FuelColumn(distance, cfg.fuelEfficiency), cfg.fuelPrice)
    requires Select(out, IdlingRatioName) == RatioColumn(idle, drive)
    requires Select(out, AverageSpeedName) == SpeedColumn(distance, drive)
    requires Select(out, FuelColourName) ==
      FuelColourColumn(CostColumn(FuelColumn(distance, cfg.fuelEfficiency), cfg.fuelPrice), cfg.fuelPrice)
    requires Select(out, IdleColourName) == IdleColourColumn(RatioColumn(idle, drive), cfg.idlingThreshold)
    ensures IsPositive(drive[k])
    ensures RowOf(out, k) == TripRow(drive[k].x, NumberOf(idle[k]), distance[k].x, cfg)
  {
    assert IsPositive(drive[k]);
    var fuel := FuelColumn(distance, cfg.fuelEfficiency);
    var cost := CostColumn(fuel, cfg.fuelPrice);
    var ratio := RatioColumn(idle, drive);
    assert fuel[k] == Num(FuelLiters(distance[k].x, cfg.fuelEfficiency));
    assert cost[k] == Num(FuelCost(FuelLiters(distance[k].x, cfg.fuelEfficiency), cfg.fuelPrice));
  }

  /** After Finish, output row `k` is the trip of the `k`-th kept row of its input table. */
  lemma FinishedRows(p: Table, date: Option<string>, cfg: Config, toDatetime: Cell -> Cell)
    requires HasInputs(p) && cfg.fuelEfficiency != 0.0
    requires date.Some? ==> date.value in p.columns
    requires NumbersOnly(Select(p, IdleMinutesName)) && NumbersOnly(Select(p, DistanceKmName))
    ensures
      var out := Finish(p, date, cfg, toDatetime);
      var rows := KeptIndices(KeepMask(p));
      && HasRowLabels(out) && out.height == |rows|
      && forall k | 0 <= k < |rows| ::
           && rows[k] < p.height && IsPositive(Select(p, DriveMinutesName)[rows[k]])
           && Select(p, DistanceKmName)[rows[k]].Num?
           && RowOf(out, k) == TripRow(Select(p, DriveMinutesName)[rows[k]].x, NumberOf(Select(p, IdleMinutesName)[rows[k]]),
                                       Select(p, DistanceKmName)[rows[k]].x, cfg)
  {
    FinishColumns(p, date, cfg, toDatetime);
    var out := Finish(p, date, cfg, toDatetime);
    var m := KeepMask(p);
    var rows := KeptIndices(m);
    var drive := FilterMask(Select(p, DriveMinutesName), m);
    var idle := FilterMask(Select(p, IdleMinutesName), m);
    var distance := FilterMask(Select(p, DistanceKmName), m);
    forall k | 0 <= k < |rows|
      ensures && rows[k] < p.height && IsPositive(Select(p, DriveMinutesName)[rows[k]])
              && Select(p, DistanceKmName)[rows[k]].Num?
              && RowOf(out, k) == TripRow(Select(p, DriveMinutesName)[rows[k]].x, NumberOf(Select(p, IdleMinutesName)[rows[k]]),
                                          Select(p, DistanceKmName)[rows[k]].x, cfg)
    {
      FilterMaskAt(Select(p, DriveMinutesName), m, k);
      FilterMaskAt(Select(p, IdleMinutesName), m, k);
      FilterMaskAt(Select(p, DistanceKmName), m, k);
      ColumnsRow(out, drive, idle, distance, cfg, k);
    }
  }

  /** The facts about the two halves of the pipeline put together, on plain values. */
  lemma AssembledTrips(t: Table, res: Resolution, cfg: Config, toNumeric: string -> Option<real>, p: Table, out: Table)
    requires Located(t, res) && HasInputs(p) && p.height == t.height && cfg.fuelEfficiency != 0.0
    requires Select(p, DriveMinutesName) == MinutesColumn(t.data[res.handle])
    requires Select(p, IdleMinutesName) == MinutesColumn(t.data[res.idle])
    requires Select(p, DistanceKmName) == NumericColumn(t.data[res.distance], toNumeric)
    requires KeepMask(p) == KeptRows(t, res, toNumeric)
    requires
      var rows := KeptIndices(KeepMask(p));
      && HasRowLabels(out) && out.height == |rows|
      && forall k | 0 <= k < |rows| ::
           && rows[k] < p.height && IsPositive(Select(p, DriveMinutesName)[rows[k]])
           && Select(p, DistanceKmName)[rows[k]].Num?
           && RowOf(out, k) == TripRow(Select(p, DriveMinutesName)[rows[k]].x, NumberOf(Select(p, IdleMinutesName)[rows[k]]),
                                       Select(p, DistanceKmName)[rows[k]].x, cfg)
    ensures
      var rows := KeptIndices(KeptRows(t, res, toNumeric));
      && HasRowLabels(out) && out.height == |rows|
      && (forall k | 0 <= k < |rows| :: rows[k] < t.height && Kept(t, res, toNumeric, rows[k]))
      && (forall r | 0 <= r < t.height && Kept(t, res, toNumeric, r) :: r in rows)
      && (forall k, l | 0 <= k < l < |rows| :: rows[k] < rows[l])
      && (forall k | 0 <= k < |rows| :: RowOf(out, k) == ExpectedRow(t, res, cfg, toNumeric, rows[k]))
  {
    var rows := KeptIndices(KeptRows(t, res, toNumeric));
    forall k | 0 <= k < |rows| ensures RowOf(out, k) == ExpectedRow(t, res, cfg, toNumeric, rows[k]) {
      AssembledRow(t, res, cfg, toNumeric, p, rows[k]);
    }
  }

  /** The reference row of kept row `r`, read from the prepared minute and distance columns. */
  lemma AssembledRow(t: Table, res: Resolution, cfg: Config, toNumeric: string -> Option<real>, p: Table, r: nat)
    requires Located(t, res) && HasInputs(p) && p.height == t.height && cfg.fuelEfficiency != 0.0
    requires Select(p, DriveMinutesName) == MinutesColumn(t.data[res.handle])
    requires Select(p, IdleMinutesName) == MinutesColumn(t.data[res.idle])
    requires Select(p, DistanceKmName) == NumericColumn(t.data[res.distance], toNumeric)
    requires r < t.height && Kept(t, res, toNumeric, r)
    requires IsPositive(Select(p, DriveMinutesName)[r]) && Select(p, DistanceKmName)[r].Num?
    ensures TripRow(Select(p, DriveMinutesName)[r].x, NumberOf(Select(p, IdleMinutesName)[r]),
                    Select(p, DistanceKmName)[r].x, cfg) == ExpectedRow(t, res, cfg, toNumeric, r)
  {
    assert Select(p, DriveMinutesName)[r] == CellOf(DriveMinutesAt(t, res, r));
    assert Select(p, DistanceKmName)[r] == CellOf(DistanceAt(t, res, toNumeric, r));
    assert Select(p, IdleMinutesName)[r] == CellOf(IdleMinutesAt(t, res, r));
  }

  /**
   * process_csv_data keeps exactly the input rows whose drive time is a
   * positive number of minutes and whose distance is a number, in their
   * order, and each output row holds the figures the formulas give for its
   * input row. The hypotheses exclude input headers that would make a
   * renamed label repeat: one already labelled 走行時間, and those
   * RenamesUnique rules out.
   */
  lemma ProcessedTrips(t: Table, cfg: Config, toNumeric: string -> Option<real>, toDatetime: Cell -> Cell)
    requires Shaped(t) && cfg.fuelEfficiency != 0.0 && DriveTimeName !in t.columns
    requires Process(t, cfg, toNumeric, toDatetime).Ok?
    requires RenamesUnique(t.columns, Resolve(t.columns).value)
    ensures Located(t, Resolve(t.columns).value)
    ensures
      var res := Resolve(t.columns).value;
      var out := Process(t, cfg, toNumeric, toDatetime).value;
      var rows := KeptIndices(KeptRows(t, res, toNumeric));
      && HasRowLabels(out) && out.height == |rows|
      && (forall k | 0 <= k < |rows| :: rows[k] < t.height && Kept(t, res, toNumeric, rows[k]))
      && (forall r | 0 <= r < t.height && Kept(t, res, toNumeric, r) :: r in rows)
      && (forall k, l | 0 <= k < l < |rows| :: rows[k] < rows[l])
      && (forall k | 0 <= k < |rows| :: RowOf(out, k) == ExpectedRow(t, res, cfg, toNumeric, rows[k]))
  {
    var res := Resolve(t.columns).value;
    KeepMaskIsKept(t, res, toNumeric);
    var p := Prepare(t, res, toNumeric);
    PreparedColumns(t, res, toNumeric);
    var date := DateLabel(t, res);
    FinishedRows(p, date, cfg, toDatetime);
    AssembledTrips(t, res, cfg, toNumeric, p, Finish(p, date, cfg, toDatetime));
  }

  // ---------------------------------------------------------------------
  // The program as written against the intended result
  // ---------------------------------------------------------------------

  /** The table has no rows, or some row's drive time or idle time does not convert to minutes. */
  predicate Unconverted(t: Table, res: Resolution)
    requires Located(t, res)
  {
    || t.height == 0
    || exists r | 0 <= r < t.height :: DriveMinutesAt(t, res, r).None? || IdleMinutesAt(t, res, r).None?
  }

  /**
   * In the input's terms, the program as written fails at line 66 exactly
   * when the input has no rows or some row's drive time or idle time does
   * not convert to minutes, kept row or not.
   */
  lemma AsWrittenFails(t: Table, cfg: Config, toNumeric: string -> Option<real>, toDatetime: Cell -> Cell)
    requires Shaped(t) && cfg.fuelEfficiency != 0.0 && DriveTimeName !in t.columns
    requires Resolve(t.columns).Ok?
    ensures Located(t, Resolve(t.columns).value)
    ensures ProcessAsWritten(t, cfg, toNumeric, toDatetime) == Err(ObjectRounding) <==>
      Unconverted(t, Resolve(t.columns).value)
  {
    var res := Resolve(t.columns).value;
    PreparedColumns(t, res, toNumeric);
    ObjectMinutesOf(Prepare(t, res, toNumeric), t.data[res.handle], t.data[res.idle]);
    UnconvertedCells(t, res);
  }

  /** Unconverted, stated on the two time columns of the input. */
  lemma UnconvertedCells(t: Table, res: Resolution)
    requires Located(t, res)
    ensures Unconverted(t, res) <==>
      t.height == 0 ||
      (exists r | 0 <= r < |t.data[res.handle]| :: CellMinutes(t.data[res.handle][r]).None?) ||
      (exists r | 0 <= r < |t.data[res.idle]| :: CellMinutes(t.data[res.idle][r]).None?)
  {
    assert forall r | 0 <= r < t.height :: DriveMinutesAt(t, res, r) == CellMinutes(t.data[res.handle][r]);
    assert forall r | 0 <= r < t.height :: IdleMinutesAt(t, res, r) == CellMinutes(t.data[res.idle][r]);
  }

  /** ObjectMinutes of a table whose minute columns were converted from `drive` and `idle`. */
  lemma ObjectMinutesOf(p: Table, drive: seq<Cell>, idle: seq<Cell>)
    requires HasInputs(p)
    requires Select(p, DriveMinutesName) == MinutesColumn(drive) && Select(p, IdleMinutesName) == MinutesColumn(idle)
    ensures ObjectMinutes(p) <==>
      |drive| == 0 ||
      (exists r | 0 <= r < |drive| :: CellMinutes(drive[r]).None?) || (exists r | 0 <= r < |idle| :: CellMinutes(idle[r]).None?)
  {
    MinutesMissing(drive);
    MinutesMissing(idle);
  }

  /** A converted column holds a missing value exactly where a cell does not convert. */
  lemma MinutesMissing(col: seq<Cell>)
    ensures HasMissing(MinutesColumn(col)) <==> exists r | 0 <= r < |col| :: CellMinutes(col[r]).None?
  {
    var m := MinutesColumn(col);
    assert forall r | 0 <= r < |col| :: m[r].Missing? <==> CellMinutes(col[r]).None?;
  }

  /**
   * The discrepancy: a kept row whose idle time does not convert (an empty
   * cell, say) is an output row of the intended pipeline, with a missing
   * ratio, while the program as written raises and shows no table.
   */
  lemma ObjectColumnDiscrepancy(t: Table, cfg: Config, toNumeric: string -> Option<real>, toDatetime: Cell -> Cell, r: nat)
    requires Shaped(t) && cfg.fuelEfficiency != 0.0 && DriveTimeName !in t.columns
    requires Resolve(t.columns).Ok? && RenamesUnique(t.columns, Resolve(t.columns).value)
    requires Located(t, Resolve(t.columns).value) && r < t.height
    requires Kept(t, Resolve(t.columns).value, toNumeric, r) && IdleMinutesAt(t, Resolve(t.columns).value, r).None?
    ensures ProcessAsWritten(t, cfg, toNumeric, toDatetime) == Err(ObjectRounding)
    ensures Process(t, cfg, toNumeric, toDatetime).Ok?
    ensures
      var out := Process(t, cfg, toNumeric, toDatetime).value;
      exists k | 0 <= k < out.height :: HasRowLabels(out) && Select(out, IdlingRatioName)[k].Missing?
  {
    var res := Resolve(t.columns).value;
    AsWrittenFails(t, cfg, toNumeric, toDatetime);
    assert DriveMinutesAt(t, res, r).None? || IdleMinutesAt(t, res, r).None?;
    var out := Process(t, cfg, toNumeric, toDatetime).value;
    var k := KeptRowOutput(t, cfg, toNumeric, toDatetime, r);
    RatioOfRow(out, k);
    UnconvertedIdleRatio(t, res, cfg, toNumeric, r);
  }

  /** The sixth cell of an output row is its idling ratio. */
  lemma RatioOfRow(out: Table, k: nat)
    requires HasRowLabels(out) && k < out.height
    ensures RowOf(out, k)[5] == Select(out, IdlingRatioName)[k]
  {
  }

  /** A kept row whose idle time does not convert has a missing reference ratio. */
  lemma UnconvertedIdleRatio(t: Table, res: Resolution, cfg: Config, toNumeric: string -> Option<real>, r: nat)
    requires Located(t, res) && r < t.height && Kept(t, res, toNumeric, r) && cfg.fuelEfficiency != 0.0
    requires IdleMinutesAt(t, res, r).None?
    ensures ExpectedRow(t, res, cfg, toNumeric, r)[5].Missing?
  {
  }

  /** Every kept input row is some output row of Process, with its reference figures. */
  lemma KeptRowOutput(t: Table, cfg: Config, toNumeric: string -> Option<real>, toDatetime: Cell -> Cell, r: nat)
      returns (k: nat)
    requires Shaped(t) && cfg.fuelEfficiency != 0.0 && DriveTimeName !in t.columns
    requires Resolve(t.columns).Ok? && RenamesUnique(t.columns, Resolve(t.columns).value)
    requires Located(t, Resolve(t.columns).value) && r < t.height
    requires Kept(t, Resolve(t.columns).value, toNumeric, r)
    ensures Process(t, cfg, toNumeric, toDatetime).Ok?
    ensures
      var out := Process(t, cfg, toNumeric, toDatetime).value;
      && HasRowLabels(out) && k < out.height
      && RowOf(out, k) == ExpectedRow(t, Resolve(t.columns).value, cfg, toNumeric, r)
  {
    ProcessedTrips(t, cfg, toNumeric, toDatetime);
    var rows := KeptIndices(KeptRows(t, Resolve(t.columns).value, toNumeric));
    k :| 0 <= k < |rows| && rows[k] == r;
  }

  // ---------------------------------------------------------------------
  // The input columns and the date, carried to the output
  // ---------------------------------------------------------------------

  /** Column `j` of `t` is at position `j` of `r` with the same label and the same cells. */
  predicate Carried(r: Table, t: Table, j: nat) {
    j < |t.columns| && j < |r.columns| && j < |t.data| && j < |r.data| &&
    r.columns[j] == t.columns[j] && r.data[j] == t.data[j]
  }

  lemma CarryAssign(t: Table, name: string, vals: seq<Cell>, j: nat)
    requires Shaped(t) && |vals| == t.height && j < |t.columns| && t.columns[j] != name
    ensures Carried(WithColumn(t, name, vals), t, j)
  {
  }

  lemma CarryPrepared(t2: Table, source: string, toNumeric: string -> Option<real>, j: nat)
    requires Shaped(t2) && DriveTimeName in t2.columns && IdleTimeName in t2.columns && source in t2.columns
    requires j < |t2.columns| && !IsAssignedLabel(t2.columns[j])
    ensures Carried(ConvertDistance(ConvertTimes(t2), source, toNumeric), t2, j)
  {
    var t3 := WithColumn(t2, DriveMinutesName, MinutesColumn(Select(t2, DriveTimeName)));
    CarryAssign(t2, DriveMinutesName, MinutesColumn(Select(t2, DriveTimeName)), j);
    CarryAssign(t3, IdleMinutesName, MinutesColumn(Select(t3, IdleTimeName)), j);
    var t4 := ConvertTimes(t2);
    CarryAssign(t4, DistanceKmName, NumericColumn(Select(t4, source), toNumeric), j);
  }

  lemma CarryFuel(t: Table, cfg: Config, j: nat)
    requires HasInputs(t) && cfg.fuelEfficiency != 0.0 && j < |t.columns| && !IsAssignedLabel(t.columns[j])
    ensures Carried(AddFuel(t, cfg), t, j)
  {
    var t8 := WithColumn(t, FuelLitersName, FuelColumn(Select(t, DistanceKmName), cfg.fuelEfficiency));
    CarryAssign(t, FuelLitersName, FuelColumn(Select(t, DistanceKmName), cfg.fuelEfficiency), j);
    CarryAssign(t8, FuelCostName, CostColumn(Select(t8, FuelLitersName), cfg.fuelPrice), j);
  }

  lemma CarryRates(t: Table, j: nat)
    requires HasInputs(t) && AllPositive(Select(t, DriveMinutesName))
    requires j < |t.columns| && !IsAssignedLabel(t.columns[j])
    ensures Carried(AddRates(t), t, j)
  {
    var t10 := WithColumn(t, IdlingRatioName, RatioColumn(Select(t, IdleMinutesName), Select(t, DriveMinutesName)));
    CarryAssign(t, IdlingRatioName, RatioColumn(Select(t, IdleMinutesName), Select(t, DriveMinutesName)), j);
    CarryAssign(t10, AverageSpeedName, SpeedColumn(Select(t10, DistanceKmName), Select(t10, DriveMinutesName)), j);
  }

  lemma CarryColours(t: Table, cfg: Config, j: nat)
    requires Shaped(t) && FuelCostName in t.columns && IdlingRatioName in t.columns
    requires j < |t.columns| && !IsAssignedLabel(t.columns[j])
    ensures Carried(AddColours(t, cfg), t, j)
  {
    var t13 := WithColumn(t, FuelColourName, FuelColourColumn(Select(t, FuelCostName), cfg.fuelPrice));
    CarryAssign(t, FuelColourName, FuelColourColumn(Select(t, FuelCostName), cfg.fuelPrice), j);
    CarryAssign(t13, IdleColourName, IdleColourColumn(Select(t13, IdlingRatioName), cfg.idlingThreshold), j);
  }

  /** Lines 58-75 keep every column whose label they do not assign, filtered to the kept rows. */
  lemma CarryFinish(p: Table, date: Option<string>, cfg: Config, toDatetime: Cell -> Cell, j: nat)
    requires HasInputs(p) && cfg.fuelEfficiency != 0.0 && (date.Some? ==> date.value in p.columns)
    requires j < |p.columns| && !IsAssignedLabel(p.columns[j])
    ensures var out := Finish(p, date, cfg, toDatetime);
      && j < |out.columns| && j < |out.data| && out.columns[j] == p.columns[j]
      && out.data[j] == FilterMask(p.data[j], KeepMask(p))
  {
    var t7 := DropInvalid(p);
    DropStage(p);
    var t9 := AddFuel(t7, cfg);
    CarryFuel(t7, cfg, j);
    FuelStage(t7, cfg);
    var t11 := AddRates(t9);
    CarryRates(t9, j);
    RatesStage(t9);
    var t12 := AddDate(t11, date, toDatetime);
    DateStage(t11, date, toDatetime);
    if date.Some? {
      CarryAssign(t11, TripDateName, DateColumn(Select(t11, date.value), toDatetime), j);
    }
    CarryColours(t12, cfg, j);
  }

  /** A column the fuel, rate and tag stages do not assign keeps its cells through each of them. */
  lemma OtherThroughFuel(t: Table, cfg: Config, n: string)
    requires HasInputs(t) && cfg.fuelEfficiency != 0.0
    requires n in t.columns && n != FuelLitersName && n != FuelCostName
    ensures n in AddFuel(t, cfg).columns && Select(AddFuel(t, cfg), n) == Select(t, n)
  {
  }

  lemma OtherThroughRates(t: Table, n: string)
    requires HasInputs(t) && AllPositive(Select(t, DriveMinutesName))
    requires n in t.columns && n != IdlingRatioName && n != AverageSpeedName
    ensures n in AddRates(t).columns && Select(AddRates(t), n) == Select(t, n)
  {
  }

  lemma OtherThroughColours(t: Table, cfg: Config, n: string)
    requires Shaped(t) && FuelCostName in t.columns && IdlingRatioName in t.columns
    requires n in t.columns && n != FuelColourName && n != IdleColourName
    ensures n in AddColours(t, cfg).columns && Select(AddColours(t, cfg), n) == Select(t, n)
  {
  }

  /** Lines 58-75 turn the date column, when there is one, into the 運行日 column, filtered to the kept rows. */
  lemma FinishDate(p: Table, date: string, cfg: Config, toDatetime: Cell -> Cell)
    requires HasInputs(p) && cfg.fuelEfficiency != 0.0 && date in p.columns
    requires date != FuelLitersName && date != FuelCostName && date != IdlingRatioName && date != AverageSpeedName
    ensures var out := Finish(p, Some(date), cfg, toDatetime);
      && TripDateName in out.columns
      && Select(out, TripDateName) == DateColumn(FilterMask(Select(p, date), KeepMask(p)), toDatetime)
  {
    var t7 := DropInvalid(p);
    DropStage(p);
    var t9 := AddFuel(t7, cfg);
    FuelStage(t7, cfg);
    var t11 := AddRates(t9);
    RatesStage(t9);
    OtherThroughFuel(t7, cfg, date);
    OtherThroughRates(t9, date);
    var t12 := AddDate(t11, Some(date), toDatetime);
    DateStage(t11, Some(date), toDatetime);
    OtherThroughColours(t12, cfg, TripDateName);
  }

  /** Lines 33-55 keep every input column at its position under its renamed label, and its cells unless the label is assigned. */
  lemma PreparedCarries(t: Table, res: Resolution, toNumeric: string -> Option<real>, j: nat)
    requires Shaped(t) && Resolve(t.columns) == Ok(res) && j < |t.columns|
    ensures var p := Prepare(t, res, toNumeric); var labels := HeadersAfterIdle(t.columns, res.handle, res.idle);
      && j < |p.columns| && p.columns[j] == labels[j]
      && (!IsAssignedLabel(labels[j]) ==> j < |p.data| && p.data[j] == t.data[j])
  {
    var t2 := RenameBoth(t, res);
    var source := t2.columns[res.distance];
    DistanceLabelFirst(t.columns, res.handle, res.idle, res.distance);
    assert Prepare(t, res, toNumeric) == ConvertDistance(ConvertTimes(t2), source, toNumeric);
    if !IsAssignedLabel(t2.columns[j]) {
      CarryPrepared(t2, source, toNumeric, j);
    }
  }

  /** Every input column, after lines 33-55, at its position. */
  lemma PreparedCarriesAll(t: Table, res: Resolution, toNumeric: string -> Option<real>)
    requires Shaped(t) && Resolve(t.columns) == Ok(res)
    ensures var p := Prepare(t, res, toNumeric); var labels := HeadersAfterIdle(t.columns, res.handle, res.idle);
      && |t.columns| <= |p.columns| && |labels| == |t.columns|
      && (forall j | 0 <= j < |t.columns| :: p.columns[j] == labels[j])
      && (forall j | 0 <= j < |t.columns| && !IsAssignedLabel(p.columns[j]) :: j < |p.data| && p.data[j] == t.data[j])
  {
    if |t.columns| > 0 {
      PreparedCarries(t, res, toNumeric, |t.columns| - 1);
    }
    forall j | 0 <= j < |t.columns|
      ensures var p := Prepare(t, res, toNumeric);
        && j < |p.columns| && p.columns[j] == HeadersAfterIdle(t.columns, res.handle, res.idle)[j]
        && (!IsAssignedLabel(p.columns[j]) ==> j < |p.data| && p.data[j] == t.data[j])
    {
      PreparedCarries(t, res, toNumeric, j);
    }
  }

  /** Every column not assigned by lines 58-75, filtered to the kept rows. */
  lemma FinishDataAll(p: Table, date: Option<string>, cfg: Config, toDatetime: Cell -> Cell)
    requires HasInputs(p) && cfg.fuelEfficiency != 0.0 && (date.Some? ==> date.value in p.columns)
    ensures var out := Finish(p, date, cfg, toDatetime);
      forall j | 0 <= j < |p.columns| && !IsAssignedLabel(p.columns[j]) ::
        j < |out.data| && out.data[j] == FilterMask(p.data[j], KeepMask(p))
  {
    var out := Finish(p, date, cfg, toDatetime);
    forall j | 0 <= j < |p.columns| && !IsAssignedLabel(p.columns[j])
      ensures j < |out.data| && out.data[j] == FilterMask(p.data[j], KeepMask(p))
    {
      CarryFinish(p, date, cfg, toDatetime, j);
    }
  }

  /** The facts about the two halves of the pipeline put together, on plain values. */
  lemma AssembledColumns(t: Table, labels: seq<string>, kept: seq<bool>, p: Table, out: Table)
    requires Shaped(t) && t.height == |kept| && Shaped(p) && p.height == |kept|
    requires |t.columns| <= |p.columns| && |labels| == |t.columns|
    requires forall j | 0 <= j < |t.columns| :: p.columns[j] == labels[j]
    requires forall j | 0 <= j < |t.columns| && !IsAssignedLabel(p.columns[j]) :: j < |p.data| && p.data[j] == t.data[j]
    requires |p.columns| <= |out.columns| && forall j | 0 <= j < |p.columns| :: out.columns[j] == p.columns[j]
    requires forall j | 0 <= j < |p.columns| && !IsAssignedLabel(p.columns[j]) ::
      j < |out.data| && out.data[j] == FilterMask(p.data[j], kept)
    ensures forall j | 0 <= j < |t.columns| :: j < |out.columns| && out.columns[j] == labels[j]
    ensures forall j | 0 <= j < |t.columns| && !IsAssignedLabel(labels[j]) ::
      j < |out.data| && out.data[j] == FilterMask(t.data[j], kept)
  {
    forall j: int | 0 <= j < |t.columns|
      ensures j < |out.columns| && out.columns[j] == labels[j]
    {
      assert p.columns[j] == labels[j];
      assert out.columns[j] == p.columns[j];
    }
    assert forall j | 0 <= j < |t.columns| :: j < |out.columns| && out.columns[j] == labels[j];
    forall j | 0 <= j < |t.columns| && !IsAssignedLabel(labels[j])
      ensures j < |out.data| && out.data[j] == FilterMask(t.data[j], kept)
    {
      assert p.columns[j] == labels[j];
    }
  }

  /** The input columns on the located pipeline, lines 33-75. */
  lemma TransformedColumns(t: Table, res: Resolution, cfg: Config,
                           toNumeric: string -> Option<real>, toDatetime: Cell -> Cell)
    requires Shaped(t) && Resolve(t.columns) == Ok(res) && cfg.fuelEfficiency != 0.0 && DriveTimeName !in t.columns
    ensures Located(t, res)
    ensures
      var labels := HeadersAfterIdle(t.columns, res.handle, res.idle);
      var out := Transform(t, res, cfg, toNumeric, toDatetime);
      var kept := KeptRows(t, res, toNumeric);
      && (forall j | 0 <= j < |t.columns| ::
            j < |out.columns| && out.columns[j] == labels[j])
      && (forall j | 0 <= j < |t.columns| && !IsAssignedLabel(labels[j]) ::
            j < |out.data| && out.data[j] == FilterMask(t.data[j], kept))
  {
    KeepMaskIsKept(t, res, toNumeric);
    var p := Prepare(t, res, toNumeric);
    var date := DateLabel(t, res);
    var out := Finish(p, date, cfg, toDatetime);
    assert out == Transform(t, res, cfg, toNumeric, toDatetime);
    PreparedCarriesAll(t, res, toNumeric);
    FinishLabels(p, date, cfg, toDatetime);
    FinishDataAll(p, date, cfg, toDatetime);
    AssembledColumns(t, HeadersAfterIdle(t.columns, res.handle, res.idle), KeepMask(p), p, out);
  }

  /** The 運行日 column on the located pipeline, lines 33-75. */
  lemma TransformedDate(t: Table, res: Resolution, cfg: Config,
                        toNumeric: string -> Option<real>, toDatetime: Cell -> Cell)
    requires Shaped(t) && Resolve(t.columns) == Ok(res) && cfg.fuelEfficiency != 0.0 && DriveTimeName !in t.columns
    requires res.date.Some?
    ensures Located(t, res)
    ensures
      var out := Transform(t, res, cfg, toNumeric, toDatetime);
      var kept := KeptRows(t, res, toNumeric);
      && TripDateName in out.columns
      && Select(out, TripDateName) == DateColumn(FilterMask(t.data[res.date.value], kept), toDatetime)
  {
    KeepMaskIsKept(t, res, toNumeric);
    PreparedColumns(t, res, toNumeric);
    var p := Prepare(t, res, toNumeric);
    var date := DateLabel(t, res);
    assert Finish(p, date, cfg, toDatetime) == Transform(t, res, cfg, toNumeric, toDatetime);
    PreparedLabelsHideDateKey();
    FinishDate(p, date.value, cfg, toDatetime);
  }

  /**
   * Every input column keeps its position and, unless it was renamed, its
   * label; one whose label the pipeline does not assign keeps its cells,
   * filtered to the kept rows. When a 日付 column was found, 運行日 holds its
   * cells of the kept rows through `toDatetime`. The hypotheses are those
   * of ProcessedTrips.
   */
  lemma ProcessedColumns(t: Table, cfg: Config, toNumeric: string -> Option<real>, toDatetime: Cell -> Cell)
    requires Shaped(t) && cfg.fuelEfficiency != 0.0 && DriveTimeName !in t.columns
    requires Process(t, cfg, toNumeric, toDatetime).Ok?
    requires RenamesUnique(t.columns, Resolve(t.columns).value)
    ensures Located(t, Resolve(t.columns).value)
    ensures
      var res := Resolve(t.columns).value;
      var labels := HeadersAfterIdle(t.columns, res.handle, res.idle);
      var out := Process(t, cfg, toNumeric, toDatetime).value;
      var kept := KeptRows(t, res, toNumeric);
      && (forall j | 0 <= j < |t.columns| ::
            j < |out.columns| && out.columns[j] == labels[j])
      && (forall j | 0 <= j < |t.columns| && !IsAssignedLabel(labels[j]) ::
            j < |out.data| && out.data[j] == FilterMask(t.data[j], kept))
      && (res.date.Some? ==>
            TripDateName in out.columns &&
            Select(out, TripDateName) == DateColumn(FilterMask(t.data[res.date.value], kept), toDatetime))
  {
    TransformedColumns(t, Resolve(t.columns).value, cfg, toNumeric, toDatetime);
    if Resolve(t.columns).value.date.Some? {
      TransformedDate(t, Resolve(t.columns).value, cfg, toNumeric, toDatetime);
    }
  }
}
