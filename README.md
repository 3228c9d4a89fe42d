# Fuel analysis: the trip-log pipeline

This project models the core of the fuel dashboard in
`fuel-analysis-tools/full_app/app.py`.

- **`convert_time_to_minutes`** reads a duration such as `"1:30"` or `"1:30:30"` as a number of minutes. Any other text gives the missing value.
- **`process_csv_data`** takes a trip log that has already been read from CSV. It finds these columns by keyword in their headers:
  - drive time (`ハンドル`);
  - idle time (`アイドリング`);
  - an optional date (`日付`);
  - distance (`走行距離` or `区間距離`).

  It renames the first two columns, converts both times to minutes and converts the distance to a number. It drops the trips without a distance or without a positive drive time. Then it adds these columns:
  - fuel used;
  - fuel cost;
  - idling ratio;
  - average speed;
  - the trip date;
  - two red/blue tags, one for the fuel cost and one for the idling ratio.

  If a required column is missing, it fails with an error that lists the headers the table had at that moment.

  As written, a single drive time or idle time that does not convert makes line 66 raise a TypeError, and so does a file with a header and no rows (pandas 2.2 and later). The model states the evidently intended result, and beside it the failure as written (see Findings).

## Modules

- `Wrappers`: Option, Result and Outcome.
- `Durations`: `str.split(':')`, Python's `int()` on a part, and `convert_time_to_minutes`.
- `Rounding`: numpy's `round(x, d)` over exact reals, with half-to-even `rint`.
- `Frames`: a column-major table.
  - Operations on it: `df[name]`, `rename`, column assignment, and boolean filtering.
  - A `DataFrame` class whose methods change the table in place.
- `Metrics`: the per-trip formulas and the two tags.
- `Columns`: finding the first header that contains a keyword.
- `Pipeline`: `process_csv_data`, in two forms.
  - `Process` works on table values, stage by stage.
  - `ProcessCsvData` runs the same stages on a `DataFrame` in place. Its contract ties the frame's final value to `Process`'s stages.
- `Trips`: what the pipeline computes, row by row. Each kept row is compared with `TripRow`, a reference computed from that one input row. `Trips` also states which input columns survive unchanged.

## Model

| member | source | states |
|---|---|---|
| Durations.Split | fuel-analysis-tools/full_app/app.py:13 | `str.split(':')`: at least one part, no part contains ':', and joining the parts with ':' gives the text back |
| Durations.SplitJoin | fuel-analysis-tools/full_app/app.py:13 | splitting a join of parts that contain no separator gives those parts back (inverse of joining) |
| Durations.ParseInt | fuel-analysis-tools/full_app/app.py:13 | `int(part)` succeeds exactly on an optional sign followed by one or more digits; the value is the digits' decimal value, negated after a '-' (leading zeros and a '+' allowed) |
| Durations.LeadingZeros | fuel-analysis-tools/full_app/app.py:13 | leading zeros do not change the value of a string of digits |
| Durations.ParsePadded | fuel-analysis-tools/full_app/app.py:13 | `int()` of a zero-padded natural number, such as "05", is that number, and the text holds no ':' |
| Durations.ParseShowInt | fuel-analysis-tools/full_app/app.py:13 | reading Python's `str` of any integer gives that integer back, and that text contains no ':' |
| Durations.ParseAll | fuel-analysis-tools/full_app/app.py:13 | `list(map(int, parts))` succeeds exactly when every part is an integer literal; the list then has one value per part |
| Durations.ConvertTimeToMinutes | fuel-analysis-tools/full_app/app.py:7-22 | a value exists exactly when the text splits on ':' into two or three parts that are all integer literals; otherwise the result is the missing value |
| Durations.MinutesOfAnySplit | fuel-analysis-tools/full_app/app.py:12-22 | for every text whose parts read as integers: three parts give h*60 + m + s/60, two give h*60 + m, any other count gives the missing value |
| Durations.ThreePartsMinutes | fuel-analysis-tools/full_app/app.py:14-16 | for all integers h, m, s, the text "h:m:s" gives h*60 + m + s/60 minutes |
| Durations.TwoPartsMinutes | fuel-analysis-tools/full_app/app.py:17-19 | for all integers h, m, the text "h:m" gives h*60 + m minutes |
| Durations.WrongPartCount | fuel-analysis-tools/full_app/app.py:14-22 | a text with neither two nor three parts gives the missing value |
| Durations.NonIntegerPart | fuel-analysis-tools/full_app/app.py:12-22 | a text with a part that is not an integer literal gives the missing value (the caught exception) |
| Durations.HourAndHalfExample | fuel-analysis-tools/full_app/app.py:17-19 | "1:30" is 90 minutes |
| Durations.HourAndHalfWithSecondsExample | fuel-analysis-tools/full_app/app.py:14-16 | "1:30:30" is 90.5 minutes |
| Durations.NotIntegerExamples | fuel-analysis-tools/full_app/app.py:20-22 | the empty text and "abc" give the missing value |
| Durations.OnePartExample | fuel-analysis-tools/full_app/app.py:17-22 | "90", which has one part, gives the missing value |
| Durations.FourPartsExample | fuel-analysis-tools/full_app/app.py:14-22 | "1:2:3:4", which has four parts, gives the missing value |
| Durations.ThreeLiteralsMinutes | fuel-analysis-tools/full_app/app.py:13-16 | any three integer literals joined by ':' give h*60 + m + s/60 of their values |
| Durations.TwoLiteralsMinutes | fuel-analysis-tools/full_app/app.py:13-19 | any two integer literals joined by ':' give h*60 + m of their values |
| Durations.LiteralColonFree | fuel-analysis-tools/full_app/app.py:13 | an integer literal contains no ':', so each literal is one whole part of the split |
| Durations.PaddedTwoPartsMinutes | fuel-analysis-tools/full_app/app.py:9-19 | the zero-padded "hh:mm" form gives h*60 + m minutes, whatever the padding |
| Durations.PaddedThreePartsMinutes | fuel-analysis-tools/full_app/app.py:9-16 | the zero-padded "hh:mm:ss" form gives h*60 + m + s/60 minutes, whatever the padding |
| Durations.ZeroPaddedExample | fuel-analysis-tools/full_app/app.py:9-19 | "01:05" is 65 minutes |
| Durations.SignedPartsExample | fuel-analysis-tools/full_app/app.py:13-19 | `int()` accepts signs, so "+1:-30" is 60 - 30 = 30 minutes |
| Rounding.Rint | fuel-analysis-tools/full_app/app.py:62 | the integer nearest to x is at most one half away, and a tie goes to the even integer |
| Rounding.RintUnique | fuel-analysis-tools/full_app/app.py:62 | an integer closer than one half to x is the one `rint` returns |
| Rounding.RintMonotone | fuel-analysis-tools/full_app/app.py:62 | rounding preserves order |
| Rounding.Round | fuel-analysis-tools/full_app/app.py:62-67 | `round(x, d)` has at most d decimal places: scaled by 10^d it is a whole number |
| Rounding.RoundError | fuel-analysis-tools/full_app/app.py:62-67 | `round(x, d)` is within half a unit of x in the d-th decimal place |
| Rounding.RoundExact | fuel-analysis-tools/full_app/app.py:62-67 | a value with at most d decimals is unchanged by `round(x, d)` |
| Rounding.RoundExamples | fuel-analysis-tools/full_app/app.py:62-63 | 20 and 3200 are unchanged; 0.125 rounds to 0.12 and 0.135 to 0.14 (half to even) |
| Metrics.CellMinutes | fuel-analysis-tools/full_app/app.py:48-49 | `convert_time_to_minutes` on a cell: only a text cell can give minutes, because `str` of a number or NaN has no ':' |
| Metrics.CellNumber | fuel-analysis-tools/full_app/app.py:55 | `to_numeric(errors='coerce')` on a cell: a number stays the same and a missing value stays missing |
| Metrics.FuelColour | fuel-analysis-tools/full_app/app.py:74 | the cost tag is red exactly when the cost is a number greater than price * 100, and blue otherwise |
| Metrics.IdleColour | fuel-analysis-tools/full_app/app.py:75 | the idling tag is red exactly when the ratio is a number greater than the threshold, and blue exactly when it is not (a NaN ratio compares false and is blue) |
| Metrics.FuelLiters | fuel-analysis-tools/full_app/app.py:62 | litres are `(distance / efficiency).round(2)`: at most two decimal places |
| Metrics.FuelCost | fuel-analysis-tools/full_app/app.py:63 | the cost is `(litres * price).round(0)`: a whole number of yen |
| Metrics.IdlingRatio | fuel-analysis-tools/full_app/app.py:66 | the ratio is `(idle / drive * 100).round(2)`: at most two decimal places |
| Metrics.AverageSpeed | fuel-analysis-tools/full_app/app.py:67 | the speed is `(distance / (drive / 60)).round(2)`: at most two decimal places |
| Metrics.FuelLitersClose | fuel-analysis-tools/full_app/app.py:62 | fuel litres are within 0.005 of distance / efficiency |
| Metrics.FuelCostClose | fuel-analysis-tools/full_app/app.py:63 | the fuel cost is within half a yen of litres * price |
| Metrics.IdlingRatioClose | fuel-analysis-tools/full_app/app.py:66 | the idling ratio is within 0.005 of idle / drive * 100 |
| Metrics.AverageSpeedClose | fuel-analysis-tools/full_app/app.py:67 | the average speed is within 0.005 km/h of distance / (drive / 60) |
| Metrics.FuelExample | fuel-analysis-tools/full_app/app.py:62-74 | 100 km at 5 km/L and 160 yen/L give 20 L and 3200 yen, with a blue cost tag |
| Metrics.RatioAndSpeedExample | fuel-analysis-tools/full_app/app.py:66-67 | 30 idle minutes in 120 drive minutes give 25 %; 60 km in 90 minutes give 40 km/h |
| Metrics.BoundaryIsBlue | fuel-analysis-tools/full_app/app.py:74-75 | both comparisons are strict: a value exactly at the limit is tagged blue |
| Columns.FindColumn | fuel-analysis-tools/full_app/app.py:33 | `next(c for c in columns if key in c)`: the position of the first header containing a keyword, or None when no header does |
| Columns.FirstMatchUnique | fuel-analysis-tools/full_app/app.py:33 | any position that has the first-match property is the one FindColumn returns |
| Columns.DistanceEitherKeyword | fuel-analysis-tools/full_app/app.py:52 | the first header containing 走行距離 or 区間距離 is found, and the two keywords are treated alike |
| Columns.Contains | fuel-analysis-tools/full_app/app.py:33 | `key in c`: a substring is never longer than the text; the empty key and the text itself are contained |
| Frames.RenameColumn | fuel-analysis-tools/full_app/app.py:36 | `rename` changes only the labels: the data and height stay, and at each position a label equal to the old name becomes the new name while every other label stays where it was |
| Frames.WithColumn | fuel-analysis-tools/full_app/app.py:48 | `df[name] = vals`: the labels gain `name` only when it is absent; `df[name]` is `vals`; every other column keeps its cells and its position |
| Frames.Where | fuel-analysis-tools/full_app/app.py:58-59 | `df[mask]`: same labels; every column keeps exactly the masked rows; the height is the number of rows kept |
| Frames.KeptIndices | fuel-analysis-tools/full_app/app.py:58-59 | the kept positions are strictly increasing, each is a masked row, and every masked row is among them |
| Frames.FilterMaskAt | fuel-analysis-tools/full_app/app.py:58-59 | the k-th cell a filter keeps is the cell at the k-th kept position |
| Frames.FilterFilter | fuel-analysis-tools/full_app/app.py:58-59 | filtering by one mask and then by a second mask on the survivors equals one filter by the conjunction of the two masks |
| Frames.DataFrame.Rename | fuel-analysis-tools/full_app/app.py:36 | the frame's new value is the renamed table |
| Frames.DataFrame.Assign | fuel-analysis-tools/full_app/app.py:48 | the frame's new value is the table with the column assigned |
| Frames.DataFrame.Filter | fuel-analysis-tools/full_app/app.py:58-59 | the frame's new value is the table restricted to the masked rows |
| Frames.Select | fuel-analysis-tools/full_app/app.py:48-49 | `df[name]` is a column as long as the table |
| Frames.SelectFirst | fuel-analysis-tools/full_app/app.py:48-49 | `df[name]` is the column at the first position labelled name |
| Pipeline.WrittenLabelsHideKeywords | fuel-analysis-tools/full_app/app.py:36-52 | the labels the pipeline writes before each lookup contain none of the keywords that lookup searches for |
| Pipeline.Resolve | fuel-analysis-tools/full_app/app.py:33-54 | each lookup finds the first matching header among the headers of its moment (after the renames, and after the minute columns are added); otherwise the first missing column is reported with those headers |
| Pipeline.MinutesColumn | fuel-analysis-tools/full_app/app.py:48-49 | the converted column has the same length and holds only numbers and missing values |
| Pipeline.NumericColumn | fuel-analysis-tools/full_app/app.py:55 | the coerced column has the same length and holds only numbers and missing values |
| Pipeline.KeepMask | fuel-analysis-tools/full_app/app.py:58-59 | a row is kept exactly when its drive minutes are a positive number and its distance is present |
| Pipeline.FuelColumn | fuel-analysis-tools/full_app/app.py:62 | a litres cell is a number exactly where the distance is one, otherwise missing, with at most two decimal places |
| Pipeline.CostColumn | fuel-analysis-tools/full_app/app.py:63 | a cost cell is a number exactly where the litres are one, otherwise missing, and a whole number |
| Pipeline.RatioColumn | fuel-analysis-tools/full_app/app.py:66 | a ratio cell is a number exactly where the idle minutes are one, otherwise missing, with at most two decimal places |
| Pipeline.SpeedColumn | fuel-analysis-tools/full_app/app.py:67 | a speed cell is a number exactly where the distance is one, otherwise missing, with at most two decimal places |
| Pipeline.FuelColumnClose | fuel-analysis-tools/full_app/app.py:62 | each computed litres cell is within 0.005 of its distance / efficiency |
| Pipeline.CostColumnClose | fuel-analysis-tools/full_app/app.py:63 | each computed cost cell is within half a yen of its litres * price |
| Pipeline.RatioColumnClose | fuel-analysis-tools/full_app/app.py:66 | each computed ratio cell is within 0.005 of its idle / drive * 100 |
| Pipeline.SpeedColumnClose | fuel-analysis-tools/full_app/app.py:67 | each computed speed cell is within 0.005 of its distance / (drive / 60) |
| Pipeline.DateColumn | fuel-analysis-tools/full_app/app.py:71 | each date cell is `toDatetime` of the cell in the same row |
| Pipeline.FuelColourColumn | fuel-analysis-tools/full_app/app.py:74 | every tag is red or blue, and red exactly where the cost is a number greater than price * 100 |
| Pipeline.IdleColourColumn | fuel-analysis-tools/full_app/app.py:75 | every tag is red or blue, and red exactly where the ratio is a number greater than the threshold |
| Pipeline.ConvertTimes | fuel-analysis-tools/full_app/app.py:48-49 | adds the two minute columns from the renamed time columns; every other column is unchanged |
| Pipeline.ConvertDistance | fuel-analysis-tools/full_app/app.py:55 | adds the numeric distance column from the located distance column; every other column is unchanged |
| Pipeline.DropInvalid | fuel-analysis-tools/full_app/app.py:58-59 | every column keeps exactly the rows with a present drive time and distance and a positive drive time; afterwards every drive-minutes cell is a positive number |
| Pipeline.PositiveMaskFilter | fuel-analysis-tools/full_app/app.py:58-59 | the `> 0` mask taken after `dropna` equals the `> 0` mask of the input, filtered |
| Pipeline.AddFuel | fuel-analysis-tools/full_app/app.py:62-63 | adds the litres and cost columns computed from the distance column; every other column is unchanged |
| Pipeline.AddRates | fuel-analysis-tools/full_app/app.py:66-67 | adds the ratio and speed columns computed from the minutes and distance columns; every other column is unchanged |
| Pipeline.AddDate | fuel-analysis-tools/full_app/app.py:70-71 | adds 運行日 from the date column only when one was found; every other column is unchanged |
| Pipeline.AddColours | fuel-analysis-tools/full_app/app.py:74-75 | adds both tag columns computed from the cost and ratio columns; every other column is unchanged |
| Pipeline.RenameBoth | fuel-analysis-tools/full_app/app.py:36-42 | after both renames the labels are those Resolve used; the data is unchanged; 走行時間 and アイドリング時間 are present |
| Pipeline.DateLabel | fuel-analysis-tools/full_app/app.py:45 | the date label exists exactly when a date column was found, and it contains 日付 |
| Pipeline.Prepare | fuel-analysis-tools/full_app/app.py:33-55 | after the lookups, the minute and distance columns exist, and so does the date label when there is one |
| Pipeline.FinishLabels | fuel-analysis-tools/full_app/app.py:58-75 | the labels after the filters and assignments are the earlier labels, in place, followed by the added ones |
| Pipeline.Finish | fuel-analysis-tools/full_app/app.py:58-75 | the result is well shaped and has exactly as many rows as the mask of lines 58-59 keeps, no more than the input |
| Pipeline.Transform | fuel-analysis-tools/full_app/app.py:33-75 | the result is well shaped and has no more rows than the input |
| Pipeline.Process | fuel-analysis-tools/full_app/app.py:25-77 | succeeds exactly when every required column is found; otherwise it returns the failure of the first missing column |
| Pipeline.ProcessAsWritten | fuel-analysis-tools/full_app/app.py:25-77 | the program as written: the first missing column's failure exactly when Resolve fails; the TypeError of line 66 (pandas 2.2 and later) exactly when the table has no rows or a prepared minute column holds a missing value; otherwise Process's table |
| Pipeline.DropStage | fuel-analysis-tools/full_app/app.py:58-59 | the three input columns are the filtered ones, and drive minutes are all positive |
| Pipeline.FuelStage | fuel-analysis-tools/full_app/app.py:62-63 | the three input columns are kept, and litres and cost are the formula columns |
| Pipeline.RatesStage | fuel-analysis-tools/full_app/app.py:66-67 | the input, litres and cost columns are kept, and ratio and speed are the formula columns |
| Pipeline.DateStage | fuel-analysis-tools/full_app/app.py:70-71 | adding the date keeps every input and figure column |
| Pipeline.ColourStage | fuel-analysis-tools/full_app/app.py:74-75 | adding the tags keeps every input and figure column, and the tags are the colour columns |
| Pipeline.AddMinuteColumns | fuel-analysis-tools/full_app/app.py:48-49 | the frame becomes ConvertTimes of its old value |
| Pipeline.AddDistanceColumn | fuel-analysis-tools/full_app/app.py:55 | the frame becomes ConvertDistance of its old value |
| Pipeline.DropInvalidRows | fuel-analysis-tools/full_app/app.py:58-59 | the frame becomes DropInvalid of its old value |
| Pipeline.AddFuelColumns | fuel-analysis-tools/full_app/app.py:62-63 | the frame becomes AddFuel of its old value |
| Pipeline.AddRateColumns | fuel-analysis-tools/full_app/app.py:66-67 | the frame becomes AddRates of its old value |
| Pipeline.AddDateColumn | fuel-analysis-tools/full_app/app.py:70-71 | the frame becomes AddDate of its old value |
| Pipeline.AddColourColumns | fuel-analysis-tools/full_app/app.py:74-75 | the frame becomes AddColours of its old value |
| Pipeline.FinishStages | fuel-analysis-tools/full_app/app.py:58-75 | the frame becomes Finish of its old value |
| Pipeline.PrepareStages | fuel-analysis-tools/full_app/app.py:33-55 | succeeds exactly when Resolve does, with the same positions, and leaves the frame as Prepare's table; on failure it reports Resolve's error, with the headers the frame has at that moment |
| Pipeline.ProcessCsvData | fuel-analysis-tools/full_app/app.py:25-77 | fails with the first missing column exactly when Resolve fails; otherwise the frame is changed in place into Process's table |
| Trips.DriveLookup | fuel-analysis-tools/full_app/app.py:33-35 | the drive-time lookup fails exactly when no input header contains ハンドル; otherwise it finds the first one that does |
| Trips.IdleLookup | fuel-analysis-tools/full_app/app.py:39-41 | the idle-time lookup fails exactly when no header contains アイドリング, ignoring headers that now carry the drive-time label; otherwise it finds the first such header |
| Trips.LaterLookups | fuel-analysis-tools/full_app/app.py:45-54 | in the input headers, outside the two renamed labels: the date is the first header with 日付, or none; the distance is the first header with 走行距離 or 区間距離; the lookup fails exactly when there is none |
| Trips.KeepMaskIsKept | fuel-analysis-tools/full_app/app.py:48-59 | the rows the two filters keep are exactly the input rows whose drive time converts to a positive number of minutes and whose distance converts to a number |
| Trips.ColumnsRow | fuel-analysis-tools/full_app/app.py:62-75 | an output row built from the formula columns is TripRow of its drive, idle and distance cells |
| Trips.FinishedRows | fuel-analysis-tools/full_app/app.py:58-75 | output row k is TripRow of the k-th kept row of the prepared table |
| Trips.ProcessedTrips | fuel-analysis-tools/full_app/app.py:33-77 | when neither renamed label repeats (no header is already 走行時間, and RenamesUnique holds), the output rows are exactly the kept input rows, in their original order, and each holds the figures TripRow computes from that input row alone |
| Trips.KeptRowOutput | fuel-analysis-tools/full_app/app.py:58-75 | under the same hypotheses, every kept input row is an output row holding its reference figures |
| Trips.AsWrittenFails | fuel-analysis-tools/full_app/app.py:48-66 | in input terms, the program as written raises at line 66 exactly when the input has no rows or some input row's drive time or idle time does not convert, kept or not |
| Trips.ObjectColumnDiscrepancy | fuel-analysis-tools/full_app/app.py:48-67 | a kept row whose idle time does not convert is an output row of Process with a missing ratio, while the program as written raises |
| Trips.CarryFinish | fuel-analysis-tools/full_app/app.py:58-75 | a column whose label is not assigned by lines 58-75 keeps its label and position, and holds its kept cells |
| Trips.FinishDate | fuel-analysis-tools/full_app/app.py:70-71 | 運行日 is the date column's kept cells passed through `to_datetime` |
| Trips.ProcessedColumns | fuel-analysis-tools/full_app/app.py:33-77 | under the same hypotheses, every input column keeps its position and its (renamed) label; a column whose label the pipeline does not assign keeps its cells, filtered to the kept rows; when a date column exists, 運行日 is its kept cells through `to_datetime` |

## Left out

- Reading the CSV file (line 27, `read_csv` with cp932): not modelled. The frame is given already read, with string headers and cells that are text, numbers or missing.
- The Streamlit user interface (lines 1-4 and 79-108): not modelled, nor is the stray duplicated import on line 2, which is a syntax error as written.
- Text-to-number and text-to-date conversion: `pd.to_numeric` on text and `pd.to_datetime` are parameters (`toNumeric`, `toDatetime`). Their parsing rules belong to pandas.
- Pipeline.DateColumn: `toDatetime` converts each cell independently. `pd.to_datetime` on line 71 infers one date format for the whole column, so one cell's result can depend on the other cells. That dependence is not modelled.
- Messages: the exceptions' Japanese text is replaced by a structured `MissingColumn` that holds the failed field and the header list the message prints.
- Durations.ParseInt: Python's `int()` also accepts surrounding whitespace, `_` between digits and non-ASCII digits. These are not modelled; only an optional sign and ASCII digits are.
- Durations.ParseInt: Python 3.11 and later refuse an integer literal of more than 4300 digits with a ValueError, and line 20 then gives the missing value. The model reads literals of any length.
- Durations.ConvertTimeToMinutes: when s / 60 or the three-part sum on line 16 exceeds the float range, Python raises OverflowError, and line 20 gives the missing value. The model, on unbounded integers and reals, gives the value.
- Rounding.Round: arithmetic is on exact reals, not binary floating point, so the results of inexact decimal representations are not modelled. Ties round to even, as numpy does.
- Pipeline.ProcessCsvData: requires a non-zero fuel efficiency, although the number input does not prevent zero. With zero, pandas produces infinities or NaN, and the reals have no such values.
- Pipeline.Process: requires a non-zero fuel efficiency, for the same reason. So do Pipeline.AddFuel, Pipeline.Finish, Pipeline.Transform, Pipeline.AddFuelColumns, Pipeline.FinishStages, Metrics.FuelLiters, Pipeline.FuelColumn, Pipeline.ProcessAsWritten, Trips.TripRow and every lemma about them, among them Trips.ProcessedTrips and Trips.ProcessedColumns. The exclusion holds throughout the model.
- Pipeline.ProcessCsvData: after a failure, `df` has undergone the renames and assignments made before the failed lookup. The contract states only its headers in that case, which is all the error message shows.
- Pipeline.IdleColourColumn: a missing ratio is tagged blue, as `NaN > threshold` is false on the float column the code evidently intends. As written, the program never reaches line 75 with a missing ratio, because line 66 raises first (see Findings).
- Frames.Select: `df[name]` returns the first column with that label. pandas returns every column with a repeated label, so frames with duplicate labels are not modelled beyond the first column.
- Trips.ProcessedTrips: states the evidently intended result, as does the rest of Trips. When a drive time or idle time cell does not convert, the program as written raises at line 66 instead (see Findings and Pipeline.ProcessAsWritten). A kept trip with an unconvertible idle time is then an output row with a missing ratio in the model, and no table at all in the program.
- Trips.ProcessedTrips: assumes that each renamed label lands on one column only. No input header may already be exactly 走行時間 (line 36). No input header other than the located idle-time header may be exactly アイドリング時間 (line 42). No other header may repeat the located drive-time or idle-time header (`RenamesUnique`). Take the headers [ハンドル時間, アイドリング回数, アイドリング時間, 走行距離]: the rename on line 42 gives two columns labelled アイドリング時間, and `df['アイドリング時間']` on line 49 is then a two-column frame. pandas computes no per-trip idle figures there, while the model reads the first such column. That case is outside the model for the reason given under Frames.Select.
- Trips.ProcessedColumns: makes the same assumptions.
- Pipeline.Process: states the evidently intended result, as does Pipeline.ProcessCsvData. When a drive time or idle time cell does not convert, the program as written raises a TypeError at line 66, which line 107 shows as an error. Pipeline.ProcessAsWritten models that failure (see Findings).
- Pipeline.Process: on headers where a renamed label repeats, Process and ProcessCsvData still state the result computed from the first column of that label. pandas works on a frame of several columns at lines 48-49.
- Column dtypes: every column is treated as cells of numbers, text or missing values. The one dtype effect the pipeline meets, the object-dtype minute columns of lines 48-49, is modelled by Pipeline.ProcessAsWritten. It follows pandas 2.2 and later, where `Series.round` refuses any object Series. The columns are object when a time cell does not convert, or when the file has a header and no rows: `read_csv` then gives object columns, and `apply` on an empty Series keeps their dtype. The condition is stated on the input, before the filters. Other pandas versions behave differently, and that difference is not modelled. In pandas 1.x, `round` on an object column that the filters left empty may not raise. In 2.0 and 2.1, `Series.round` may return an object column unrounded, so the failure moves to line 75 or the table comes back unrounded.
- Filtering in place: `df = df.dropna(...)` and `df = df[...]` rebind `df` to a new frame. The model updates the one frame object in place, because the caller sees only the returned frame in either case.

## Findings

| source | as written | input that shows it | evidently intended | confidence | as-written member | corrected member |
|---|---|---|---|---|---|---|
| fuel-analysis-tools/full_app/app.py:48-66 | `convert_time_to_minutes` returns `pd.NA`. `Series.apply` then gives the minute column object dtype, and `dropna` and the mask on lines 58-59 keep it. `.round(2)` on line 66 raises TypeError on the object ratio, so one unconvertible drive or idle time fails the whole file. A file with a header and no rows fails the same way, since its columns are object too | drive time ["1:30"], idle time [""], distance [60]: the idle time gives pd.NA, and line 66 raises | the unconvertible cells are dropped (drive time) or give a missing ratio (idle time), as the `dropna` on line 58 shows, and every other trip is computed | not executed; follows pandas 2.2 and later, other versions differ | Pipeline.ProcessAsWritten, Trips.AsWrittenFails, Trips.ObjectColumnDiscrepancy | Pipeline.Process, Trips.ProcessedTrips |
