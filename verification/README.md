# Sensor log ingestion: a Dafny model

This project models the ingestion core of the solar-sensor telemetry viewer
(`SensorModel` in `sensormodel.h` / `sensormodel.cpp`):

- `convertTxtToJson` turns a whitespace-separated text log into the
  intermediate JSON store. It does this in stages:
  - find the header line;
  - map each `S<n>_<A|B>` header column to a sensor and a channel;
  - decode each data line;
  - group the line's cells into one sample per sensor;
  - append those samples to the sensors' series;
  - emit the sensors in ascending id order.
- `loadFromJsonFile` rebuilds the sensor list from that store. It tolerates
  missing fields and leaves the model alone when the file is unusable.
- `rowCount` and `data` guard the rows and roles of the list model.

Everything is pure functions over immutable datatypes:

- The lines of the log are a `seq<string>`.
- The two `QMap<int, …>` whose iteration order is observed, `rowPoints` and `tempSensors`, are association lists with strictly ascending keys (`OrderedMap`).
- The header's `columnMapping` is a plain Dafny `map<nat, Column>`: it is only queried by index and never iterated, so its order is never observed.
- The JSON document is an abstract tree (`JsonTree.Json`).
- The model state is a `SensorModel` value.

Number parsing (`QString::toDouble`) is a parameter `parse: string -> Option<real>`.
It is applied after the modelled comma-to-dot replacement.

Modules, leaf first:

- `Wrappers`: `Option`.
- `Ints`: 32-bit `int`, and `toInt`'s overflow-to-zero.
- `Text`:
  - the two whitespace classes: `QChar::isSpace` for trimming, and ASCII-only `\s` for the splitter;
  - trimming, splitting and `contains`;
  - comma-to-dot replacement;
  - decimal digits.
- `OrderedMap`: `QMap<int, V>`.
- `JsonTree`: the document tree and the lenient `QJsonValue` conversions.
- `Sensors`: the `DataPoint`, `Sensor` and model-state records and their defaults.
- `Header`: header search, the column pattern `S(\d+)_([AB])`, and the column mapping.
- `Rows`: row decoding and per-row grouping, with a reference definition of each sample.
- `Series`: per-sensor accumulation, with a reference definition of each sensor's series.
- `Store`: encoding, decoding, the loader and the store round trip.
- `Convert`: the whole conversion, and its composition with the loader.
- `ListModel`: `rowCount` and `data`.

Behaviour worth noting, as the code does it:

- Header detection and the column pattern are case-sensitive.
- The column pattern is unanchored: `xS3_Ay` is column `(3, A)`.
- The sample key in the store is `time`, not `t`.
- A data line whose time cell does not parse is skipped. Only value cells fall back to 0.0.
- A root object without a `sensors` array empties the model. It does not fail.
- The loader leaves the corrected values unassigned. It does not set them to the raw values.
- A sensor appears in the output only when some accepted data line has a mapped column for it. Naming it in the header is not enough. `SensorsComeFromHeader` proves one direction only: every output sensor comes from a header column.

## Model

| member | source | states |
|---|---|---|
| `Text.Trim` | sensormodel.cpp:106 | trimming gives the empty string exactly when the line is all whitespace. Otherwise it gives the slice that starts and ends with non-whitespace, with only whitespace cut on either side |
| `Text.SplitWs` | sensormodel.cpp:110 | every token the splitter yields is non-empty and free of whitespace |
| `Text.SplitWsToken` | sensormodel.cpp:110 | a line that is a single run of non-whitespace splits into exactly that one token |
| `Text.SplitAtSpace` | sensormodel.cpp:110 | the splitter cuts at every whitespace character: the tokens of `a`, a whitespace character, then `b` are the tokens of `a` followed by the tokens of `b`. With `SplitWsToken` and `SplitWsEmpty` this fixes the result for every line |
| `Text.SplitWsEmpty` | sensormodel.cpp:110-113 | a line splits into no tokens exactly when it is all whitespace |
| `Text.SplitWsKeepsText` | sensormodel.cpp:110 | the tokens glued together are the line with its whitespace removed, so splitting drops nothing else |
| `Text.SplitJoinRoundTrip` | sensormodel.cpp:85 | splitting single-space-joined tokens gives back exactly those tokens |
| `Text.Contains` | sensormodel.cpp:71 | `contains` holds exactly when the pattern occurs at some position, case-sensitively |
| `Text.CommaToDot` | sensormodel.cpp:116-117 | the replacement keeps the length, turns every comma into a dot, changes nothing else and leaves no comma |
| `Text.NatToDecimal` | sensormodel.cpp:150 | the number in a sensor's name is a non-empty digit string without a leading zero, and it reads back as the id |
| `Ints.ToInt32OrZero` | sensormodel.cpp:95 | the captured digits become their value when it fits in an `int`, and 0 otherwise |
| `OrderedMap.Get` | sensormodel.cpp:135-147 | a lookup succeeds exactly for the keys present, and returns the value stored with the key, as `rowPoints.contains` / `rowPoints[...]` (lines 135-140) and `tempSensors.contains` (line 147) use it |
| `OrderedMap.Put` | sensormodel.cpp:135-140 | assigning keeps the keys strictly ascending, adds exactly the key, binds it to the value and leaves every other key's value alone |
| `OrderedMap.KeyListAscending` | sensormodel.cpp:160-161 | the keys of a `QMap` already come out strictly ascending, so sorting them changes nothing, and looking each key up in that order yields the values in iteration order |
| `JsonTree.ToInt` | sensormodel.cpp:217 | `toInt` returns a whole in-range number unchanged, and 0 for a fractional or out-of-range number or any non-number |
| `JsonTree.IntRoundTrip` | sensormodel.cpp:166 | an `int` written as a JSON number reads back as the same `int` |
| `Header.FindHeader` | sensormodel.cpp:67-81 | the result is the first line that contains both `Time` and `S1_A`. It is `None` exactly when no line contains both |
| `Header.FindPattern` | sensormodel.cpp:89-93 | the result is a match of `S(\d+)_([AB])` with no match further left, or `None` when there is no match at or after the start |
| `Header.MatchColumn` | sensormodel.cpp:89-99 | a token maps to a column exactly when the pattern occurs in it. The id comes from the leftmost occurrence's digits (0 on overflow) and is never negative. The channel is A exactly for the letter `A` |
| `Header.MatchColumnExamples` | sensormodel.cpp:89-97 | `S12_B` maps to (12, B). `xS3_Ay` maps to (3, A), because the pattern is unanchored. `s1_a` maps to nothing, because the pattern is case-sensitive |
| `Header.ColumnMap` | sensormodel.cpp:85-100 | header column `i` is in the mapping exactly when its trimmed token contains the pattern, and it maps to that token's match |
| `Rows.DecodeRow` | sensormodel.cpp:106-121 | a line is accepted exactly when it has at least two tokens after trimming and its first token, with commas turned to dots, parses. An all-whitespace line is skipped. An accepted row keeps all its tokens and the parsed time |
| `Rows.LastColumn` | sensormodel.cpp:125-141 | the result is the last column below `n`, from index 1 up, that carries the given sensor and channel. It is `None` exactly when no such column exists |
| `Rows.RowPointsUpToSpec` | sensormodel.cpp:123-141 | a row yields one sample per sensor with a mapped column at index 1 or more, and no other sample. Each sample has the row's time. Each channel takes the value of its last column, or 0.0 when the row has no column for it |
| `Series.RowPointIsLinePoint` | sensormodel.cpp:123-141 | on an accepted line, the per-row grouping gives each sensor exactly the sample of the reference definition, and none when the row has no mapped column of it |
| `Series.AppendRowSpec` | sensormodel.cpp:143-154 | appending a row leaves the sensors without a sample in it untouched. Every other sensor gets that sample at the end of its series; a sensor seen for the first time becomes `Sensor <id>` |
| `Series.StepSpec` | sensormodel.cpp:105-154 | one turn of the data loop changes a sensor only by appending the sample that the line gives it |
| `Series.AccumulateSpec` | sensormodel.cpp:102-155 | after the data loop, a sensor is present exactly when some line gave it a sample. It is then `Sensor <id>` with identity coefficients, and its series is its samples in line order |
| `Convert.ConvertSensors` | sensormodel.cpp:63-164 | conversion fails exactly when no line is a header line. Otherwise the sensors come out with strictly ascending ids, named `Sensor <id>`, with coefficients 1.0 |
| `Convert.ConvertSensorsSpec` | sensormodel.cpp:102-179 | every output sensor is `Sensor <id>` holding exactly the samples that the lines after the header give its id, in line order, and that series is never empty |
| `Convert.ConvertSensorsComplete` | sensormodel.cpp:143-179 | every id that some line after the header gives a sample appears among the output sensors |
| `Convert.SensorsComeFromHeader` | sensormodel.cpp:85-141 | every output sensor's id is carried by a mapped header column at index 1 or more |
| `Convert.ConvertTxtToJson` | sensormodel.cpp:56-194 | a document is written exactly when the input opens, some line is a header line, and the output opens. The document is an object with a `sensors` member |
| `Convert.ConvertThenLoad` | sensormodel.cpp:163-231 | loading what the conversion wrote gives the same sensors in the same order. Each keeps its id, its name and its number of samples, and each sample keeps its time, v1 and v2 |
| `Store.StoreRoundTrip` | sensormodel.cpp:163-182 | decoding an encoded sensor list keeps ids, names, sample order, times and raw values. Only the corrected values and coefficients are reset |
| `Store.ReloadStable` | sensormodel.cpp:209-231 | saving what was loaded and loading it again gives the same sensors |
| `Store.MissingFieldsDefault` | sensormodel.cpp:215-228 | a missing or mistyped `id` reads as 0, `name` as "", `data` as no samples, and `time`, `v1` or `v2` as 0.0 |
| `Store.Load` | sensormodel.cpp:196-233 | an unopenable file, invalid JSON or a non-object root leaves the model unchanged. Otherwise the sensor list is replaced wholesale, one sensor per `sensors` element: sensor `i` is element `i` read field by field, with `id` through `toInt`, `name` through `toString` and each sample through `toDouble`. Every loaded sensor has coefficients 1.0 and unassigned corrections. Nothing else in the model changes |
| `Store.NonObjectDefaults` | sensormodel.cpp:215-227 | an element or sample that is not an object reads as an empty `toObject()`, so every field takes its default |
| `Store.NonArraySensorsClears` | sensormodel.cpp:210-213 | a root object whose `sensors` member is missing or not an array leaves the model empty |
| `Store.LoadKeepsInitialBounds` | sensormodel.h:81-85 | after loading into a fresh model, the bounds are still 0, 10, 0 and 100, and the global reference is still 0 |
| `ListModel.RowCount` | sensormodel.cpp:16-19 | the list is flat: the root reports one row per sensor, and a valid index reports no rows beneath it |
| `ListModel.Data` | sensormodel.cpp:21-33 | `data` answers exactly for a valid index whose row is inside the model and for one of the three roles. It returns that row's id or name for the id and name roles |
| `ListModel.DataAnswersExactlyBelowRowCount` | sensormodel.cpp:16-33 | a row answers the id, name and data roles exactly when it is below the row count reported for the root |

## Left out

- File I/O is not modelled. Three parameters stand in for it:
  - `ConvertTxtToJson`'s input is `None` when the text file cannot be opened;
  - `outputWritable` says whether the store file can be opened for writing;
  - `StoreRead` says whether the store file opened and parsed.
- Line reading with `QTextStream` is not modelled: the input is already a sequence of lines without terminators.
- JSON text is not modelled: `QJsonDocument::toJson` and `fromJson` come from a library. The model passes an abstract tree.
- The tree has one number kind, `real`. There is no separate integer kind, no NaN and no infinity.
- Number parsing and formatting are not modelled: `toDouble` is the parameter `parse`, and values are unbounded reals.
- Strings are sequences of Unicode scalar values. UTF-16 surrogate pairs are not modelled.
- `IsSpace` lists the Unicode separators by hand instead of reading Qt's character tables.
- `generateReport` is not modelled: it resolves a path and writes a CSV file.
- `roleNames` and the `QVariant` wrapping in `data` are presentation glue. The data role's sample list is modelled only by its shape, the store's `{time, v1, v2}` objects.
- The reset notifications (`beginResetModel`, `endResetModel`) and the `dataRangeChanged` signal are not modelled.
- The following members are declared in `sensormodel.h` but have no body in the source, so there is nothing to model:
  - `preCalculateCalibration` and `safeDivide`;
  - `calculateRanges`;
  - `importFromTxt`, `exportToCsv` and `exportToJson`;
  - `fillSeries` and `getSensorStats`;
  - `loadResultsFile` and `parseJsonInternal`.
- Of `main.cpp`, only the convert-then-load composition is modelled (`Convert.ConvertThenLoad`). File-existence checks and the Qt Quick window are not.
- Logging (`qWarning`, `qInfo`) is not modelled.
- `Convert.ConvertThenLoad`: the round trip is proved only for finite values, the only ones the model's reals have. In the source, `toDouble` can yield an infinity or NaN (sensormodel.cpp:120, 133). `toJson` writes a non-finite double as `null` (sensormodel.cpp:189), and the loader reads that back as 0.0 (sensormodel.cpp:225-227). So such a sample would not survive the round trip.
- `ListModel.Data`: its contract does not spell out the data role's sample list, only that the role answers.
