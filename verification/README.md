# rompy-xbeach wave boundary and forcing files, in Dafny

This project models the part of rompy-xbeach that turns one station time
series into XBeach JONSWAP wave-boundary input. It also models the small
auxiliary forcing-file classes. The station series is the one selected at
the offshore boundary point.

**Wave boundary (`src/rompy_xbeach/boundary.py`).**

- **Schema check.** `validate_coords` checks that the source has time and
  site dimensions. It also checks that x and y are data variables and not
  dimensions, so the source is a set of stations and not a grid.
- **Range check.** `_validate_time` checks that the requested interval lies
  within the source's times.
- **Padding.** `_adjust_time` crops the series to `[start, end]`. It then
  splices an interpolated sample onto each end whose time the series lacks.
- **Parameter table.** `_calculate_stats` builds a table of hm0, tp,
  mainang, gammajsp and the spreading coefficient s. The spectral variant
  renames the statistics. The parametric variant takes each parameter from
  a named variable or a constant. `dspr_to_s` derives s from the
  directional spread.
- **One record per time.** `_instantiate_boundary` builds one JONSWAP
  record from a one-time slice. It refuses a NaN parameter and names the
  record `jons-%Y%m%dT%H%M%S.txt`.
- **Emission.** `get` runs in one of two modes:
  - single-file mode writes one record at the start of the range;
  - sequence mode writes one record per padded time but the last, plus the
    `FILELIST` index that `_write_filelist` writes.
- **Result.** A `BCFile` reference is returned as a one-key namelist.

**Forcing files (`src/rompy_xbeach/components/forcing.py`).**

- the equal-length validator of `BaseFile`, its length, its column-stacked
  table and its output path;
- the `WindFile` namelist;
- the bounds, namelist and `write` of `Wind`.

**Modules.**

| file | module | models |
|---|---|---|
| `wrappers.dfy` | `Wrappers` | `Option` and `Result` with failure propagation |
| `errors.dfy` | `Errors` | the exceptions raised, one variant per cause |
| `series.dfy` | `Series` | a dataset along one time index: crop, select by time, interpolate one row, concatenate |
| `timestamp.dfy` | `Timestamp` | instants as whole seconds since 1970-01-01, the Gregorian calendar, and `%Y%m%dT%H%M%S` |
| `bcfile.dfy` | `BCFiles` | `BCFile`: its validator and `namelist` |
| `station.dfy` | `Station` | `validate_coords`, `_validate_time`, `_adjust_time` |
| `stats.dfy` | `Stats` | `dspr_to_s` and both `_calculate_stats` variants, as evidently intended |
| `text.dfy` | `Text` | lines and blank-separated fields, used to read the file list back |
| `jons.dfy` | `Jons` | `_instantiate_boundary`, `_write_filelist`, `get` |
| `forcing.dfy` | `Forcing` | `BaseFile`, `WindFile`, `Wind` |
| `findings.dfy` | `Findings` | the parametric `_calculate_stats` exactly as written, and where it fails |

**Form of the model.** The pure parts are functions and lemmas. Code that
works step by step is a method with a loop or a sequence of rebinding
statements. Each such method is proved equal to the function that
specifies it, and the properties are proved as lemmas about that function.
The methods are:

- `Station.AdjustTimeSteps`
- `Stats.CalculateParamStats`
- `Jons.InstantiateBoundary`
- `Jons.WriteFilelist`
- `Jons.RecordLoop`
- `Jons.Get`
- `Forcing.Data`

**Values and errors.** A data value is a finite real, NaN or an infinity.
Interpolation is a parameter of the model, and so is the `%g` formatter.
Each exception of the source is an `Errors.Error` value returned in a
`Result`.

**Where the code and its documented intent disagree, the model follows the
code**, with one exception. For the parametric `_calculate_stats`, the
pipeline uses the evidently intended table (`Stats.ParamStats`). The code as
written is modelled beside it in `Findings`, and its two defects are the rows
under "## Findings".

- A zero directional spread gives s = +inf (`Stats.DsprToS`). The
  documented intent is that it should raise. The code's NaN test does not
  catch infinity, so a record holding s = inf is built.
- A `BCFile` with both a boundary file and a file list is accepted, and the
  file list wins (`BCFiles.NamelistHasOneKey`). The documented intent is
  exactly one of the two.
- A reversed range (`start > end`) passes `_validate_time` whenever both
  ends lie in the source's span. Only the range checks are modelled for it.
- A zero-length range at a time the series lacks is padded to that time
  twice. Selecting a time label on an index with a repeated time is
  refused, so sequence mode fails at its first selection
  (`Jons.EmitSequenceDegenerate`). It never reaches the one-time check of
  `_instantiate_boundary`.

## Model

| member | source | states |
|---|---|---|
| Station.ValidateCoords | src/rompy_xbeach/boundary.py:177-197 | accepted exactly when t and s are dimensions, x and y are not dimensions, and x and y are data variables; the first failing check, in the order t, s, x, y, decides the error |
| Station.ValidateTime | src/rompy_xbeach/boundary.py:219-226 | accepted exactly when the time coordinate is listed and the source's first time is at or before start and its last at or after end; a missing time coordinate and an out-of-range interval each give their own error, and the out-of-range error reports both intervals |
| Station.AdjustTimeSteps | src/rompy_xbeach/boundary.py:123-131 | cropping and then rebinding the output through the two conditional concatenations yields the padded series: the padded time index, and each variable's column padded the same way |
| Station.AdjustTimeLength | src/rompy_xbeach/boundary.py:123-131 | the padded series has as many times as the source has in `[start, end]`, plus one for each endpoint the source lacks |
| Station.AdjustTimeEndpoints | src/rompy_xbeach/boundary.py:123-131 | for `start <= end` the padded series is non-empty, begins at start and ends at end |
| Station.AdjustTimeIncreasing | src/rompy_xbeach/boundary.py:123-131 | for `start < end` the padded series is strictly increasing |
| Station.AdjustTimeKeepsSamples | src/rompy_xbeach/boundary.py:123-131 | every source sample inside `[start, end]` survives with its time and all its values unchanged, at its source position less the rows cropped off the front, plus one when the start was spliced |
| Station.AdjustTimeSynthetic | src/rompy_xbeach/boundary.py:126-131 | a padded row whose time the source lacks sits at start or end and holds the interpolated value of every variable there |
| Station.AdjustTimeWithinSpan | src/rompy_xbeach/boundary.py:124-131 | after a successful range check every padded time lies within the source's span, so the extrapolation setting is never exercised |
| Stats.DsprToS | src/rompy_xbeach/boundary.py:40-54 | s is NaN exactly when the spread is NaN, and infinite (positive) exactly when the spread is zero |
| Stats.DsprToSInverse | src/rompy_xbeach/boundary.py:54 | for a nonzero spread, s is finite and above -1, and (s + 1) times the squared spread in radians is 2, so s determines the spread up to sign |
| Stats.DsprToSSymmetric | src/rompy_xbeach/boundary.py:54 | the sign of the spread does not change s |
| Stats.DsprToSDecreasing | src/rompy_xbeach/boundary.py:54 | a wider positive spread gives a strictly smaller s |
| Stats.SpectralStats | src/rompy_xbeach/boundary.py:429-431 | the spectral table keeps the statistics' time index; its columns are stated by SpectralStatsRenames |
| Stats.SpectralStatsRenames | src/rompy_xbeach/boundary.py:429-431 | hs, dpm and gamma reappear as hm0, mainang and gammajsp with their values unchanged, tp and dspr keep their names, s is the only addition, and s is `dspr_to_s` of the spread at every time |
| Stats.Column | src/rompy_xbeach/boundary.py:520-523 | a parameter's column fails exactly when it names a variable the source lacks, with that name; otherwise it has one value per time |
| Stats.ParamStatsFailure | src/rompy_xbeach/boundary.py:518-528 | the parametric table fails exactly when some setting names a missing variable, and then with the first such name in the order hm0, tp, mainang, gammajsp, dspr |
| Stats.ParamStatsTable | src/rompy_xbeach/boundary.py:518-528 | a built table runs along the source's times, holds nothing but the four parameters and s, and holds each of the four exactly when it is set |
| Stats.ParamStatsColumn | src/rompy_xbeach/boundary.py:519-523 | a set parameter named after a variable copies that variable, and a constant one holds the constant at every time |
| Stats.ParamStatsS | src/rompy_xbeach/boundary.py:524-528 | s is present exactly when dspr is set, and is then `dspr_to_s` of the named variable, or of the constant, at every time |
| Stats.CalculateParamStats | src/rompy_xbeach/boundary.py:518-529 | filling the table parameter by parameter, then adding s, gives the parametric table or its first failure |
| Stats.ParamStats | src/rompy_xbeach/boundary.py:518-529 | the intended parametric table runs along the source's times; its failure, columns and s are stated by ParamStatsFailure, ParamStatsTable, ParamStatsColumn and ParamStatsS |
| Stats.StatsOf | src/rompy_xbeach/boundary.py:374-381 | `_calculate_stats` of either variant keeps the time index of the data it is given |
| Stats.CalculateStats | src/rompy_xbeach/boundary.py:374-381 | dispatching on the variant, step by step, gives that variant's table or its failure |
| Jons.BcfileNameInjective | src/rompy_xbeach/boundary.py:348 | two instants with the same record file name are the same instant |
| Jons.BcfileNamePlain | src/rompy_xbeach/boundary.py:348 | a record file name holds no blank and no line break, so it stays one field of one line of the file list |
| Jons.BcfileName | src/rompy_xbeach/boundary.py:348 | the record file name `jons-<stamp>.txt`; what it guarantees is stated by BcfileNameInjective and BcfileNamePlain |
| Jons.Instantiated | src/rompy_xbeach/boundary.py:339-349 | a built record comes from data holding exactly one time and is named after that time |
| Jons.InstantiatedPolicy | src/rompy_xbeach/boundary.py:339-349 | a record is built exactly when the data holds one time and no present parameter is NaN; it then holds exactly the present parameters with their values and the frequency settings; otherwise the error is the size, or the first NaN parameter with the time |
| Jons.InstantiateBoundary | src/rompy_xbeach/boundary.py:339-349 | the loop collecting keyword arguments parameter by parameter builds the record the policy describes, or raises its error |
| Jons.Filelist | src/rompy_xbeach/boundary.py:323-328 | the file list is written to `filelist.txt` in the output directory |
| Jons.FilelistLayout | src/rompy_xbeach/boundary.py:323-328 | the file holds `FILELIST` and then one line per zipped (file, duration) pair, 1 + min(#files, #durations) lines in all; line i + 1 splits at its blanks into the formatted duration, the formatted timestep and file i's base name; it fails exactly when there is a line to write and the timestep is unset |
| Jons.FilelistReadsBack | src/rompy_xbeach/boundary.py:323-328 | reading the written text back line by line gives the lines that were written |
| Jons.WriteFilelist | src/rompy_xbeach/boundary.py:323-328 | writing the header and then one line per pair in a loop produces the file list above |
| Jons.DurationsTelescope | src/rompy_xbeach/boundary.py:385-391 | the durations between consecutive times add up to the last time minus the first |
| Jons.DurationsPositive | src/rompy_xbeach/boundary.py:385-391 | on an increasing series every duration is positive |
| Jons.RecordsElements | src/rompy_xbeach/boundary.py:385-389 | the record sequence is built exactly when every time but the last gives a record, and keeps them in order; otherwise it stops with the error of the first time refused |
| Jons.RecordOfSequence | src/rompy_xbeach/boundary.py:385-389 | record i of a built sequence is the record for time i and is named after that time |
| Jons.RecordAtRow | src/rompy_xbeach/boundary.py:387-388 | on an index without repeated times, the record for time i is refused exactly when a present parameter is NaN at row i, and otherwise holds exactly row i's parameters |
| Jons.RecordNamesDistinct | src/rompy_xbeach/boundary.py:385-389 | on an index without repeated times the records of a sequence have pairwise distinct file names |
| Jons.RecordAt | src/rompy_xbeach/boundary.py:387-388 | on a time index that repeats a time, every record is refused with the non-unique-index error; a built record comes from an index without repeats and is named after time i |
| Jons.Records | src/rompy_xbeach/boundary.py:385-389 | a built record sequence has one record per time but the last; its elements and refusals are stated by RecordsElements |
| Jons.RecordsOfNonUniqueIndex | src/rompy_xbeach/boundary.py:385-387 | a table whose time index repeats a time is refused with the non-unique-index error, whatever its values |
| Jons.InstantiateAt | src/rompy_xbeach/boundary.py:387-388 | selecting the i-th time and instantiating it, step by step, gives the i-th outcome of the sequence |
| Jons.RecordLoop | src/rompy_xbeach/boundary.py:383-391 | the loop over consecutive time pairs yields the record sequence or its first refusal, together with the path of every record and the duration to the next time |
| Jons.EmitRefusals | src/rompy_xbeach/boundary.py:371-380 | without a time range `get` fails, and with cropping on, a range outside the source is refused with the range check's error |
| Jons.EmitModes | src/rompy_xbeach/boundary.py:372-393 | a file list is written exactly when `filelist` is true, and the namelist is then `{filelist: filelist.txt}`; otherwise the namelist names the one record written |
| Jons.EmitSingleShape | src/rompy_xbeach/boundary.py:372-377 | single-file mode writes one record, named after the start of the range, and returns that name |
| Jons.EmitSequence | src/rompy_xbeach/boundary.py:378-393 | a sequence-mode emission writes `filelist.txt` in the output directory and returns `{filelist: filelist.txt}`; its records and lines are stated by the EmitSequence lemmas below |
| Jons.EmitSequenceRecords | src/rompy_xbeach/boundary.py:380-389 | sequence mode writes one record fewer than the padded series has times, record i named after padded time i, the first after the start of the range |
| Jons.EmitSequenceNames | src/rompy_xbeach/boundary.py:385-389 | for `start < end` the records have distinct names and none is named after the end of the range |
| Jons.EmitSequenceIndex | src/rompy_xbeach/boundary.py:383-392 | for `start < end` the file list has the header plus one line per record, there is one duration per record, and the timestep must be set |
| Jons.EmitSequenceLines | src/rompy_xbeach/boundary.py:383-392 | for `start < end` line i + 1 of the file list reads back as the duration from padded time i to the next, the timestep and record i's name |
| Jons.EmitSequenceDurations | src/rompy_xbeach/boundary.py:385-391 | for `start < end` the durations are positive and add up to end minus start |
| Jons.EmitSequenceDegenerate | src/rompy_xbeach/boundary.py:380-388 | a zero-length range at a time the series lacks is refused in sequence mode: the padded index repeats that time, so its first label selection fails |
| Jons.Emit | src/rompy_xbeach/boundary.py:351-393 | an emission succeeds only with a time range and, when cropping, a range that passes the range check; its refusals and modes are stated by EmitRefusals and EmitModes |
| Jons.EmitSingle | src/rompy_xbeach/boundary.py:372-377 | a single-file emission writes one record, no file list, and returns `{bcfile: <that record's name>}`; the name is stated by EmitSingleShape |
| Jons.Get | src/rompy_xbeach/boundary.py:351-393 | `get` run step by step (range check, then the single-file branch or the padding, table, record loop and file list) produces the emission of either mode or the first error |
| BCFiles.Namelist | src/rompy_xbeach/boundary.py:75-81 | the namelist of a valid reference has exactly one key, and it is `filelist` exactly when a file list is set |
| BCFiles.NewBCFile | src/rompy_xbeach/boundary.py:69-73 | a reference is accepted exactly when it names a boundary file or a file list, and is kept as given |
| BCFiles.NamelistHasOneKey | src/rompy_xbeach/boundary.py:75-81 | an accepted reference yields a one-key namelist: `filelist` with the file list's base name whenever one is set, even beside a boundary file, and otherwise `bcfile` with the boundary file's base name |
| Timestamp.StampInjective | src/rompy_xbeach/boundary.py:348 | distinct instants have distinct `%Y%m%dT%H%M%S` stamps |
| Timestamp.StampCharacters | src/rompy_xbeach/boundary.py:348 | a stamp holds only digits, the `T` and, before a negative year, a minus sign |
| Timestamp.Stamp | src/rompy_xbeach/boundary.py:348 | `%Y%m%dT%H%M%S`: at least fifteen characters, with the `T` seventh from the end, before the six clock digits |
| Timestamp.StampExample | src/rompy_xbeach/boundary.py:348 | 1704069000 seconds after the epoch is stamped `20240101T003000` |
| Timestamp.CivilRoundTrip | src/rompy_xbeach/boundary.py:340 | converting a day count to a calendar date and back gives the day count |
| Timestamp.DateTimeRoundTrip | src/rompy_xbeach/boundary.py:340 | converting an instant to date and clock time and back gives the instant |
| Forcing.SizesMatch | src/rompy_xbeach/components/forcing.py:33-36 | checking each column in turn succeeds exactly when every column has the given length |
| Forcing.SameSizes | src/rompy_xbeach/components/forcing.py:31-40 | a file is accepted unchanged exactly when every parameter column has as many entries as the file's length (`__len__`, its number of times), and refused with the size error otherwise |
| Forcing.TableRows | src/rompy_xbeach/components/forcing.py:43-47 | the table has one row per time; row i is the time followed by every parameter's entry i, in declared order |
| Forcing.Table | src/rompy_xbeach/components/forcing.py:43-47 | the table has one row per time, each with the time and one entry per parameter; the entries are stated by TableRows |
| Forcing.TableColumns | src/rompy_xbeach/components/forcing.py:43-47 | column 0 of the table is the times and column j + 1 is the j-th parameter, so stacking loses nothing |
| Forcing.Data | src/rompy_xbeach/components/forcing.py:44-47 | appending the parameter columns in a loop and stacking them yields the table above |
| Forcing.Write | src/rompy_xbeach/components/forcing.py:54-58 | the table, in the file's number format, goes to the file's own name in the output directory, and that path is returned |
| Forcing.NewWindFile | src/rompy_xbeach/components/forcing.py:86-99 | a wind file is accepted exactly when speed and direction each have one entry per time, and refused with the size error otherwise |
| Forcing.WindFileNamelist | src/rompy_xbeach/components/forcing.py:101-104 | the namelist has the single key `windfile` |
| Forcing.WindFileNamelistNamesOutput | src/rompy_xbeach/components/forcing.py:101-104 | the namelist names the file `write` produces, whatever the output directory, and the rows written are time, speed and direction |
| Forcing.NewWind | src/rompy_xbeach/components/forcing.py:61-71 | a wind is accepted exactly when its speed is non-negative and its direction lies in [-180, 360]; a refusal lists exactly the fields out of bounds |
| Forcing.WindNamelist | src/rompy_xbeach/components/forcing.py:73-79 | the speed and direction under `windv` and `windth`; stated by WindNamelistRoundTrip |
| Forcing.WindWrite | src/rompy_xbeach/components/forcing.py:81-83 | `write` writes nothing and returns the namelist; stated by WindNamelistRoundTrip |
| Forcing.WindNamelistRoundTrip | src/rompy_xbeach/components/forcing.py:73-83 | `write` returns exactly the speed and direction for every output directory, and constructing a wind from them gives the same wind back |
| Findings.ColumnAsWritten | src/rompy_xbeach/boundary.py:519-523 | as written, building a column fails exactly when the setting names a missing variable; a column along time has one value per time, and a column laid on its own axis has one cell per time |
| Findings.ParamStatsAsWritten | src/rompy_xbeach/boundary.py:518-529 | as written, all four parameters get a column whether set or not, and s is present exactly when dspr is set |
| Findings.CellAsWritten | src/rompy_xbeach/boundary.py:344-347 | as written, the NaN test lets a value through only for a parameter present in the table, and never a NaN; a parameter absent from the table is skipped |
| Findings.RecordAsWritten | src/rompy_xbeach/boundary.py:339-348 | as written, a record is built only from a table with a time index that repeats no time, is named after the selected time, and holds only JONSWAP parameters, none of them NaN; a time index with a repeat refuses it with the non-unique-index error |
| Findings.DefaultSettingsRefused | src/rompy_xbeach/boundary.py:472-523 | as written, the declared defaults (hm0, tp, mainang from `hs`, `tp`, `dpm`; gammajsp and dspr unset) refuse every record of a source whose `hs`, `tp` and `dpm` hold numbers at that time |
| Findings.UnsetGammaRefused | src/rompy_xbeach/boundary.py:522-523 | as written, an unset gammajsp makes every record of an otherwise clean row fail the NaN test |
| Findings.ConstantGammaAmbiguous | src/rompy_xbeach/boundary.py:523 | as written, a constant gammajsp makes every record of a clean row of a series of two or more times fail with an ambiguous truth value |
| Findings.ConstantGammaSingleTime | src/rompy_xbeach/boundary.py:523 | as written, a constant gammajsp still reaches the record's keyword arguments, with its value, when the table holds a single time |
| Findings.UnsetGammaOmitted | src/rompy_xbeach/boundary.py:519-523 | intended: with gammajsp unset, the record of a clean row is built, leaves gammajsp out and holds the source's hm0 |
| Findings.ConstantGammaBroadcast | src/rompy_xbeach/boundary.py:519-523 | intended: a constant gammajsp is repeated along time, so the record of every clean row holds it |

## Left out

- Jons.Get: `get` is modelled with the evidently intended parametric table (`Stats.ParamStats`). The code as written refuses every record under the default settings (see "## Findings" and `Findings.DefaultSettingsRefused`).
- Station.AdjustTimeLength, Station.AdjustTimeEndpoints, Station.AdjustTimeIncreasing, Station.AdjustTimeKeepsSamples and the other padding lemmas assume a strictly increasing time index. On an unsorted index, pandas slices by position between the two labels, or raises KeyError when a bound is absent. `Series.Crop` slices between the number of times before the start and the number at or before the end, which is the label slice only on a sorted index.
- The source hard-codes the dimension name `time` at boundary.py lines 123, 125, 222, 340, 382, 387, 523 and 528. The coordinate check, the interpolation and the concatenation use `coords.t` instead. With `coords.t` other than `time`, those lines raise. The model keeps one time index whatever `coords.t` is, and raises nothing for it.
- Stats.Setting: a constant holds a real number, so a NaN or infinite constant setting, which the float field accepts, cannot be expressed. A NaN constant would give a NaN column that the NaN test refuses.
- Spatial selection and reprojection (`_boundary_points`, `_sel_boundary`) are not modelled. The selected station series is an input of the model.
- `_filter_time` and `time_buffer` from the `DataGrid` base are not part of this model, so cropping before selection is not modelled. Only the range check that precedes it is.
- The numerics of `ds.spec.stats` are left out. The spectral statistics are a parameter with one postcondition: they return exactly hs, tp, dpm, gamma and dspr along the input's times.
- The numerics of `xarray.interp` are left out. Interpolation is a parameter `(name, instant) -> value`. Single-file mode's interpolation without extrapolation is modelled by giving NaN outside the series' span.
- Floating point is modelled with real numbers. `radians` scales by the double nearest to pi. Rounding of `2 / radians(dspr)**2 - 1` is not modelled.
- The digits of `%g` formatting are left out. The formatter is a parameter that never writes a blank or a line break.
- Times are whole seconds since 1970-01-01. Sub-second parts and time zones are not modelled.
- Timestamp.Stamp: the years a Python datetime cannot hold are given a sign and at least four digits. It is not modelled that the source would raise for them.
- File I/O is not modelled. The model returns what would be written: the records, the file list's lines and the table with its format. Files written before a later error stay on disk in the source. The model returns only the error.
- `WaveBoundaryJons` lives in `components/boundary.py`, which is not part of this model. A record is modelled by its file name, frequency settings and parameters. Its `write` is taken to put it under its own name in the output directory.
- Path joining is modelled as a directory and a base name. Pathlib's replacement of the directory by an absolute file name is not modelled.
- The copy of `_write_filelist` in `BoundaryStationSpectraJons` (boundary.py:433-456) is identical to lines 305-328 and is modelled once.
- `_validate_source_wavespectra` depends on the source reader, so it is not modelled.
- `BCFile.write`, which only raises `NotImplementedError`, is not modelled.
- The abstract `BaseFile.namelist`, which returns `None`, is not modelled.
- Pydantic plumbing and logging are not modelled.
- The declared bounds of `fnyq` (0.2 to 1.0) and `dbtc` (0.1 to 2.0) are not modelled. The model takes those settings as given.
- `Forcing.NewWind`: NaN and infinite inputs are not modelled, because the wind fields are real numbers.
- `TideFile` is left out. Its validator, `data` and `namelist` use fields it does not define, so it cannot be constructed as written.
- Findings.RecordAsWritten: a table without any column along time has no time index, so selecting by time fails (`NoTimeIndex`). Which exception xarray raises there is not modelled.
- Findings.CellAsWritten: a column of several `None`s fails on the `None`s (`np.isnan` raises before `not` reaches the truth test). The exception types are not modelled, only which check fails.

## Findings

| source | as written | input that shows it | evidently intended | confidence | as-written member | corrected member |
|---|---|---|---|---|---|---|
| src/rompy_xbeach/boundary.py:522 | `elif isinstance:` tests the built-in function itself, which is always true. So an unset gammajsp is stored as `[None] * n`, and `np.isnan` at line 344 raises on those `None`s. | The declared defaults (`Stats.DefaultParams`: gammajsp and dspr unset, hm0, tp and mainang read `hs`, `tp` and `dpm`) on a source whose `hs`, `tp` and `dpm` hold numbers. Every record, in either mode (Findings.DefaultSettingsRefused). | Only a numeric setting is broadcast, as the dspr branch at line 527 does. An unset gammajsp is left out of the table and of the record. | not executed | Findings.UnsetGammaRefused | Findings.UnsetGammaOmitted |
| src/rompy_xbeach/boundary.py:523 | `stats[param] = [c] * ds.time.size` assigns a plain list. xarray lays the list along a new dimension named after the parameter, not along time. `stats.sel(time=[t0])` then keeps all n copies, and `not np.isnan(...)` at line 344 meets n values and raises. Line 528 does the same for a constant dspr. | Sequence mode with gammajsp = 1.0. The padded series has at least two times, and the other parameters are clean at the selected time. | The constant is repeated along the time dimension, so each record holds it once. | not executed | Findings.ConstantGammaAmbiguous | Findings.ConstantGammaBroadcast |
