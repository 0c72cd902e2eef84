# Records: a verified model of the Tax-Calculator sample loader and extrapolator

This project models the `Records` class of `taxcalc/records.py`. A `Records` object holds
one sample of tax-filing units as typed arrays, one per variable of a fixed schema.

- **Construction.** The constructor:
  - reads the sample table and sorts its columns into read, ignored, and zero-filled variables;
  - derives `_num`, `_sep`, `_exact` and `ID_Casualty_frt_in_pufcsv_year`;
  - checks three split-earnings identities and the dividend identity, within an absolute tolerance of 0.001;
  - reads the blowup-factor table `BF`, normalised to per-head growth rates;
  - reads the weight table `WT`, fitted to the sample when the sizes differ;
  - sets the start year and fills `FLPDYR` with it;
  - applies the hand-written 2009 factors in the PUF year;
  - takes `s006` from the year's weight column.
- **`increment_year`.** Moves to the next year, grows 64 monetary arrays by that year's factors, and reweights.
- **`set_current_year`.** Only sets the year and `FLPDYR`.
- **`zero_out_changing_calculated_vars`.** Resets the calculated arrays that a tax calculation overwrites.

## Module layout

| File | Module | What it holds |
|---|---|---|
| `schema.dfy` | `Schema` | The schema registry as constants: usable, integer, must-read and calculated variables. |
| `columns.dfy` | `Columns` | Typed columns (`Ints` or `Reals`) and the element-wise operations on them. |
| `inputs.dfy` | `Inputs` | The constructor's arguments as values, and the error taxonomy `LoadError`. |
| `loader.dfy` | `Loader` | `_read_data`: label classification, typing, zero filling and the derived arrays. |
| `validation.dfy` | `Validation` | The constructor's consistency checks. |
| `factors.dfy` | `Factors` | `_read_blowup`'s normalisation and the 2009 factor row. |
| `blowup.dfy` | `Blowup` | `_blowup`: the growth rule of each variable and its effect on the arrays. |
| `weights.dfy` | `Weights` | `_read_weights`, the fitting of `WT` to the sample, and the `WT<year>` reweighting. |
| `records.dfy` | `RecordsModel` | The state machine and the class `Records` with its methods. |
| `records_facts.dfy` | `RecordsFacts` | Properties of the year controller and the constructor that relate several steps. |

**How the class is modelled.**
- The object's attributes form one value `RecordsState`.
- The class `Records` keeps those attributes as fields. The object's dynamically named arrays become one field `vars`, a map from schema variable to column.
- Each class method changes its fields, and its `ensures` ties the new state to a function of the old one. The functions are `WithYear`, `BlownUp`, `NextYear`, `WithWeights`, `ChangingZeroed`, `Bootstrap2009`, `Loaded`, `TablesRead`, `Started` and `Construct`.
- The lemmas state what those functions promise.
- Every method keeps the class invariant `Valid` (`ValidState`): one array per schema variable, typed and sized as the schema says, and a weight table that is empty or has one row per record.

**Naming.**
- Python names that start with an underscore lose it: `_num` becomes `num`, `_exact` becomes `exact`.
- The schema variables are an enumeration, and column labels are `Schema(var)` or `Unrecognised(text)`.

**Behaviour worth knowing.**
- **Dividends.** The dividend check is `allclose(e00600, e00650 + max(0, e00600 - e00650))`. That says qualified dividends exceed ordinary dividends by at most 0.001, not `e00600 >= e00650` exactly (`Validation.DividendsHoldIff`).
- **Business splits.** The wage split (`e00200` = `e00200p` + `e00200s`) and the farm split (`e02100` = `e02100p` + `e02100s`) survive `_blowup`, because each triple shares one factor (`Blowup.SplitPreserved`). The business split `e00900` = `e00900p` + `e00900s` can break: each part picks its gain or loss factor by its own sign (`Blowup.BusinessSplitNotPreserved`).
- **2009 bootstrap.** The bootstrap writes 21 factor values (lines 517-537).
- **Start year.** A start year that is not an integer is refused only after the data has been checked and both tables have been read. An earlier error therefore takes precedence.
- **Failed `increment_year`.** When the blowup fails, `increment_year` has already advanced the year. The failed call leaves the object in the new year with its arrays unchanged (`RecordsFacts.NextYearOutcome`).

## Model

| member | source | states |
|---|---|---|
| `Schema.UsableCoversInputs` | taxcalc/records.py:96-124 | Every input variable of the model is in USABLE_READ_VARS. |
| `Schema.CalculatedCoversCalcs` | taxcalc/records.py:139-168 | Every calculated variable of the model is in CALCULATED_VARS. |
| `Schema.AllVarsComplete` | taxcalc/records.py:96-168 | Every schema variable is usable-read or calculated. |
| `Columns.TruncateTowardZero` | taxcalc/records.py:383-384 | `astype(np.int64)` of a real x lies in [x-1, x] for x >= 0 and in [x, x+1] for x < 0: truncation toward zero. |
| `Columns.AsInts` | taxcalc/records.py:383-384 | The integer conversion of a column keeps its length and truncates each entry. |
| `Columns.AsReals` | taxcalc/records.py:386-387 | The float conversion of a column keeps its length and every value. |
| `Columns.ZeroColumn` | taxcalc/records.py:398-404 | `np.zeros(dim, dtype)`: `dim` zeros, integer exactly when asked. |
| `Columns.ZeroLike` | taxcalc/records.py:439-441 | `fill(0.)` gives zeros of the column's own type and length. |
| `Columns.Scaled` | taxcalc/records.py:281-289 | `x *= f`: every entry times f, same length. |
| `Columns.SignScaled` | taxcalc/records.py:290-298 | `np.where(x >= 0, x * gain, x * loss)`: each entry picks its factor by its own sign. |
| `Columns.SumScaled` | taxcalc/records.py:225-227 | Scaling a weight column by a constant scales its total by that constant. |
| `Columns.SignScaledCompose` | taxcalc/records.py:290-298 | With positive first-year factors, two sign-selected scalings equal one with the products of the gain factors and of the loss factors. |
| `Inputs.Locate` | taxcalc/records.py:455-460 | A path that is a file is read; otherwise the packaged resource is used. |
| `Loader.DataTableOf` | taxcalc/records.py:364-373 | A DataFrame or a CSV path gives its table; any other argument fails with DataNotTable. |
| `Loader.Converted` | taxcalc/records.py:382-387 | A read column keeps its length and is converted to the type the schema gives it. |
| `Loader.ReadVarsMembers` | taxcalc/records.py:377-381 | READ_VARS is exactly the set of schema input variables among the labels read so far. |
| `Loader.IgnoredLabelsMembers` | taxcalc/records.py:378-389 | IGNORED_VARS is exactly the set of labels read so far that are not usable. |
| `Loader.ReadColumnsMembers` | taxcalc/records.py:379-387 | The columns built so far are exactly those of READ_VARS, each converted and of length `dim`. |
| `Loader.ReadVarsIn` | taxcalc/records.py:379-381 | A variable is read iff its label occurs among the labels scanned. |
| `Loader.ReadColumnsAt` | taxcalc/records.py:379-387 | A variable has a read column iff its label occurs, and the column is that label's data converted. |
| `Loader.ReadColumnsInputs` | taxcalc/records.py:379-387 | The label loop creates input variables only. |
| `Loader.ZeroedVarsMembers` | taxcalc/records.py:395-396 | ZEROED_VARS is exactly CALCULATED_VARS plus the usable variables that were not read. |
| `Loader.NumColumn` | taxcalc/records.py:406-407 | `_num[i]` is 2 when MARS[i] is 2 and 1 otherwise. |
| `Loader.SepColumn` | taxcalc/records.py:408-409 | `_sep[i]` is 2 when MARS[i] is 3 or 6 and 1 otherwise. |
| `Loader.CasualtyFraction` | taxcalc/records.py:413-415 | With PUFCSV_YEAR before the reform year 9999, the casualty fraction is 0.10. |
| `Loader.ExactColumn` | taxcalc/records.py:411 | `_exact` is all 1 when exact calculations are requested, all 0 otherwise. |
| `Loader.CasualtyColumn` | taxcalc/records.py:415-416 | ID_Casualty_frt_in_pufcsv_year is 0.10 for every record. |
| `Loader.ReadColumnsHas` | taxcalc/records.py:379-387 | A read variable has a column of `dim` entries, integer exactly when it is in INTEGER_READ_VARS. |
| `Loader.ZeroFilledAt` | taxcalc/records.py:394-404 | After zero filling, every schema variable has a column: the read one, or zeros of the schema type. |
| `Loader.DerivedWritten` | taxcalc/records.py:405-416 | The derived step writes `_num`, `_sep`, `_exact` and the casualty array, and adds no other variable. |
| `Loader.ZeroFilledMars` | taxcalc/records.py:391-404 | When MARS must be read, its column survives zero filling unchanged. |
| `Loader.LoadedWellFormed` | taxcalc/records.py:358-416 | After `_read_data`, every schema variable has an array of `dim` entries, typed as the schema says. |
| `Loader.LoadedTyped` | taxcalc/records.py:358-416 | For each variable: present, integer iff in INTEGER_READ_VARS or INTEGER_CALCULATED_VARS, and of length `dim`. |
| `Loader.ZeroFilledTyped` | taxcalc/records.py:395-404 | Zero filling gives every variable a column of the schema's type and length `dim`. |
| `Loader.LoadedInput` | taxcalc/records.py:379-404 | A supplied input variable holds its converted data; a missing one holds zeros of its type. |
| `Loader.LoadedDerived` | taxcalc/records.py:406-416 | Per record: `_num` and `_sep` follow MARS, `_exact` follows the flag, and the casualty fraction is 0.10. |
| `Loader.LoadedCalculated` | taxcalc/records.py:394-404 | Every other calculated variable starts as float zeros. |
| `Loader.ZeroEach` | taxcalc/records.py:398-404 | The zeroing loop leaves every zeroed variable as zeros of its type and every other read column as read. |
| `Loader.ReadThenZeroed` | taxcalc/records.py:394-404 | The loop's result is the zero-filled map, whatever order the set is visited in. |
| `Validation.Plus` | taxcalc/records.py:189 | `p + s` element by element. |
| `Validation.OtherDividends` | taxcalc/records.py:199 | `np.maximum(0., e00600 - e00650)`: each entry is the larger of 0 and the difference, so it is non-negative, at least the difference, and equal to one of the two. |
| `Validation.AllCloseSumIff` | taxcalc/records.py:189-197 | `allclose(t, p + s, rtol=0, atol=0.001)` holds iff each record has `|t - (p + s)| <= 0.001`. |
| `Validation.DividendCloseIff` | taxcalc/records.py:199-201 | For one record, the dividend check passes iff `e00650 - e00600 <= 0.001`. |
| `Validation.DividendsHoldIff` | taxcalc/records.py:198-203 | The dividend check passes iff no record's qualified dividends exceed its ordinary dividends by more than 0.001. |
| `Validation.DividendsHoldAt` | taxcalc/records.py:198-203 | The dividend check passes iff it passes at every record. |
| `Validation.ConsistencyErrorNoneIff` | taxcalc/records.py:188-203 | The checks pass iff every record satisfies all three split identities and the dividend bound. |
| `Validation.ConsistencyErrorNames` | taxcalc/records.py:188-203 | The error names `e00200` iff the wage split fails. It names `e00900` iff wages pass and business income fails, and `e02100` iff both pass and farm income fails. It is the dividend error iff all three splits pass and the dividends fail. |
| `Factors.Deflated` | taxcalc/records.py:489-501 | The twelve per-capita factors are divided by APOPN and ASOCSEC by APOPSNR; other columns are kept. A zero denominator gives no value. |
| `Factors.Normalised` | taxcalc/records.py:489-502 | BF has a row for each year of the raw table. The first row is empty (pct_change gives NaN). Every other row is the growth relative to the previous row. BF is empty iff the raw table is. |
| `Factors.GrowthEntry` | taxcalc/records.py:502 | `1 + pct_change` of a deflated factor equals the ratio of this year's value to last year's. |
| `Factors.PerCapitaGrowth` | taxcalc/records.py:489-502 | A per-capita factor's growth is `(raw[y]/APOPN[y]) / (raw[y-1]/APOPN[y-1])`. |
| `Factors.SocialSecurityGrowth` | taxcalc/records.py:501-502 | The growth of ASOCSEC is `(raw[y]/APOPSNR[y]) / (raw[y-1]/APOPSNR[y-1])`. |
| `Factors.UndeflatedGrowth` | taxcalc/records.py:502 | A factor not divided by a population column grows by `raw[y] / raw[y-1]`. |
| `Factors.ReadBlowup` | taxcalc/records.py:466-503 | None gives an empty table, and a non-table fails. A path that resolves neither on disk nor in the package fails. A table is normalised. |
| `Factors.NormalisedChecked` | taxcalc/records.py:489-502 | Normalisation succeeds iff the table has every column it divides, and fails with FactorColumnsMissing otherwise. |
| `Factors.Bootstrapped` | taxcalc/records.py:516-537 | The bootstrap succeeds iff BF has every factor column. The 2009 row becomes the hand-written factors, and every other year's row is unchanged. |
| `Factors.AllFactorsListed` | taxcalc/records.py:517-537 | The bootstrap writes every factor column. |
| `Blowup.BlowupRule` | taxcalc/records.py:281-356 | Every growth rule uses only the sixteen factors read at lines 265-280. |
| `Blowup.SignRules` | taxcalc/records.py:290-306 | Exactly e00900, e00900p, e00900s and e02000 are grown by sign. e02000 uses ASCHEI/ASCHEL; the other three use ASCHCI/ASCHCL. |
| `Blowup.EveryFactorUsed` | taxcalc/records.py:265-356 | Each of the sixteen factors read is used by some variable's rule. |
| `Blowup.GrownColumn` | taxcalc/records.py:281-356 | Growing an array keeps its type and length. |
| `Blowup.Extrapolated` | taxcalc/records.py:281-356 | `_blowup` grows each variable by its own rule and keeps the set of variables. |
| `Blowup.ExtrapolatedWellFormed` | taxcalc/records.py:281-356 | `_blowup` keeps every array's type and length. |
| `Blowup.ExtrapolatedFrame` | taxcalc/records.py:281-356 | Calculated variables and inputs with no rule (MARS, RECID, s006, FLPDYR, ...) are unchanged. |
| `Blowup.UniformAt` | taxcalc/records.py:281-356 | A variable with a single factor has each entry multiplied by that factor (`Grow(x, f)` is `x * f`). |
| `Blowup.SignAt` | taxcalc/records.py:290-306 | A sign-grown entry is multiplied by the gain factor when it is >= 0 and by the loss factor otherwise. |
| `Blowup.SplitPreserved` | taxcalc/records.py:281-283 | When total and parts share one factor, the total's mismatch with its parts is scaled by that factor. So within the tolerance before means within tolerance times the factor after. |
| `Blowup.SplitFamilies` | taxcalc/records.py:281-309 | e00200 and its parts share AWAGE, e02100 and its parts share ASCHF, and e00900 is grown by sign. |
| `Blowup.BusinessSplitNotPreserved` | taxcalc/records.py:290-298 | With gain != loss, the record (0, 1, -1) satisfies `e00900 == e00900p + e00900s` before growth and violates it after. |
| `Blowup.BusinessFactors2009Differ` | taxcalc/records.py:290-298 | The e00900 family is grown by ASCHCI/ASCHCL, and the 2009 factors give those different values. |
| `Blowup.DividendOrderPreserved` | taxcalc/records.py:286-287 | e00600 and e00650 share ADIVS, so with ADIVS > 0, `e00650 <= e00600` survives growth. |
| `Blowup.ExtrapolatedCompose` | taxcalc/records.py:281-356 | Growing by year 1 then year 2 equals growing once by the factor products, when year 1's sign factors are positive. |
| `Blowup.GrownCompose` | taxcalc/records.py:281-356 | The same composition law for a single rule. |
| `Blowup.BlowupRow` | taxcalc/records.py:265-280 | The factor row of a year is found iff BF has all sixteen factor columns, a row for the year, and a defined value of each factor in it. AWAGE is read first: a missing column or year is reported for it. An undefined factor is reported as `FactorUndefined` (see Left out). |
| `Blowup.BootstrapBlowupRow` | taxcalc/records.py:516-538 | After the bootstrap, `_blowup(2009)` reads exactly the hand-written factors, and their sign factors are positive. |
| `Blowup.BlowupFactorsIn2009` | taxcalc/records.py:517-537 | The hand-written 2009 row has all sixteen factors `_blowup` reads. |
| `Weights.ReadWeights` | taxcalc/records.py:443-464 | None gives the empty placeholder table, and a table is kept. A path resolves on disk or in the package, or fails. Any other argument fails. |
| `Weights.Position` | taxcalc/records.py:212 | `iloc` with a label finds a row iff -rows <= label < rows. |
| `Weights.Positions` | taxcalc/records.py:212 | `iloc[index]` finds its rows iff every label of the index is in range, and then one row per label. |
| `Weights.Selected` | taxcalc/records.py:212 | The selected column holds, at each position, the entry of the row named there. |
| `Weights.Frac` | taxcalc/records.py:211 | `frac = dim / len(WT)` is positive for a non-empty sample. |
| `Weights.Fitted` | taxcalc/records.py:212-213 | The fitted table has one row per index label, the same columns, and equal-length columns. |
| `Weights.Rescaled` | taxcalc/records.py:210-213 | Rescaling fails iff some index label is not a row position. Otherwise it gives a table of `dim` rows, each entry the selected weight divided by `frac`. |
| `Weights.SizedToData` | taxcalc/records.py:210-213 | An empty table, or one already of `dim` rows, is kept. Any other table is `Rescaled` to the records, or fails as `Rescaled` does. A successful result is empty or has `dim` rows. |
| `Weights.FittedEntry` | taxcalc/records.py:211-213 | Each fitted weight times `frac` is the original weight of the record's row. |
| `Weights.FittedTotal` | taxcalc/records.py:211-213 | A fitted column's total times `frac` is the total of the selected weights. |
| `Weights.DigitsRoundTrip` | taxcalc/records.py:225 | Reading back the decimal digits of a year gives the year. |
| `Weights.DecimalRoundTrip` | taxcalc/records.py:225 | `'{}'.format(year)` parses back to the year, sign included. |
| `Weights.YearLabelRoundTrip` | taxcalc/records.py:225 | `'WT{}'.format(year)` parses back to the year. |
| `Weights.YearLabelInjective` | taxcalc/records.py:225 | Different years name different weight columns. |
| `Weights.Reweighted` | taxcalc/records.py:225-227 | With a `WT<year>` column, s006 becomes that column times 0.01. Without one nothing changes. No other variable changes in either case. |
| `Weights.ReweightedWellFormed` | taxcalc/records.py:245-247 | Reweighting keeps the schema typing. |
| `RecordsModel.Filled` | taxcalc/records.py:255 | `FLPDYR.fill(y)` keeps type and length and makes every entry y. |
| `RecordsModel.WithYear` | taxcalc/records.py:249-255 | `set_current_year(y)` sets the year and FLPDYR, and changes no other variable or attribute. |
| `RecordsModel.WithWeights` | taxcalc/records.py:245-247 | The weight step changes only the arrays. |
| `RecordsModel.BlownUp` | taxcalc/records.py:259-356 | `_blowup(year)` fails iff the factor row cannot be read, and then changes nothing. Otherwise it changes only the arrays. |
| `RecordsModel.ZeroChanging` | taxcalc/records.py:439-441 | The loop over CHANGING_CALCULATED_VARS yields `ChangingZeroed` of the arrays. |
| `RecordsModel.Bootstrap2009` | taxcalc/records.py:512-538 | The bootstrap writes the 2009 factors and grows every array by them once. It fails with BootstrapColumnsMissing when BF lacks a factor column. |
| `RecordsModel.InPufYear` | taxcalc/records.py:505-510 | The bootstrap runs in 2009 only; in any other year nothing changes. |
| `RecordsModel.ReadTable` | taxcalc/records.py:364-393 | Data that is not a table fails. A table without RECID and MARS fails with MissingMustReadVars. Otherwise the table is used. |
| `RecordsModel.TablesRead` | taxcalc/records.py:204-213 | A factor-table error is raised first, then a weights error, then the fitting error. On success BF is `ReadBlowup`'s table and WT is `SizedToData` of `ReadWeights`'s table: empty, or one row per record. |
| `RecordsModel.Started` | taxcalc/records.py:214-227 | A start year that is not an integer fails. Otherwise the year is set, and only the arrays and BF change. |
| `RecordsModel.Loaded` | taxcalc/records.py:186-203 | `_read_data` and the checks yield the loaded arrays, the data's size, index and ignored labels, and a valid state. Otherwise they yield the first check's error. |
| `RecordsModel.Records.ReadData` | taxcalc/records.py:358-416 | `_read_data` fails iff the table is absent or lacks RECID/MARS. Otherwise the object holds the loaded arrays, size, index and ignored labels. |
| `RecordsModel.Records.ReadLabels` | taxcalc/records.py:377-389 | The label loop builds READ_VARS, IGNORED_VARS and the read columns. |
| `RecordsModel.Records.ZeroUnread` | taxcalc/records.py:394-404 | The zeroing step leaves the zero-filled arrays and changes nothing else. |
| `RecordsModel.Records.WriteDerived` | taxcalc/records.py:405-416 | The derived arrays are written, and nothing else changes. |
| `RecordsModel.Records.SetCurrentYear` | taxcalc/records.py:249-255 | The new state is `WithYear(old, y)`. |
| `RecordsModel.Records.Blowup` | taxcalc/records.py:259-356 | The new state and error are those of `BlownUp(old, year)`. |
| `RecordsModel.Records.ApplyWeights` | taxcalc/records.py:245-247 | The new state is `WithWeights(old)`. |
| `RecordsModel.Records.IncrementYear` | taxcalc/records.py:236-247 | The new state and error are those of `NextYear(old)`. |
| `RecordsModel.Records.ZeroOutChangingCalculatedVars` | taxcalc/records.py:435-441 | Only the arrays change, to `ChangingZeroed(old arrays)`. |
| `RecordsModel.Records.Load` | taxcalc/records.py:186-203 | An empty object becomes `Loaded(data)` or reports its error. |
| `RecordsModel.Records.ReadTables` | taxcalc/records.py:204-213 | Either BF and WT become `TablesRead`'s tables, or its error is reported and nothing changes. |
| `RecordsModel.Records.Start` | taxcalc/records.py:214-227 | The new state is `Started(old, start_year)`, or its error is reported. |
| `RecordsModel.Records.Extrapolate2009Puf` | taxcalc/records.py:512-538 | The new state is `Bootstrap2009(old)`, or nothing changes and BootstrapColumnsMissing is reported. |
| `RecordsModel.Records.ExtrapolateInPufYear` | taxcalc/records.py:505-510 | The new state is `InPufYear(old)`, or nothing changes and its error is reported. |
| `RecordsModel.NewRecords` | taxcalc/records.py:175-227 | `Records(...)` fails iff `Construct` fails, with its error. Otherwise it yields a fresh, valid object in the state `Construct` describes. |
| `RecordsModel.LoadedValid` | taxcalc/records.py:374-416 | A loaded sample satisfies the class invariant, with s006 of length `dim`. |
| `RecordsModel.ConstructSteps` | taxcalc/records.py:186-227 | The constructor is load, then read tables, then start, each failure stopping it. |
| `RecordsModel.TablesValid` | taxcalc/records.py:210-213 | Storing the read tables keeps the class invariant. |
| `RecordsModel.WithYearValid` | taxcalc/records.py:249-255 | `set_current_year` keeps the class invariant. |
| `RecordsModel.BlownUpValid` | taxcalc/records.py:259-356 | `_blowup` keeps the class invariant. |
| `RecordsModel.ExtrapolatedValid` | taxcalc/records.py:281-356 | Growing the arrays by any full factor row keeps the class invariant. |
| `RecordsModel.WithWeightsValid` | taxcalc/records.py:245-247 | Reweighting keeps the class invariant. |
| `RecordsModel.ChangingZeroedValid` | taxcalc/records.py:439-441 | Zeroing the changing variables keeps the class invariant. |
| `RecordsFacts.SetYearLastWins` | taxcalc/records.py:249-255 | Two `set_current_year` calls equal the last one alone. |
| `RecordsFacts.NextYearOutcome` | taxcalc/records.py:236-247 | `increment_year` fails iff `BlowupRow` fails for next year: a factor column or the year's row is missing, or (a model choice, see Left out) a factor is undefined. It then leaves the year advanced and the arrays unchanged. It never changes anything but the year and the arrays. |
| `RecordsFacts.NextYearGrowth` | taxcalc/records.py:241-247 | After `increment_year`, every array other than s006 is grown by the new year's factors. s006 is the new `WT<year>` column times 0.01 when there is one. |
| `RecordsFacts.NextYearFrame` | taxcalc/records.py:241-247 | Variables with no growth rule are unchanged by `increment_year`. s006 is unchanged unless the new year has a weight column. |
| `RecordsFacts.FlpdyrHasNoRule` | taxcalc/records.py:281-356 | FLPDYR and s006 are not grown. |
| `RecordsFacts.TwoYearsCompound` | taxcalc/records.py:236-247 | Two successful `increment_year` calls grow each array once by the product of the two years' factors. |
| `RecordsFacts.ChangingZeroedIdempotent` | taxcalc/records.py:435-441 | Zeroing twice is zeroing once. |
| `RecordsFacts.ChangingZeroedEffect` | taxcalc/records.py:172-173 | Each changing variable becomes zeros of its type and length. Inputs, `_num`, `_sep`, `_exact` and the casualty fraction keep their values. |
| `RecordsFacts.BootstrapValid` | taxcalc/records.py:512-538 | The 2009 bootstrap keeps the class invariant. |
| `RecordsFacts.StartedValid` | taxcalc/records.py:214-227 | The start-year steps keep the class invariant. |
| `RecordsFacts.StartedYear` | taxcalc/records.py:215-217 | A successful start has an integer start year, makes it the current year, and fills FLPDYR with it. |
| `RecordsFacts.ConstructValid` | taxcalc/records.py:175-227 | A non-integer start year always fails. A new object satisfies the class invariant. |
| `RecordsFacts.ConstructYear` | taxcalc/records.py:215-217 | A new object is in the start year, and every record's FLPDYR equals that year. |
| `RecordsFacts.LoadedConsistent` | taxcalc/records.py:186-203 | Loading succeeds iff the data is a table with RECID and MARS and every record passes the consistency checks. |
| `RecordsFacts.ConstructLoaded` | taxcalc/records.py:374-389 | A new object has the data's size, index and ignored labels. |
| `RecordsFacts.StartedBootstraps` | taxcalc/records.py:222-223 | Started in 2009 with a non-empty BF, the bootstrap runs. It fails unless BF has every factor column. Otherwise BF's 2009 row is the hand-written factors, and every array but s006 and FLPDYR is grown by them once. |
| `RecordsFacts.StartedWeights` | taxcalc/records.py:224-227 | A new object keeps WT. Its s006 is the start year's `WT<year>` column times 0.01 when WT has that column, and the value read otherwise. |
| `RecordsFacts.StartedWithoutBootstrap` | taxcalc/records.py:222-223 | With an empty BF or a year other than 2009, construction grows nothing. |

## Left out

- Reading CSV and gzip files, `os.path.isfile` and the package lookup `_read_egg_csv` (lines 366-370, 419-433, 455-460, 478-484): the tables are values in the arguments. `Locate` chooses between a file on disk and the packaged resource, and models the error when neither exists.
- pandas mechanics: a DataFrame is a value of rows and typed columns, and columns of other names in BF are not modelled. A NaN or infinite factor from `pct_change` is an absent entry of the factor row. The first year's row is therefore empty.
- Floating point: every float is a mathematical `real`, and int64 conversion is truncation toward zero with no overflow.
- Duplicate column labels in the data: a table maps each label to one column.
- `exact_calculations` is a `bool`; a non-bool value, for which `is True` fails, is not modelled.
- `start_year` is an integer or "other"; a `bool`, which Python's `isinstance(…, int)` accepts, is not distinguished.
- `Factors.Bootstrapped`: pandas chained assignment into a BF that has no 2009 row is modelled as adding the row. Partial writes before an AttributeError on a missing column are not modelled: the bootstrap fails without changing BF.
- `Blowup.Extrapolated`: `_blowup`'s 64 in-place statements are one update of the variable map. Each statement writes a different variable using factors read beforehand, so their order does not matter.
- The loops of `_read_data` and `zero_out_changing_calculated_vars` over Python sets run in an unspecified order. `ZeroEach` and `ZeroChanging` prove their result independent of it, on a local map that is then stored in the object.
- `Validation.RealsOf`: a variable that is absent or not a float column reads as zeros. The loader never produces such fields for the checked variables.
- The factors ARETS, ACPIU and APOPDEP are stored by the bootstrap but never read by `_blowup`; no property is stated about them.
- The result of `_blowup(2009)` inside the bootstrap is not a separate failure: the hand-written 2009 row always has every factor it reads (`Blowup.BootstrapBlowupRow`).
- The `current_year` property (lines 229-234) is the field `currentYear`.
- `Blowup.BlowupRow` / `RecordsFacts.NextYearOutcome`: the model reports an undefined factor (a NaN from `pct_change`, or an inf from a zero APOPN or APOPSNR) as the error `FactorUndefined` and leaves the arrays unchanged. The program raises nothing there: it multiplies the arrays by the NaN or inf.
- `Factors.ReadBlowup`: a DataFrame passed as `blowup_factors` is deflated in place (lines 476 and 489-501), so the caller's frame changes, and a second object built from it deflates it again. The model's argument is a value and stays unchanged.
- `Factors.FactorFrame.WellFormed` assumes each YEAR occurs once and the raw table has no NaN. `read_csv(index_col='YEAR')` allows a repeated year, which makes `BF.AWAGE[year]` a Series; that case is not modelled.
- `RecordsModel.Records.SetCurrentYear` / `RecordsModel.WithYear` take an `int`. `set_current_year` accepts any value and does not check its type; a non-integer year is not modelled.
