# oref0 C++ port: a Dafny model of its core

This project models the computational core of a partial C++ port of oref0, the
OpenAPS reference design for a closed-loop insulin pump. The port converts
blood-glucose, insulin and carbohydrate units. It evaluates insulin-on-board
and carbs-on-board curves, rounds basal rates for a pump, and starts the
`determine_basal` decision. It also holds a glucose simulator, the text codecs
of the Nightscout records, and the command-line front end of
`oref0-get-profile`. Every `double` is a Dafny `real`, every time point is a
whole number of seconds, and every call to the clock is a parameter ("now").

## Modules

- `wrappers.dfy`, `Wrappers`: `Option` stands for `boost::optional`, and `Result` for a value or a thrown exception.
- `numeric.dfy`, `Numeric`: C `round` (half away from zero), truncating casts, whole-minute durations, `pow(10, d)` and the clamp to [0, 1]. It also has rounding to a step, and small real-arithmetic lemmas.
- `text.dfy`, `Text`: `isspace`, `trim_copy`, and the token read by `is >> s`.
- `glucose_unit.dfy`, `insulin_unit.dfy`, `carb_unit.dfy`, `isf_unit.dfy`, `icr_unit.dfy`, `exchange.dfy`: the typed amounts with their arithmetic, `scale`, comparisons, literals and `swap`.
- `carb_time_unit.dfy`, `insulin_time_unit.dfy`, `glucose_time_unit.dfy`, `units.dfy`: the per-hour rates, their normalisation and the rate × ICR product.
- `data_types.dfy`, `DataTypes`: the profile record, its defaults and JSON key bindings, the profile-type codec and the `iob_data_t` constructors.
- `ns_entries.dfy`, `ns_treatments.dfy`: the enumeration name tables of Nightscout entries and treatments, and their readers.
- `nightscout.dfy`, `Nightscout`: the date-range query, the query window, the URLs, the ordering of fetched records and the list printers.
- `get_profile.dfy`, `GetProfile`: the `key=value` splitter, the command-line parser, the parameter lookups and the argument-count check.
- `iob_calc.dfy`, `IobCalc`: the Walsh insulin-on-board curves and the `dose` record.
- `lib_iob_calculate.dfy`, `LibIobCalculate`: oref0's bilinear `iobCalc`.
- `diabetic_calcs.dfy`, `DiabeticCalcs`: the liver's glucose output, the GlucoDyn carbs-on-board curve, and the least-squares `linear_regression`.
- `round_basal.dfy`, `RoundBasal`: rounding a basal rate to the pump's increment.
- `requested_temp.dfy`, `RequestedTemp`: `round_to`, `calculate_expected_delta`, `convert_bg`, and the guard sequence of `determine_basal` up to its settled targets.
- `simulator.dfy`, `Simulator`: the bounded glucose history, carbohydrate doses, `calc_iob` and `clean_up`.
- `human.dfy`, `Human`: the simulated patient, whose setters change nothing.

Where a header and a source file define the same operation, the model has one
function. Where they differ (`icr_t::scale const`), a lemma states the
divergence.

Where the source divides by a quantity that can be zero, the model requires it
to be non-zero. An exception thrown by a guard or by `at` becomes an `Err`
result.

## Model

| member | source | states |
|---|---|---|
| GlucoseUnit.ToMmolL | src/glucose_unit.cpp:34-35 | converting mg/dL to mmol/L multiplies by 0.0555, so dividing the result by 0.0555 gives the mg/dL reading back |
| GlucoseUnit.ToMgDl | src/glucose_unit.cpp:110-111 | converting mmol/L to mg/dL divides by 0.0555, so the result times 0.0555 is the mmol/L reading |
| GlucoseUnit.MmolRoundTrip | tests/glucose_unit_test.cpp:45-47 | mmol/L to mg/dL and back is the identity over exact reals |
| GlucoseUnit.MgDlRoundTrip | tests/glucose_unit_test.cpp:32-33 | mg/dL to mmol/L and back is the identity over exact reals |
| GlucoseUnit.MmolLiteral | src/glucose_unit.cpp:139-149 | the `_mmol_L` literals wrap the number unchanged |
| GlucoseUnit.MgDlLiteral | src/glucose_unit.cpp:143-153 | the `_mg_dL` literals wrap the number unchanged |
| GlucoseUnit.Add | src/glucose_unit.cpp:59-61 | subtracting the right operand from the sum gives the left operand back |
| GlucoseUnit.Sub | src/glucose_unit.cpp:63-65 | the difference is zero exactly when the readings are equal, and negative exactly when the left reading is the smaller |
| GlucoseUnit.Mul | src/glucose_unit.cpp:67-69 | dividing the product by a non-zero right operand gives the left operand, and a zero right operand gives zero |
| GlucoseUnit.Scale | src/glucose_unit.cpp:75-77 | multiplying by a number: dividing by a non-zero factor gives the reading back, and a zero factor gives zero |
| GlucoseUnit.Less | src/glucose_unit.cpp:91-93 | one reading is below another exactly when its mg/dL value is |
| GlucoseUnit.AtMost | src/glucose_unit.cpp:99-101 | one reading is at most another exactly when its mg/dL value is |
| GlucoseUnit.GlucoseScale | include/glucose_time_unit.h:38-42 | `glucose_t::scale` multiplies: dividing by a non-zero factor gives the change back, and a zero factor gives zero |
| GlucoseUnit.Div | src/glucose_unit.cpp:71-73 | the quotient of two readings times the divisor is the dividend |
| GlucoseUnit.DivScalar | src/glucose_unit.cpp:79-81 | division of a reading by a number, as written, is the same as scaling by that number |
| GlucoseUnit.DivScalarIntended | src/glucose_unit.cpp:79-81 | the intended division: scaling the quotient by the divisor restores the reading |
| GlucoseUnit.AddSubInverse | src/glucose_unit.cpp:59-65 | adding and subtracting a reading undo each other |
| GlucoseUnit.DivScalarMultiplies | src/glucose_unit.cpp:79-81 | 1 mmol/L divided by 2 gives 2 mmol/L as written, 0.5 mmol/L as intended |
| GlucoseUnit.DivScalarAgreesOnlyForUnitFactor | src/glucose_unit.cpp:75-81 | the written and the intended division agree exactly when the reading is 0 or the factor is 1 or -1 |
| GlucoseUnit.ComparesByValue | src/glucose_unit.cpp:83-105 | readings are equal exactly when their values are, and the order is total with `<=` the negation of the mirrored `<` |
| InsulinUnit.ULiteral | src/insulin_unit.cpp:113-119 | the `_U` literals wrap the number unchanged |
| InsulinUnit.Add | src/insulin_unit.cpp:56-59 | adding an amount and taking it away again gives the original amount (also `+` at 75-77) |
| InsulinUnit.Sub | src/insulin_unit.cpp:79-81 | the difference is zero exactly when the amounts are equal, and negative exactly when the left amount is the smaller |
| InsulinUnit.Neg | src/insulin_unit.cpp:83-86 | the negation added to the operand gives zero units |
| InsulinUnit.Scale | src/insulin_unit.cpp:66-73 | both `scale` overloads multiply: dividing the result by a non-zero factor gives the original amount, and a zero factor gives zero units |
| InsulinUnit.NegProperties | src/insulin_unit.cpp:83-86 | negation is the scale by -1 and is its own inverse |
| InsulinUnit.ScaleComposes | src/insulin_unit.cpp:66-73 | scaling twice is scaling once by the product of the factors |
| InsulinUnit.ComparesByValue | src/insulin_unit.cpp:88-110 | amounts are equal exactly when their values are, and the order is total |
| CarbUnit.GCho | src/carb_unit.cpp:115-121 | the `_g_CHO` literals wrap the number unchanged |
| CarbUnit.Add | include/carb_unit.h:70-73 | adding an amount and taking it away again gives the original amount |
| CarbUnit.Sub | include/carb_unit.h:75-78 | the difference is zero exactly when the amounts are equal, and negative exactly when the left amount is the smaller |
| CarbUnit.Neg | include/carb_unit.h:80-83 | the negation added to the operand gives zero grams |
| CarbUnit.Scale | include/carb_unit.h:47-56 | both `scale` overloads multiply: dividing the result by a non-zero factor gives the original amount, and a zero factor gives zero grams |
| CarbUnit.NegProperties | src/carb_unit.cpp:85-88 | negation is the scale by -1 and is its own inverse |
| CarbUnit.ScaleComposes | src/carb_unit.cpp:62-71 | scaling twice is scaling once by the product of the factors |
| CarbUnit.ComparesByValue | include/carb_unit.h:85-107 | amounts are equal exactly when their values are, and the order is total |
| Exchange.Swap | include/carb_unit.h:62-66 | after `swap` the left operand holds the old right value and the right the old left (the same for every unit type) |
| Exchange.SwapTwice | include/isf_unit.h:51-55 | swapping twice restores both operands |
| IsfUnit.Scale | src/isf_unit.cpp:43-52 | both `scale` overloads scale the glucose per unit: dividing by a non-zero factor gives the original value, and a zero factor gives zero |
| IsfUnit.IsfTimesInsulin | src/isf_unit.cpp:68-74 | ISF times insulin is the same glucose as insulin times ISF |
| IsfUnit.InsulinTimesIsf | src/isf_unit.cpp:68-70 | insulin times ISF scales the glucose per unit by the units, so one unit gives the ISF itself |
| IsfUnit.GlucoseOverIsf | src/isf_unit.cpp:64-66 | glucose divided by the ISF is the insulin whose product with the ISF is that glucose |
| IsfUnit.ProductOverIsf | include/isf_unit.h:59-69 | multiplying insulin by a non-zero ISF and dividing by it again gives the insulin back |
| IsfUnit.ComparesByValue | src/isf_unit.cpp:76-98 | factors are equal exactly when their values are, and the order is total |
| IcrUnit.ScaleInPlace | src/icr_unit.cpp:43-46 | the mutating `scale` multiplies the ratio: dividing by a non-zero factor gives the original ratio, and a zero factor gives zero |
| IcrUnit.ScaleCopyAsWritten | src/icr_unit.cpp:48-51 | the source file's copying `scale` returns the ratio unchanged, whatever the factor |
| IcrUnit.ScaleCopy | include/icr_unit.h:44-48 | the header's copying `scale` multiplies the copy: dividing its ratio by a non-zero factor gives the original ratio back, and a zero factor gives zero |
| IcrUnit.ScaleCopyDiverges | src/icr_unit.cpp:48-51 | the two copying `scale`s agree exactly when the ratio is 0 or the factor is 1 |
| IcrUnit.InsulinTimesIcr | src/icr_unit.cpp:67-73 | insulin times ICR is the same carbohydrate as ICR times insulin |
| IcrUnit.IcrTimesInsulin | src/icr_unit.cpp:67-69 | ICR times insulin scales the grams per unit by the units, so one unit gives the ratio itself |
| IcrUnit.CarbOverIcr | src/icr_unit.cpp:63-65 | carbohydrate divided by the ratio is the insulin whose product with the ratio is that carbohydrate |
| IcrUnit.ProductOverIcr | include/icr_unit.h:58-68 | multiplying insulin by a non-zero ratio and dividing by it again gives the insulin back |
| IcrUnit.ComparesByValue | src/icr_unit.cpp:75-97 | ratios are equal exactly when their values are, and the order is total |
| CarbTimeUnit.CarbsPer | src/carb_time_unit.cpp:74-77 | over 60 minutes a rate absorbs exactly its per-hour amount, and over zero minutes nothing |
| CarbTimeUnit.CarbsPerAdds | src/carb_time_unit.cpp:74-77 | absorption over two spans adds up to absorption over their sum |
| CarbTimeUnit.NewCarbRate | src/carb_time_unit.cpp:36-45 | a rate built from an amount and a non-zero span absorbs exactly that amount over that span |
| CarbTimeUnit.ScaleToHour | src/carb_time_unit.cpp:36-42 | the amount stored per hour, absorbed over the given span, is the amount given |
| CarbTimeUnit.DefaultCarbRate | src/carb_time_unit.cpp:47-48 | the default rate absorbs nothing over any span |
| CarbTimeUnit.RatesAreNormalised | src/carb_time_unit.cpp:36-42 | 10 g over 30 min equals 20 g over 60 min, and 1 g over 1 min equals 60 g over 60 min: rates are stored per hour |
| CarbTimeUnit.Scale | src/carb_time_unit.cpp:63-72 | a scaled rate absorbs the factor times as much over every span |
| CarbTimeUnit.CarbOverRate | src/carb_time_unit.cpp:103-105 | the minutes m are truncated toward zero: for any signs, if k is the magnitude of m, the rate absorbs in k minutes a magnitude at most that of the amount and in k+1 minutes a larger one; m is non-negative when amount and rate have the same sign and non-positive otherwise; for a non-negative amount and positive rate, m minutes absorb at most the amount and m+1 more |
| CarbTimeUnit.TruncatedTimeBrackets | src/carb_time_unit.cpp:103-105 | the truncated time brackets the exact absorption time from below |
| CarbTimeUnit.TruncatedQuotient | src/carb_time_unit.cpp:103-105 | for any signs, the truncated time has the magnitude bracket of the magnitudes and the sign of the quotient |
| CarbTimeUnit.GChoPerHour | src/carb_time_unit.cpp:114-120 | `x_g_CHO_hr` absorbs x grams in an hour |
| CarbTimeUnit.GChoPerMinute | src/carb_time_unit.cpp:122-128 | `x_g_CHO_min` absorbs x grams in a minute and 60·x in an hour |
| CarbTimeUnit.CarbOverDuration | include/carb_time_unit.h:74-78 | an amount over a duration of at least one minute absorbs that amount over the duration's whole minutes |
| CarbTimeUnit.CarbOverDurationTruncates | include/carb_time_unit.h:74-78 | 10 g over 90 seconds is 10 g per minute: the half minute is cut away |
| CarbTimeUnit.ComparesBySpeed | src/carb_time_unit.cpp:79-101 | rates are equal, and ordered, exactly as their hourly absorption is, whatever span they were built over |
| InsulinTimeUnit.FromInsulin | include/insulin_time_unit.h:37 | a rate built from an amount delivers that amount in an hour |
| InsulinTimeUnit.UPerHour | src/insulin_time_unit.cpp:92-97 | `x_U_hr` delivers x units in an hour |
| InsulinTimeUnit.InsulinPer | src/insulin_time_unit.cpp:31-35 | an hour delivers the stored amount and zero minutes deliver nothing |
| InsulinTimeUnit.InsulinPerAdds | src/insulin_time_unit.cpp:31-35 | delivery over two spans adds up to delivery over their sum |
| InsulinTimeUnit.Scale | src/insulin_time_unit.cpp:48-57 | a scaled rate delivers the factor times as much over every span |
| InsulinTimeUnit.InsulinOverDuration | include/insulin_time_unit.h:63-67 | as written, an amount over a duration is the amount times the duration in hours (cut to whole seconds); over exactly one hour it is the amount per hour |
| InsulinTimeUnit.InsulinOverDurationIntended | include/insulin_time_unit.h:63-67 | the intended rate delivers the amount over the duration |
| InsulinTimeUnit.InsulinOverTwoHours | include/insulin_time_unit.h:63-67 | one unit over two hours is 2 U/hr as written and 0.5 U/hr as intended |
| InsulinTimeUnit.ComparesByValue | src/insulin_time_unit.cpp:59-81 | rates are equal exactly when their hourly amounts are, and the order is total |
| GlucoseTimeUnit.GlucosePer | include/glucose_time_unit.h:38-42 | an hour gives the stored change and zero minutes give none |
| GlucoseTimeUnit.GlucosePerAdds | include/glucose_time_unit.h:38-42 | the change over two spans adds up to the change over their sum |
| GlucoseTimeUnit.MgDlPerHour | include/glucose_time_unit.h:96-101 | `x_mg_dL_hr` changes glucose by x in an hour |
| GlucoseTimeUnit.MmolLPerHour | include/glucose_time_unit.h:103-109 | `x_mmol_L_hr` changes glucose by `to_mg_dL(x)` in an hour |
| GlucoseTimeUnit.Scale | include/glucose_time_unit.h:46-55 | a scaled rate changes glucose by the factor times as much over every span |
| GlucoseTimeUnit.SwapExchangesRates | include/glucose_time_unit.h:58-62 | `swap` gives each rate the other's value |
| GlucoseTimeUnit.GlucoseOverDuration | include/glucose_time_unit.h:88-92 | as written, a change over a duration is the change times the duration in hours (cut to whole seconds); over exactly one hour it is the change itself |
| GlucoseTimeUnit.GlucoseOverDurationIntended | include/glucose_time_unit.h:88-92 | the intended rate makes the given change over the duration |
| GlucoseTimeUnit.GlucoseOverHalfHour | include/glucose_time_unit.h:88-92 | a change of 3 over half an hour is 1.5 per hour as written and 6 per hour as intended |
| GlucoseTimeUnit.ComparesByValue | src/glucose_time_unit.cpp:60-82 | rates are equal exactly when their hourly changes are, and the order is total |
| Units.RateTimesIcr | src/units.cpp:29-33 | insulin rate times ICR absorbs, over m minutes, the insulin per hour times the ratio times m/60 grams |
| Units.IcrTimesRate | src/units.cpp:35-39 | ICR times insulin rate is the same carbohydrate rate as insulin rate times ICR (also include/units.h:40-44) |
| Units.ProductMatchesAmounts | include/units.h:34-38 | over any span, the product rate absorbs exactly the carbohydrate the ratio covers for the insulin the rate delivers |
| DataTypes.ReadProfileType | src/data_types.old.cpp:35-42 | reading succeeds exactly when the next whitespace-delimited token is "current", and the value read prints as that token; any other token throws |
| DataTypes.ProfileTypeRoundTrip | src/data_types.old.cpp:28-42 | the printed profile type reads back whatever whitespace surrounds it |
| DataTypes.MakeIobData | src/data_types.old.cpp:44-50 | the six-argument constructor stores bolus snooze, activity, IOB, basal IOB and high-temp insulin, and leaves net basal insulin empty |
| DataTypes.MakeIobDataIgnoresNetBasal | src/data_types.old.cpp:44-50 | the net basal argument has no effect on the record built |
| DataTypes.DefaultIobData | src/data_types.old.cpp:62-63 | the default record has zero numbers and all three optionals empty |
| DataTypes.DefaultProfile | include/data_types.h:82-106 | the default profile's flags, empty optionals, numeric defaults and `current` type |
| DataTypes.DefaultAutosensBracketsOne | include/data_types.h:98-99 | the default sensitivity bounds 0.7 and 1.2 lie either side of the neutral ratio 1 |
| DataTypes.LinkedKeysFollowMemberNames | include/data_types.h:108-130 | every member is bound to the JSON key of its own name, except `dia` (unbound) and `type` (bound as "_type") |
| DataTypes.LinkedKeysDistinct | include/data_types.h:108-130 | no two members are bound to the same key |
| Text.Trim | src/bin_oref0_get_profile.cpp:53 | `trim_copy` returns the text between the first and the last non-space character, with only spaces after it, or nothing for an all-space string |
| Text.ReadToken | src/data_types.old.cpp:38-39 | `is >> s` reads the first whitespace-delimited token: it holds no space, starts at the first non-space character, is followed by a space or the end of the stream (it is maximal), and is empty exactly when the stream holds only whitespace |
| Text.ReadTokenSurrounded | src/data_types.old.cpp:38-39 | a word surrounded only by whitespace is read back as itself |
| Text.TrimSurrounded | src/bin_oref0_get_profile.cpp:53 | a word surrounded only by whitespace trims to itself |
| Text.ReadTokenStopsAtSpace | src/ns_entries.cpp:74-79 | a name holding a space is read back only up to its first space |
| Text.ConcatLength | src/nightscout.cpp:102-145 | writing items one after the other inserts nothing between them: the length is the sum of the lengths |
| GetProfile.FirstSplit | src/bin_oref0_get_profile.cpp:41-67 | the first index from a start position that holds an `=` outside quotes, or none when no later index does |
| GetProfile.ParseKvString | src/bin_oref0_get_profile.cpp:38-69 | the two-slot-stack scan returns exactly the split at the first `=` outside quotes with both sides trimmed, or the trimmed line and an empty value |
| GetProfile.PushAndConsult | src/bin_oref0_get_profile.cpp:42-66 | one character other than a splitting `=`: the stack and the in-quote flag move exactly as the reference scan step says |
| GetProfile.KvSplitAtFirstUnquotedEquals | src/bin_oref0_get_profile.cpp:50-54 | the line splits at its first `=` outside quotes into the trimmed text before and after it |
| GetProfile.KvSplitWithoutEquals | src/bin_oref0_get_profile.cpp:68 | a line with no `=` outside quotes is all key, with an empty value |
| GetProfile.NoQuoteNeverInQuote | src/bin_oref0_get_profile.cpp:46-49 | without a double quote in the line the scan is never inside quotes |
| GetProfile.NoQuoteSplitsAtFirstEquals | src/bin_oref0_get_profile.cpp:50-54 | a line without double quotes splits at its first `=` |
| GetProfile.KvSplitTrims | src/bin_oref0_get_profile.cpp:53 | " a = b " gives ("a", "b") |
| GetProfile.KvSplitQuoted | src/bin_oref0_get_profile.cpp:62-65 | an `=` inside double quotes does not split, and the quotes stay in the key |
| GetProfile.KvSplitEscapedQuote | src/bin_oref0_get_profile.cpp:57-61 | a backslash before a quote stops it from opening quotes, so the `=` after it splits |
| GetProfile.KvSplitDoubledBackslash | src/bin_oref0_get_profile.cpp:57-61 | a second backslash cancels the first, so the following quote opens quotes and hides the `=` |
| GetProfile.KvSplitBackslashStaysArmed | src/bin_oref0_get_profile.cpp:57-61 | ordinary characters between a backslash and a quote do not disarm the backslash |
| GetProfile.Classify | src/bin_oref0_get_profile.cpp:96-100 | an argument is named exactly when it starts with "--"; any other argument is kept whole |
| GetProfile.ClassifyAll | src/bin_oref0_get_profile.cpp:95 | every argument is classified, in order |
| GetProfile.PositionalAppend | src/bin_oref0_get_profile.cpp:99 | appending a plain argument appends its text to the positional list, and a named one adds nothing |
| GetProfile.CollectPositional | src/bin_oref0_get_profile.cpp:95-101 | the positional list holds the texts of the plain arguments in their order |
| GetProfile.CollectKeys | src/bin_oref0_get_profile.cpp:97 | a key is present exactly when some argument names it |
| GetProfile.CollectFirstWins | src/bin_oref0_get_profile.cpp:97 | a present key holds the value of the first argument naming it: `insert` does not overwrite |
| GetProfile.KvGet | src/bin_oref0_get_profile.cpp:80-86 | the lookup finds a value exactly when the key is present, and then the stored value |
| GetProfile.ParseCmdLineSpec | src/bin_oref0_get_profile.cpp:93-103 | argv[0] is skipped; the positional list is the non-"--" arguments in order; a key is found exactly when some "--" argument names it, with the first such value |
| GetProfile.ParseCmdLineExample | src/bin_oref0_get_profile.cpp:93-103 | for any program name, single-character positionals a, b and key k: `prog a --k=v1 b --k=v2` gives positional [a, b] and k = v1 |
| GetProfile.ClassifyOption | src/bin_oref0_get_profile.cpp:96-97 | `--k=v` with single-character key and value is the named pair (k, v) |
| GetProfile.KvSplitOneEquals | src/bin_oref0_get_profile.cpp:50-54 | `k=v` splits into k and v |
| GetProfile.IndexOf | src/bin_oref0_get_profile.cpp:115-117 | `std::find` reports the first occurrence of the name |
| GetProfile.Find | src/bin_oref0_get_profile.cpp:113-127 | a required name gives the positional argument at its index, an optional name the one at its index after all required ones, and any other name none |
| GetProfile.FindByPosition | src/bin_oref0_get_profile.cpp:113-127 | with distinct names, the i-th required name finds the i-th positional argument and the j-th optional name the (required + j)-th |
| GetProfile.CountCheckEnablesFind | src/bin_oref0_get_profile.cpp:178-181 | once the count check passes, every required name can be looked up without indexing past the list |
| GetProfile.MainOutcome | src/bin_oref0_get_profile.cpp:145-183 | help is shown exactly when `--help` is given, or neither export nor update is asked for and the positional count is outside [required, required + optional]; a preference file is loaded only for a non-empty path |
| GetProfile.MainWithoutOptions | src/bin_oref0_get_profile.cpp:178-181 | without options, help is shown exactly for fewer than 4 or more than 7 positional arguments |
| GetProfile.PositionalAllPlain | src/bin_oref0_get_profile.cpp:99 | when every argument is plain, each one lands in the positional list |
| NsEntries.ParseDirection | src/ns_entries.cpp:52-66 | parsing succeeds exactly on the ten table names and returns the direction printed as the input; any other text fails as `at` does |
| NsEntries.DirectionNamesDistinct | src/ns_entries.cpp:36-50 | the ten directions print as ten different names |
| NsEntries.ParsePrintedDirection | src/ns_entries.cpp:36-66 | printing a direction and parsing the name gives the direction back |
| NsEntries.PrintParsedDirection | src/ns_entries.cpp:52-66 | parsing a table name and printing the result gives the name back |
| NsEntries.ParseIsCaseSensitive | src/ns_entries.cpp:65 | "flat", "none" and the empty string fail to parse |
| NsEntries.StreamRoundTripOneWord | src/ns_entries.cpp:69-79 | a one-word name written to a stream, with any whitespace around it, reads back as its direction |
| NsEntries.StreamReadDirection | src/ns_entries.cpp:74-79 | reading succeeds exactly when the first whitespace-delimited token is a direction name, and then the direction prints as that token |
| NsEntries.StreamCannotReadNotComputable | src/ns_entries.cpp:74-79 | "NOT COMPUTABLE" read from a stream gives the token "NOT", which fails to parse |
| NsEntries.StreamCannotReadRateOutOfRange | src/ns_entries.cpp:74-79 | "RATE OUT OF RANGE" read from a stream gives the token "RATE", which fails to parse |
| NsEntries.DirectionNamesInjective | src/ns_entries.cpp:53-64 | the table maps each direction's name back to that direction |
| NsEntries.DefaultEntry | src/ns_entries.cpp:81-91 | a default entry is not computable, has date and sgv -1, no previous value, no timestamp and empty texts |
| NsTreatments.ReadTempBasal | src/ns_treatments.cpp:71-81 | the whole remainder of the stream, which must be a table name, reads as the temp-basal type printed as that remainder |
| NsTreatments.ReadEventType | src/ns_treatments.cpp:96-108 | the whole remainder of the stream, which must be a table name, reads as the event type printed as that remainder |
| NsTreatments.TempBasalTableIsNames | src/ns_treatments.cpp:60-81 | the input table accepts exactly the names the output table prints |
| NsTreatments.EventTypeTableIsNames | src/ns_treatments.cpp:83-108 | the input table accepts exactly the names the output table prints |
| NsTreatments.TempBasalRoundTrip | src/ns_treatments.cpp:60-81 | printing a temp-basal type and reading the text gives it back |
| NsTreatments.EventTypeRoundTrip | src/ns_treatments.cpp:83-108 | printing an event type and reading the text gives it back |
| NsTreatments.TempBasalTextRoundTrip | src/ns_treatments.cpp:71-81 | reading a name and printing the result gives the name back |
| NsTreatments.EventTypeTextRoundTrip | src/ns_treatments.cpp:96-108 | reading a name and printing the result gives the name back |
| NsTreatments.EventTypeRemainderMustMatchExactly | src/ns_treatments.cpp:105-106 | two-word event names read back whole, but a name with a trailing line break, a first word alone or a leading space is not in the table |
| NsTreatments.ReadOptionalText | src/ns_treatments.cpp:43 | an optional text key takes the document's text when present and its default otherwise |
| NsTreatments.OptionalKeysDefaultToNone | src/ns_treatments.cpp:39-58 | only "glucoseType" and "units" are optional text keys, both defaulting to none, so a document without them leaves them absent |
| Nightscout.DateRangeDeterminesBounds | src/nightscout.cpp:39-46 | the query joins the two inclusive bounds on one field with an `&`, so when neither the field nor the formatted dates hold an `&` the query determines both formatted bounds |
| Nightscout.DateRange | src/nightscout.cpp:39-46 | the query starts with the `$gte` bound on the field at the formatted start, followed by `&`, ends with `&` and the `$lte` bound at the formatted end, and is exactly as long as the two bounds with one `&` between them, so nothing else sits between them |
| Nightscout.PrefixSuffixDetermine | src/nightscout.cpp:39-46 | a text opening with `lo&`, closing with `&hi` and of that combined length is exactly `lo&hi` |
| Nightscout.DateRangeExact | src/nightscout.cpp:39-46 | the query is exactly the lower bound, `&`, and the upper bound |
| Nightscout.ProfilesUrl | src/nightscout.cpp:59 | the profiles URL starts with the base URL and ends with "/api/v1/profile.json" |
| Nightscout.QueryWindowStart | src/nightscout.cpp:76 | the window starts at a midnight, at the start of the day holding the time one day earlier |
| Nightscout.QueryWindowCoversPreviousDay | src/nightscout.cpp:76 | the window reaches back at least one day and less than two |
| Nightscout.EntriesUrl | src/nightscout.cpp:71-77 | the entries URL ends with the date range on "dateString" from the window start to the end time |
| Nightscout.TreatmentsUrl | src/nightscout.cpp:90-91 | the treatments URL ends with the date range on "created_at" from the window start to the end time |
| Nightscout.Insert | src/nightscout.cpp:61-63 | inserting into an ordered list keeps it ordered and adds exactly the one record |
| Nightscout.SortBy | src/nightscout.cpp:58-99 | profiles come back ordered by start date, and entries and treatments by timestamp, each as a permutation of the decoded records |
| Nightscout.SortBySortedIsIdentity | src/nightscout.cpp:95-97 | records that arrive in key order come back unchanged |
| Nightscout.PrintList | src/nightscout.cpp:102-115 | as written the printer outputs the brackets around the items run together, because the first-item flag is never cleared |
| Nightscout.PrintListMergesItems | src/nightscout.cpp:117-130 | as written the list "1", "2" prints the same as the list "12" |
| Nightscout.PrintListHasNoSeparators | src/nightscout.cpp:132-145 | as written the output is exactly four characters of brackets longer than the items together |
| Nightscout.PrintListSeparated | src/nightscout.cpp:102-115 | with the flag cleared after the first item, the output is the items joined by ", " inside the brackets |
| Nightscout.JoinLength | src/nightscout.cpp:106-107 | joined items take their own lengths plus one separator between each two |
| Nightscout.SeparatedKeepsItemsApart | src/nightscout.cpp:117-130 | with separators, "1", "2" prints as "[ 1, 2 ]" and "12" as "[ 12 ]" |
| RoundBasal.LowestRateScale | src/round_basal.cpp:38-46 | the low-rate scale is 40 exactly when a model is known and ends in "54" or "23", and 20 otherwise |
| RoundBasal.StepsPerUnit | src/round_basal.cpp:48-53 | every band has a positive scale |
| RoundBasal.RoundBasal | src/round_basal.cpp:47-53 | the rounded rate is a whole number of the band's steps and lies within half a step of the rate |
| RoundBasal.RoundBasalIdempotent | src/round_basal.cpp:48-53 | rounding a rounded positive rate changes nothing, also where the rounding crosses into the next band |
| RoundBasal.StepBelow | src/round_basal.cpp:48-51 | rounding a rate below a band edge never passes the edge |
| RoundBasal.StepAbove | src/round_basal.cpp:50-53 | rounding a rate at or above a band edge never falls below the edge |
| RoundBasal.TinyRateRoundsToZero | src/round_basal.cpp:48-49 | a rate of 0.01 U/hr rounds to zero |
| RoundBasal.ModelPicksLowStep | src/round_basal.cpp:38-49 | 0.33 U/hr rounds to 0.325 on an x54 pump and to 0.35 on an x22 or unknown pump |
| Human.NewSimulatorHuman | src/human.cpp:29-31 | the getters of a new patient report the glucose and basal rate it was built with |
| Human.Apply | src/human.cpp:37-41 | no setter changes what the getters report |
| Human.ApplyAllKeepsReadings | src/human.cpp:37-49 | no sequence of setters changes the glucose or the basal rate the getters report |
| Human.SetBasalRateIsIgnored | src/human.cpp:41-45 | setting a new basal rate and reading it back gives the old rate |
| DiabeticCalcs.LiverGlucoseOutput | src/diabetic_calcs.cpp:38-40 | the liver's output is the basal rate times the carb ratio: over an hour, units per hour times grams per unit grams |
| DiabeticCalcs.CalcCob | src/diabetic_calcs.cpp:49-68 | a negative time since the dose or a negative activity time is an error; otherwise the result is the reference carbs-on-board curve at that time |
| DiabeticCalcs.FirstHalfIsCurve | src/diabetic_calcs.cpp:57-59 | the first branch's subtraction leaves the reference curve's first half |
| DiabeticCalcs.SecondHalfIsCurve | src/diabetic_calcs.cpp:61-63 | the second branch's subtraction leaves the reference curve's second half |
| DiabeticCalcs.RemainingFractionBounds | src/diabetic_calcs.cpp:57-66 | the unabsorbed fraction stays between none and all of the dose |
| DiabeticCalcs.RemainingFractionDecreases | src/diabetic_calcs.cpp:57-66 | later, never more of the dose is unabsorbed |
| DiabeticCalcs.CobBounds | src/diabetic_calcs.cpp:49-68 | for a non-negative dose the carbs on board lie between zero and the dose |
| DiabeticCalcs.CobDecreases | src/diabetic_calcs.cpp:49-68 | for a non-negative dose the carbs on board never grow as time passes |
| DiabeticCalcs.CobMiddleAndStart | src/diabetic_calcs.cpp:57-63 | the whole dose is on board at the start and both branches give half of it at half the activity time, so the curve joins up |
| DiabeticCalcs.CalcCobEnds | src/diabetic_calcs.cpp:64-65 | from the activity time on nothing is left, also for a zero activity time |
| DiabeticCalcs.CobTestCase | tests/cob_calc_test.cpp:34-42 | 100 g over 180 minutes leaves 100 g at 0, 50 g at 90, 12.5 g at 135 and nothing at 180 minutes |
| DiabeticCalcs.CobAt | tests/cob_calc_test.cpp:38-41 | a point of the test curve is the reference curve's value at that minute |
| DiabeticCalcs.SquaredSpreadExpands | include/diabetic_calcs.h:78-85 | the sum of squared distances from any a equals the expression built from the four running sums |
| DiabeticCalcs.SquaredSpreadSign | include/diabetic_calcs.h:78-85 | the squared spread is never negative and is positive when some x differs from a |
| DiabeticCalcs.DenominatorStep | include/diabetic_calcs.h:91-93 | one more point raises the regression denominator by the squared spread of the earlier x values around its x |
| DiabeticCalcs.DenominatorSign | include/diabetic_calcs.h:91-93 | the regression denominator is never negative, and positive as soon as two points have different x |
| DiabeticCalcs.SameXHasNoFit | include/diabetic_calcs.h:91-93 | two points at the same x make the denominator zero, so the closed form has nothing to divide by |
| DiabeticCalcs.Solve | include/diabetic_calcs.h:92-93 | the closed-form slope and intercept solve the least-squares normal equations |
| DiabeticCalcs.ClosedFormSolves | include/diabetic_calcs.h:92-93 | the two quotients written in the source satisfy both normal equations |
| DiabeticCalcs.SolveIsUnique | include/diabetic_calcs.h:91-93 | any line meeting the normal equations is the closed-form line |
| DiabeticCalcs.Fit | include/diabetic_calcs.h:69-95 | the fitted line meets the normal equations of the points' sums |
| DiabeticCalcs.LinearRegression | include/diabetic_calcs.h:69-95 | the fold over the points gives the least-squares line of the points |
| DiabeticCalcs.SumsOnLine | include/diabetic_calcs.h:78-85 | points lying on a line meet that line's normal equations exactly |
| DiabeticCalcs.FitRecoversLine | include/diabetic_calcs.h:69-95 | points lying on a line, with two different x, are fitted by that very line |
| Simulator.NewGlucoseState | src/simulator.cpp:69-76 | a new history is valid, holds only the target, and keeps the capacity and target it was given |
| Simulator.DefaultGlucoseState | src/simulator.cpp:78-79 | the default history targets 5.5 mmol/L, holds only that value and has room for one |
| Simulator.CurrentValue | src/simulator.cpp:50-52 | the current value is the last of the history: the history is its other values followed by it |
| Simulator.PreviousValue | src/simulator.cpp:54-60 | with two or more values, the history ends with the previous value and then the current one; with one value both are that value |
| Simulator.LastAtMost | src/simulator.cpp:64-66 | erasing from the front while over capacity leaves the newest `capacity` elements in order |
| Simulator.AddValue | src/simulator.cpp:62-67 | adding a value leaves the newest values of the old history plus the new one, at most `capacity` of them, with capacity and target unchanged |
| Simulator.AddValueKeepsHistory | src/simulator.cpp:50-67 | adding keeps a history valid, makes the new value the current one, and only drops a value when the history is full |
| Simulator.PreviousIsOldCurrent | src/simulator.cpp:50-67 | after adding, the previous value is the old current one when the capacity is at least two; with capacity one both are the new value |
| Simulator.NewCarbDose | src/simulator.cpp:116-119 | a negative amount or absorption rate is raised to zero; non-negative ones are kept |
| Simulator.Elapsed | src/simulator.cpp:100-102 | the elapsed time is a whole number of minutes, truncated toward zero from the seconds between the two points, in both directions |
| Simulator.DoseCurve | src/simulator.cpp:127-135 | past the activity time nothing is left on board, and at minute 0 with a positive activity time all of the dose is on board |
| Simulator.DoseCob | src/simulator.cpp:121-139 | a future dose counts in full, a dose past its activity time counts nothing, and at minute 0 a dose with a positive activity time counts in full |
| Simulator.SecondHalfEnds | src/simulator.cpp:132-133 | the second piece of the dose curve reaches zero at the activity time |
| Simulator.DoseCurveIsCob | src/simulator.cpp:129-136 | the three pieces of the simulator's curve are the reference carbs-on-board curve |
| Simulator.DoseCobIsCurve | src/simulator.cpp:121-143 | for a dose in the past with a positive absorption rate, the carbs on board follow the reference curve and lie between zero and the amount |
| Simulator.FutureDoseCountsInFull | src/simulator.cpp:123-126 | a dose at least a whole minute in the future counts in full |
| Simulator.CalcIob | src/simulator.cpp:157-168 | a future dose counts in full and a dose at or past its DIA counts nothing |
| Simulator.CalcIobBounds | src/simulator.cpp:157-168 | a dose given counts between nothing and its amount |
| Simulator.CalcIobFollowsCurve | src/simulator.cpp:161-167 | within the DIA the elapsed minutes fit the 16-bit argument and the dose counts its amount times the Walsh curve |
| Simulator.KeepInsulin | src/simulator.cpp:147-150 | the kept insulin doses are exactly the doses whose whole elapsed minutes are below their DIA, each kept as many times as it occurs |
| Simulator.KeepCarbs | src/simulator.cpp:152-154 | the kept carbohydrate doses are exactly those in the future or with carbs still on board |
| Simulator.KeepCarbsCounts | src/simulator.cpp:152-154 | each carbohydrate dose is kept as many times as it occurs unless it is spent, and then not at all |
| Simulator.KeepInsulinInOrder | src/simulator.cpp:147-150 | the kept insulin doses keep their relative order |
| Simulator.KeepCarbsInOrder | src/simulator.cpp:152-154 | the kept carbohydrate doses keep their relative order |
| Simulator.DroppedInsulinIsSpent | src/simulator.cpp:146-168 | a dropped insulin dose would have counted nothing towards the insulin on board |
| Simulator.CleanUp | src/simulator.cpp:146-155 | both lists keep their order; each insulin dose is kept as often as it occurs exactly when its elapsed minutes are below its DIA, and each carbohydrate dose unless it is in the past with nothing left on board |
| IobCalc.DiaMinutes | include/iob_calc.h:120 | every duration is a positive multiple of 30 minutes between 180 and 360 |
| IobCalc.DiaMinutesDistinct | include/iob_calc.h:120 | different durations have different minute counts |
| IobCalc.InsulinOnBoardPct | src/iob_calc.cpp:66-103 | the fraction is within [0, 1]: the whole dose at or before the bolus, nothing from the DIA on, and the clamped curve in between |
| IobCalc.ClampAndExitsMatter | src/iob_calc.cpp:66-103 | the 210-minute curve exceeds 100 percent at 20 minutes and the clamp brings it to 1; every curve is still positive at its DIA and the early exit makes it 0 |
| IobCalc.DefaultTestItem | tests/iob_calc_test.cpp:56-57 | the default test item, no time elapsed on the 3-hour curve, is all on board |
| IobCalc.DocumentedTable180 | include/iob_calc.h:30-40 | the 3-hour curve gives the documented fractions at every 20 minutes |
| IobCalc.DocumentedTable210 | include/iob_calc.h:42-54 | the 3.5-hour curve gives the documented fractions from 40 minutes on |
| IobCalc.DocumentedTable240 | include/iob_calc.h:56-69 | the 4-hour curve gives the documented fractions at every 20 minutes |
| IobCalc.DocumentedTable300 | include/iob_calc.h:71-87 | the 5-hour curve gives the documented fractions at every 20 minutes |
| IobCalc.DocumentedTable360 | include/iob_calc.h:89-108 | the 6-hour curve gives the documented fractions at every 20 minutes |
| IobCalc.NewDose | src/iob_calc.cpp:105-111 | a dose keeps its amount, time and curve |
| IobCalc.NewDoseNow | include/iob_calc.h:129 | without a curve and a time the dose uses the 4-hour curve and the present |
| LibIobCalculate.NoContribution | include/lib_iob_calculate.h:38 | the default result has neither contribution |
| LibIobCalculate.IobCalc | include/lib_iob_calculate.h:47-78 | both contributions are present together, exactly for an insulin treatment younger than 180 scaled minutes, and follow the rising fit before the peak and the falling fit after it |
| LibIobCalculate.FreshTreatment | include/lib_iob_calculate.h:53-67 | a treatment in its first minute is all on board and not yet active |
| LibIobCalculate.ActivityContinuousAtPeak | include/lib_iob_calculate.h:65-71 | the two activity lines meet at the peak at 2/(60·DIA) per unit |
| LibIobCalculate.ActivityEndsAtDia | include/lib_iob_calculate.h:71 | the falling activity line reaches zero at 60·DIA scaled minutes |
| LibIobCalculate.RisingActivityIncreases | include/lib_iob_calculate.h:65 | before the peak, activity grows with age for a positive DIA |
| LibIobCalculate.FittedCurveEnds | include/lib_iob_calculate.h:62-71 | the fitted fractions are 1 at the start, 0.55552 and 0.55556 on the two sides of the peak, and 0.00011 at the end |
| LibIobCalculate.RisingFractionBounds | include/lib_iob_calculate.h:62-64 | before the peak the fraction on board lies above 0.55552 and at most 1 |
| LibIobCalculate.FallingFractionBounds | include/lib_iob_calculate.h:68-70 | after the peak the fraction on board lies between -0.00023 and 0.55556 |
| LibIobCalculate.FallingFractionGoesNegative | include/lib_iob_calculate.h:68-70 | 177.5 scaled minutes after the treatment the fitted fraction on board is negative |
| LibIobCalculate.IobWithinDose | include/lib_iob_calculate.h:47-78 | for a treatment in the past and a positive DIA the insulin on board is at most the dose and at least -0.00023 of it |
| RequestedTemp.RoundTo | include/requested_temp.h:32-36 | the result is a whole number of 10^-digits within half of one of them from the value; a tie goes away from zero (strictly above value − half for a non-negative value, strictly below value + half for a negative one) |
| RequestedTemp.RoundToIdempotent | include/requested_temp.h:32-36 | rounding an already rounded value changes nothing |
| RequestedTemp.RoundToExamples | include/requested_temp.h:32-36 | 1.2345 rounds to 1.23 at two digits, and halves round away from zero: 0.25 to 0.3 and -0.25 to -0.3 |
| RequestedTemp.CalculateExpectedDelta | include/requested_temp.h:48-55 | the expected delta is a whole number of tenths within 0.05 of the BGI plus the distance to target spread over the 5-minute blocks of half the DIA, a tie going away from zero |
| RequestedTemp.ExpectedDeltaAtTarget | include/requested_temp.h:48-55 | when the eventual glucose is on target the expected delta is the BGI rounded to a tenth |
| RequestedTemp.ExpectedDeltaMonotone | include/requested_temp.h:48-55 | for a positive DIA, a higher eventual glucose never gives a higher expected delta |
| RequestedTemp.ConvertBg | include/requested_temp.h:57-62 | for mmol/L output the value is converted and shown as a whole number of tenths within 0.05 of the exact conversion, a tie going away from zero; otherwise it is shown unchanged with no decimals |
| RequestedTemp.ConvertBgIsUnitConversion | include/requested_temp.h:57-59 | the mmol/L display is the glucose unit conversion rounded to a tenth |
| RequestedTemp.ConvertBgExample | include/requested_temp.h:57-62 | 100 mg/dL shows as 5.6 with one decimal for mmol/L output, and as 100 with none otherwise |
| RequestedTemp.AdjustedBasal | include/requested_temp.h:71-81 | without autosense the basal is the current basal; with it, a whole number of hundredths within 0.005 of the current basal times the ratio, a tie going away from zero |
| RequestedTemp.NeutralRatioKeepsBasal | include/requested_temp.h:71-81 | a ratio of 1 keeps a current basal given in hundredths |
| RequestedTemp.AdjustTargetMonotone | include/requested_temp.h:119-121 | for a positive ratio, adjusting keeps the order of two glucose values |
| RequestedTemp.AdjustTargetExample | include/requested_temp.h:113-121 | a 50% rise in sensitivity raises a target of 100 to 120, and 60 stays fixed |
| RequestedTemp.AdjustTargetsAsWritten | include/requested_temp.h:119-120 | as written the minimum is overwritten with the adjusted maximum and the maximum is left alone |
| RequestedTemp.AsWrittenBreaksOrder | include/requested_temp.h:119-120 | as written, targets 80/120/160 at ratio 0.5 give a minimum of 260 above the maximum of 160 |
| RequestedTemp.AdjustTargetsKeepsOrder | include/requested_temp.h:118-127 | moving all three targets with a positive ratio keeps minimum ≤ target ≤ maximum |
| RequestedTemp.ProfileTargets | include/requested_temp.h:101-110 | the configured target when there is one, otherwise the middle of min and max, which lies between them |
| RequestedTemp.DetermineBasal | include/requested_temp.h:66-129 | no current basal is the first error; a reading below 30 sets the adjusted basal as a 30-minute temp when it is not above the running temp and is an error starting with the calibrating message otherwise; missing min or max is the next error; proceeding carries the adjusted basal and keeps the profile's maximum, as the compiled lines 119-120 do |
| RequestedTemp.ProceedTargets | include/requested_temp.h:113-129 | past the guards it always proceeds; when autosense moves the targets (autosense data, the profile asks for it, no temporary target) the maximum stays, the minimum becomes the adjusted maximum and the target is adjusted; otherwise the profile's targets are kept |
| RequestedTemp.OrderExampleProfile | include/requested_temp.h:96-121 | a profile with targets 80/160/120, a basal of 1, autosense adjustment on and no temporary target |
| RequestedTemp.DetermineBasalBreaksOrder | include/requested_temp.h:119-120 | as compiled, that profile at ratio 0.5 proceeds with a minimum of 260 above the maximum of 160 |
| RequestedTemp.DetermineBasalIntended | include/requested_temp.h:113-129 | the intended version has the same guards, errors and basal, and moves all three targets by autosense exactly when the compiled one moves any |
| RequestedTemp.ProceedTargetsOrdered | include/requested_temp.h:96-129 | in the intended `determine_basal`, ordered profile targets with a positive ratio stay ordered |
| RequestedTemp.DefaultProfileThrows | include/requested_temp.h:67-69 | a default profile has no current basal, so the first guard reports it |
| Numeric.CRound | src/round_basal.cpp:49-53 | C `round` gives the nearest whole number, halves away from zero |
| Numeric.CRoundSymmetric | include/requested_temp.h:35 | rounding commutes with negation |
| Numeric.CRoundMonotone | include/requested_temp.h:119-121 | rounding keeps the order of two values |
| Numeric.Trunc | src/carb_time_unit.cpp:104 | the cast to an integer drops the fraction toward zero |
| Numeric.WholeMinutes | src/simulator.cpp:100-102 | the cast to whole minutes drops the part of a minute toward zero, in both directions of time |
| Numeric.Clamp01 | src/iob_calc.cpp:95-100 | the clamp lands in [0, 1], keeps values already inside and moves the others to the nearer end |
| Numeric.RoundToStepWithinHalf | include/requested_temp.h:32-36 | rounding to a step gives a whole number of steps within half a step of the value, for negative values too |
| Numeric.RoundToStepOfStep | src/round_basal.cpp:48-53 | a whole number of steps rounds to itself |

## Left out

- JSON record bindings and codecs (`ns_profiles`, `ns_devicestatus`, the record shapes, `time_json.h`, `insulin_unit_json.h`): their encoding lives in a JSON library that is not part of this model. Only the key names of `profile_t` are modelled.
- The download (`ns_download`, curl, and the SHA-1 API-secret header) and the file loading of `oref0-get-profile`: network and file I/O.
- SHA-1 and `dbl_error`: a library wrapper, and floating-point error propagation whose arithmetic is unfinished.
- The demo loops (`main` and `random_generator` in `src/simulator.cpp`, and `src/iob_calc_test.cpp`): the wall clock, randomness, sleeping and printing.
- `lib_iob_history.h`, `lib_iob_total.h`, and `determine_basal` after `include/requested_temp.h:129`: the code is unfinished, so there is no behaviour to model.
- Number formatting (`to_string`, `to_fixed`, the unit `operator<<`s, and the ISO date formatter): stream formatting of doubles is left out. The model passes these as function parameters, or keeps the number together with its digit count (`RequestedTemp.Shown`).
- IEEE-754 effects (rounding error, infinities, NaN): the model computes over exact reals.
- The `set_temp_basal` callback of `determine_basal`: its effect is outside the shown code. The model returns the rate, duration and reason it is called with.
- `include/requested_temp.h:75` rounds `basal`, the constant being defined, and line 114 tests `autosens_data`, a name that does not exist. Line 127 assigns to the constant `target_bg`. None of these compile; the model follows the evident meaning: it rounds the adjusted rate, tests the autosense parameter, and updates the target. Lines 119-120 do compile, and `RequestedTemp.DetermineBasal` follows them as written: the minimum is overwritten by the adjusted maximum, and the maximum stays. `RequestedTemp.DetermineBasalIntended` is the corrected version (see Findings).
- RequestedTemp.DetermineBasal: requires a non-zero autosense ratio when the targets are adjusted. The source would divide by zero there.
- RequestedTemp.CalculateExpectedDelta: requires a non-zero DIA. `dia` is a `double` here; an integral DIA type would also truncate `dia/2`, which is not modelled.
- LibIobCalculate.IobCalc: requires a non-zero DIA, and requires 60·DIA ≠ 75 whenever the falling branch is reached. The source would divide by zero in both cases.
- DiabeticCalcs.LinearRegression: requires two points with different x. Otherwise the source divides by zero (`DiabeticCalcs.SameXHasNoFit`).
- NsTreatments.ReadTempBasal: requires the text to be in the table. The source dereferences `find`'s end iterator for any other text, which is undefined behaviour. The same holds for NsTreatments.ReadEventType.
- Simulator.DoseCob: once the dose is not in the future, requires a non-zero absorption rate, and excludes a zero amount at minute 0. The source divides the amount by the rate, and then by the activity time, which is zero in that case.
- CarbTimeUnit.CarbOverDuration: requires at least one whole minute. A shorter duration truncates to zero minutes, and the rate constructor divides by it.
- IobCalc.InsulinOnBoardPct: follows the only definition, `src/iob_calc.cpp:66`, which takes its minutes as a 16-bit signed integer. `Simulator.CalcIobFollowsCurve` shows that the simulator's minutes fit that type.
- The overload `include/iob_calc.h:121` declares, which takes the minutes as a `double`, has no definition in the source. Its callers (`src/simulator.cpp:165` and `tests/iob_calc_test.cpp:80`) resolve to that declaration. The model routes them to the 16-bit definition and does not model fractional minutes.
- Nightscout.SortBy: keeps records with equal keys in input order. `std::sort` leaves that order unspecified, so the model fixes one choice. Its contracts state only ordering and permutation.
- GlucoseTimeUnit.MmolLPerHour: the `to_mg_dL` overload for a plain number is not part of this model. It is a parameter, so the contract only says that the literal passes its number through it.
- The mg/dL arithmetic and compound assignments declared in `include/glucose_unit.h` have no definition in the source, so there is nothing to model.

## Findings

| source | as written | input that shows it | evidently intended | confidence | as-written member | corrected member |
|---|---|---|---|---|---|---|
| src/nightscout.cpp:102-145 | the first-item flag is set to true again instead of false, so the list printers never print ", " | the lists ["1", "2"] and ["12"] both print as "[ 12 ]" | items separated by ", " | high; not executed | Nightscout.PrintList (Nightscout.PrintListMergesItems) | Nightscout.PrintListSeparated (Nightscout.SeparatedKeepsItemsApart) |
| src/glucose_unit.cpp:79-81 | `mmol_L / double` multiplies by the scalar | 1 mmol/L / 2 gives 2 mmol/L | 0.5 mmol/L, a division | high; not executed | GlucoseUnit.DivScalar (GlucoseUnit.DivScalarMultiplies) | GlucoseUnit.DivScalarIntended |
| include/insulin_time_unit.h:63-67 | `insulin_t / duration` multiplies the amount by the hours | 1 U over 2 hours gives 2 U/hr | 0.5 U/hr | high; not executed | InsulinTimeUnit.InsulinOverDuration (InsulinTimeUnit.InsulinOverTwoHours) | InsulinTimeUnit.InsulinOverDurationIntended |
| include/glucose_time_unit.h:88-92 | `glucose_t / duration` multiplies the change by the hours | a change of 3 over half an hour gives 1.5 per hour | 6 per hour | high; not executed | GlucoseTimeUnit.GlucoseOverDuration (GlucoseTimeUnit.GlucoseOverHalfHour) | GlucoseTimeUnit.GlucoseOverDurationIntended |
| src/icr_unit.cpp:48-51 | the copying `scale` discards the scaled value and returns the ratio unchanged | scaling a ratio of 10 by 2 gives 10 | 20, as the header's version gives | high; not executed | IcrUnit.ScaleCopyAsWritten (IcrUnit.ScaleCopyDiverges) | IcrUnit.ScaleCopy |
| include/requested_temp.h:119-120 | the adjusted maximum is assigned to `min_bg`, overwriting the adjusted minimum, and `max_bg` is never adjusted | targets 80/120/160 at ratio 0.5 give a minimum of 260 above the maximum of 160 | all three targets moved, keeping their order | high; not executed | RequestedTemp.DetermineBasal (RequestedTemp.DetermineBasalBreaksOrder, RequestedTemp.AdjustTargetsAsWritten, RequestedTemp.AsWrittenBreaksOrder) | RequestedTemp.DetermineBasalIntended (RequestedTemp.ProceedTargetsOrdered, RequestedTemp.AdjustTargets, RequestedTemp.AdjustTargetsKeepsOrder) |
