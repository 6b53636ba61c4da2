# Chart builder aggregation and upload validation, modelled in Dafny

The client turns a dataset's sampled rows into a chart series. It has three
parts:

- `computeSeries` groups the rows by the raw value of a category field.
- Each group's contributions are reduced by count, sum, avg, min or max. A
  contribution is the constant 1 or the lenient numeric parse `number` of the
  value field.
- The `{name, value}` entries are sorted by name.

When the dataset changes, the chart builder picks default category and value
fields. The dataset uploader checks the file name before it sends anything,
and tracks its `error` and `loading` state through the request.

The model has five modules:

- `JsValues` (`js_values.dfy`) covers cell values, `Number(v)` on them,
  `number(v)` and `String(v)`.
- `LexOrder` (`lex_order.dfy`) is the order labels are sorted by, proved to
  be a total order.
- `Aggregate` (`aggregate.dfy`) is the reduction of one group.
- `ChartBuilder` (`chart_builder.dfy`) holds `computeSeries`, the field
  defaulting, and the component's chart state as a class.
  - `ComputeSeries` runs the source's three steps imperatively: a loop fills
    a map of groups, a loop reduces them in insertion order, and an
    insertion sort on an array orders the result.
  - It is proved against `Series`, which states the same grouping as a
    function of the rows.
  - The aggregation properties are lemmas about `Series`.
- `DatasetUploader` (`dataset_uploader.dfy`) holds `handleUpload` as a class
  with `error` and `loading` fields. The request it sends is recorded in a
  field, and the server's answer is a parameter.
- `ChartScenarios` (`chart_scenarios.dfy`) works one example through the
  model: three sales rows grouped by region.

Grouping is by the raw category value, as the code does with a `Map`. A
description that groups by the value's display string therefore differs from
it: `1` and `"1"` form two groups that share the label "1". The model follows
the code. `MixedKindsShareLabel` states this case, and `LabelsDistinct`
proves labels unique when all category values have one type.

## Model

| member | source | states |
|---|---|---|
| JsValues.NumberOf | src/components/ChartBuilder.jsx:5-9 | `number(v)` has no value exactly for null, undefined, the empty string and anything whose conversion is NaN; otherwise it is `Number(v)` |
| JsValues.NumberOfBlanks | src/components/ChartBuilder.jsx:6 | null, undefined and `''` give no value |
| JsValues.NumberOfBlankText | src/components/ChartBuilder.jsx:7 | a non-empty all-white-space string converts to 0, so it has a value, unlike `''` |
| JsValues.NumberOfPaddedNumeral | src/components/ChartBuilder.jsx:7-8 | an integer numeral with white space around it parses to that integer |
| JsValues.NumberOfDecimal | src/components/ChartBuilder.jsx:7-8 | a decimal numeral with a point converts to its whole part plus its fraction ("12.50" is 12.5, ".5" is 0.5) |
| JsValues.NumberOfNegativeDecimal | src/components/ChartBuilder.jsx:7-8 | a minus sign before such a numeral negates it |
| JsValues.NumberOfUnsigned | src/components/ChartBuilder.jsx:7-8 | text that starts and ends with a digit or a point converts as an unsigned numeral, without trimming or sign |
| JsValues.NumberOfNegative | src/components/ChartBuilder.jsx:7-8 | a leading minus sign negates the value of such text |
| JsValues.NumberOfForeignText | src/components/ChartBuilder.jsx:7-8 | in the model's decimal-only `Number`, text holding a character other than white space, a digit, a sign or a point has no value (NaN); the source agrees on ordinary text such as "abc" |
| JsValues.NumberOfIntToString | src/components/ChartBuilder.jsx:7 | `Number(String(n)) == n` for every integer n |
| JsValues.TrimmedNumeral | src/components/ChartBuilder.jsx:7 | a trimmed digit string, with or without a leading minus, converts to its value and its negation |
| JsValues.IntToStringInjective | src/components/ChartBuilder.jsx:33 | distinct integers have distinct labels |
| JsValues.LabelInjectiveWithinKind | src/components/ChartBuilder.jsx:33 | two values of one JavaScript type with equal `String(k)` are equal |
| JsValues.MixedKindsShareLabel | src/components/ChartBuilder.jsx:33 | the number 1 and the string "1" are different keys with the same label |
| JsValues.DigitsValueOfNatToString | src/components/ChartBuilder.jsx:33 | the numeral of a natural number denotes that number |
| LexOrder.LexLeTotal | src/components/ChartBuilder.jsx:35 | any two labels are comparable |
| LexOrder.LexLeAntisymmetric | src/components/ChartBuilder.jsx:35 | labels that sort no later than each other are equal |
| LexOrder.LexLeTransitive | src/components/ChartBuilder.jsx:35 | the label order is transitive |
| LexOrder.LexLeReflexive | src/components/ChartBuilder.jsx:35 | every label sorts no later than itself |
| Aggregate.Nums | src/components/ChartBuilder.jsx:23 | a number is among the filtered numbers exactly when it is a present contribution, and there are no more of them than contributions |
| Aggregate.NumsKeepMultiplicity | src/components/ChartBuilder.jsx:23 | the filter keeps each parsed number exactly as often as it occurs among the contributions |
| Aggregate.Min | src/components/ChartBuilder.jsx:29 | `Math.min` of a non-empty list is one of its elements and at most every element |
| Aggregate.Max | src/components/ChartBuilder.jsx:30 | `Math.max` of a non-empty list is one of its elements and at least every element |
| Aggregate.SumSkipsUnparsed | src/components/ChartBuilder.jsx:23-26 | removing an unparsed contribution does not change the sum |
| Aggregate.NumsDropUnparsed | src/components/ChartBuilder.jsx:23 | an unparsed contribution adds nothing to the filtered numbers |
| Aggregate.NumsOfUnparsed | src/components/ChartBuilder.jsx:23 | a group without parsed numbers filters to the empty list |
| Aggregate.SumOfUnparsed | src/components/ChartBuilder.jsx:26 | a group without parsed numbers sums to 0 |
| Aggregate.SumOfOnesIsCount | src/components/ChartBuilder.jsx:26-28 | when every contribution is 1, sum equals count and avg is 1 (0 for an empty group) |
| Aggregate.OnesSum | src/components/ChartBuilder.jsx:26 | contributions that are all 1 filter to as many numbers summing to their count |
| Aggregate.ZeroFill | src/components/ChartBuilder.jsx:27-30 | avg, min and max give 0 for a group without parsed numbers |
| Aggregate.MinMaxBracket | src/components/ChartBuilder.jsx:29-30 | min and max are parsed numbers of the group, and min ≤ every parsed number ≤ max |
| Aggregate.AvgBetweenMinAndMax | src/components/ChartBuilder.jsx:27-30 | min ≤ avg ≤ max for every group |
| Aggregate.MeanBetweenMinAndMax | src/components/ChartBuilder.jsx:27-30 | the mean of a list lies between its minimum and maximum (all 0 for the empty list) |
| Aggregate.SumBounds | src/components/ChartBuilder.jsx:26 | a sum of n numbers within [lo, hi] lies within [lo·n, hi·n] |
| ChartBuilder.DistinctKeys | src/components/ChartBuilder.jsx:13-20 | the keys of the groups map are exactly the rows' category values, each once, and there are at most as many as rows |
| ChartBuilder.ComputeSeries | src/components/ChartBuilder.jsx:11-37 | no category field gives []; otherwise the result has exactly the entries of `Series` (one per distinct category value), is sorted by label, has one entry per distinct value (at most one per row), and is empty exactly when there are no rows; under count its values add up to the number of rows |
| ChartBuilder.GroupRows | src/components/ChartBuilder.jsx:13-20 | the first loop leaves the map's keys in first-occurrence order, and under each key the contributions of exactly the rows with that value, in row order |
| ChartBuilder.ReduceGroups | src/components/ChartBuilder.jsx:21-34 | the second loop pushes one entry per group in key order, labelled `String(k)` and valued by the aggregate |
| ChartBuilder.SortByName | src/components/ChartBuilder.jsx:35 | the in-place sort leaves the array sorted by label and a permutation of its old contents |
| ChartBuilder.InsertLast | src/components/ChartBuilder.jsx:35 | one insertion step extends the sorted prefix by one element and permutes the array |
| ChartBuilder.GroupOfAbsentKey | src/components/ChartBuilder.jsx:17 | a value no row has has an empty group (`groups.get(k) \|\| []`) |
| ChartBuilder.GroupOfSnoc | src/components/ChartBuilder.jsx:14-19 | a further row appends its contribution to its own group and leaves every other group alone |
| ChartBuilder.RowInGroup | src/components/ChartBuilder.jsx:14-19 | every row's contribution is in the group of its category value |
| ChartBuilder.GroupMember | src/components/ChartBuilder.jsx:14-19 | everything in a group is the contribution of a row with that category value |
| ChartBuilder.GroupSizeIsKeyCount | src/components/ChartBuilder.jsx:14-19 | a group's size is the number of rows with its category value |
| ChartBuilder.CountEntry | src/components/ChartBuilder.jsx:28-31 | under count or an unknown aggregate, an entry's value is the number of rows with its category value |
| ChartBuilder.GroupSizesOfSnoc | src/components/ChartBuilder.jsx:14-19 | a further row adds one to the total size of the groups that hold its value |
| ChartBuilder.GroupSizesAddUp | src/components/ChartBuilder.jsx:13-20 | the group sizes add up to the number of rows |
| ChartBuilder.TotalOfCounts | src/components/ChartBuilder.jsx:28-31 | under count, the entry values add up to the group sizes |
| ChartBuilder.CountsAddUp | src/components/ChartBuilder.jsx:28-31 | under count, the series' values add up to the number of rows |
| ChartBuilder.TotalValuePermuted | src/components/ChartBuilder.jsx:35 | sorting does not change the total of the entry values: any permutation has the same total |
| ChartBuilder.TotalValueRemove | src/components/ChartBuilder.jsx:35 | taking one entry out of a list takes exactly its value out of the total |
| ChartBuilder.UnknownAggregateIsCount | src/components/ChartBuilder.jsx:31 | an aggregate name the switch has no case for gives the same series as "count" |
| ChartBuilder.GroupSum | src/components/ChartBuilder.jsx:14-26 | the parsed numbers of a category's group add up to the parsed values of that category's rows, counted row by row |
| ChartBuilder.GroupNumberCount | src/components/ChartBuilder.jsx:14-23 | a category's group has as many parsed numbers as that category has rows whose value parsed |
| ChartBuilder.SumEntry | src/components/ChartBuilder.jsx:23-26 | under sum, an entry's value is the sum of the parsed values of the rows with its category value, unparsed rows adding nothing |
| ChartBuilder.AvgEntry | src/components/ChartBuilder.jsx:23-27 | under avg, an entry's value is that sum divided by the number of the category's rows that parsed, or 0 when none did |
| ChartBuilder.GroupWithoutValueField | src/components/ChartBuilder.jsx:16 | without a value field every contribution is 1 |
| ChartBuilder.SumWithoutValueFieldIsCount | src/components/ChartBuilder.jsx:16-28 | without a value field the sum series equals the count series |
| ChartBuilder.ZeroFillGroup | src/components/ChartBuilder.jsx:23-30 | sum, avg, min and max give 0 for a category none of whose rows parses |
| ChartBuilder.ExtremaBracketRow | src/components/ChartBuilder.jsx:29-30 | a row's parsed value lies between its category's min and max entries |
| ChartBuilder.SeriesCoversRows | src/components/ChartBuilder.jsx:13-34 | every row's category has its entry in the series, and every entry belongs to some row's category |
| ChartBuilder.LabelsDistinct | src/components/ChartBuilder.jsx:33 | if all category values have one JavaScript type, the labels are pairwise distinct |
| ChartBuilder.SortedArrangementIsUnique | src/components/ChartBuilder.jsx:35 | entries with distinct labels have exactly one arrangement sorted by label |
| ChartBuilder.SortedHeadsAgree | src/components/ChartBuilder.jsx:35 | two sorted arrangements of such entries start with the same entry |
| ChartBuilder.TailsPermuted | src/components/ChartBuilder.jsx:35 | permutations with the same first element have permuted tails |
| ChartBuilder.FirstNonString | src/components/ChartBuilder.jsx:90 | `columns.find(c => c.type !== 'string')` stops at the first column not tagged "string", or finds none when every column is tagged so |
| ChartBuilder.DefaultValueField | src/components/ChartBuilder.jsx:90 | the default value field is the first non-string column's name, or `''` when every column is a string column |
| ChartBuilder.DefaultValueFieldIsOffered | src/components/ChartBuilder.jsx:117 | the default value field is `''` or an option of the value selector |
| ChartBuilder.ChartConfig.constructor | src/components/ChartBuilder.jsx:80-83 | the state starts as bar chart, no fields, count |
| ChartBuilder.ChartConfig.OnDatasetChanged | src/components/ChartBuilder.jsx:88-91 | the category field becomes the first column's name (or `''`), the value field the default value field; chart type and aggregate stay |
| ChartBuilder.ChartConfig.Data | src/components/ChartBuilder.jsx:93 | the rendered data is the sorted series of the current sample and fields |
| DatasetUploader.LowerChar | src/components/DatasetUploader.jsx:15 | lower-casing maps A-Z to a-z and leaves every other character alone |
| DatasetUploader.Lower | src/components/DatasetUploader.jsx:15 | lower-casing a name lower-cases each character and keeps the length |
| DatasetUploader.CsvNameCharacters | src/components/DatasetUploader.jsx:15 | a name is accepted exactly when it ends in a dot and c, s, v in either case |
| DatasetUploader.CsvNameExamples | src/components/DatasetUploader.jsx:15 | "data.txt" is rejected; "report.CSV" and "q1.Csv" are accepted |
| DatasetUploader.Uploader.constructor | src/components/DatasetUploader.jsx:7-8 | the uploader starts with no error, not loading, nothing sent or delivered |
| DatasetUploader.Uploader.Begin | src/components/DatasetUploader.jsx:13-28 | the error is cleared; a request is sent exactly for a present file with a CSV name; a rejected name sets "Please upload a CSV file"; `loading` is set exactly when sending; nothing is delivered |
| DatasetUploader.Uploader.Finish | src/components/DatasetUploader.jsx:29-36 | a non-ok status sets "Upload failed", a transport or body failure sets its message, an ok body is delivered to the callback once (if there is one) and keeps the error; `loading` ends false |
| DatasetUploader.Uploader.HandleUpload | src/components/DatasetUploader.jsx:12-37 | the whole handler: no file leaves no error and `loading` as it was; a rejected name sets the message, sends nothing and delivers nothing; an accepted name sends one request, ends not loading, and sets the error or delivers the body by the reply |
| DatasetUploader.RejectedUploadScenario | src/components/DatasetUploader.jsx:15-18 | uploading "data.txt" sets the rejection message and sends and delivers nothing |
| ChartScenarios.SalesRowCells | src/components/ChartBuilder.jsx:15-16 | a sales row's category cell is its region and its contribution is the parse of its sales text |
| ChartScenarios.TenIsNumeral | src/components/ChartBuilder.jsx:5-9 | `number("10")` is 10 |
| ChartScenarios.FiveIsNumeral | src/components/ChartBuilder.jsx:5-9 | `number("5")` is 5 |
| ChartScenarios.DecimalIsNumeral | src/components/ChartBuilder.jsx:5-9 | `number("12.50")` is 12.5 |
| ChartScenarios.TextIsNotNumeral | src/components/ChartBuilder.jsx:5-9 | `number("abc")` has no value |
| ChartScenarios.RegionSalesCells | src/components/ChartBuilder.jsx:15-16 | the example rows' regions and contributions |
| ChartScenarios.ThreeRowsGroups | src/components/ChartBuilder.jsx:13-20 | rows with category values a, a, b form the groups a and b, in that order, with their contributions |
| ChartScenarios.TwoGroups | src/components/ChartBuilder.jsx:21-34 | two groups give two entries, in key order |
| ChartScenarios.SeriesOfThreeRows | src/components/ChartBuilder.jsx:13-34 | the series of rows a, a, b is the reduction of a's two contributions and of b's one |
| ChartScenarios.NumsOfPair | src/components/ChartBuilder.jsx:23 | two parsed contributions filter to both numbers |
| ChartScenarios.SumOfPair | src/components/ChartBuilder.jsx:26 | the sum of two numbers |
| ChartScenarios.SumOfThreeRows | src/components/ChartBuilder.jsx:23-26 | summing rows a, a, b with b unparsed gives the two numbers' sum for a and 0 for b |
| ChartScenarios.CountOfThreeRows | src/components/ChartBuilder.jsx:28 | counting rows a, a, b gives 2 and 1 |
| ChartScenarios.SumIsNamed | src/components/ChartBuilder.jsx:26 | "sum" selects the sum case |
| ChartScenarios.CountIsNamed | src/components/ChartBuilder.jsx:28 | "count" selects the count case |
| ChartScenarios.RegionSalesSum | src/components/ChartBuilder.jsx:11-37 | sales 10, 5 and "abc" by region sum to east 15 and west 0 |
| ChartScenarios.RegionSalesCount | src/components/ChartBuilder.jsx:11-37 | counted by region they give east 2 and west 1, the unparsable row included |
| ChartScenarios.EastBeforeWest | src/components/ChartBuilder.jsx:35 | "east" sorts before "west" |
| ChartScenarios.RegionSalesSeries | src/components/ChartBuilder.jsx:11-37 | `computeSeries` on the example rows returns exactly those series, in that order |

## Left out

- JsValues.ToNumber: models `Number()` on strings for decimal numerals only: an optional sign, digits with at most one decimal point, and white space around them. Exponents ("1e3"), hex, octal and binary prefixes ("0x1F") and "Infinity" are read as NaN in the model, although `Number()` gives them a value. Such a cell still counts, but the model leaves it out of sum, avg, min and max, where the source includes it. IEEE-754 doubles, their rounding and NaN/Infinity arithmetic are left out; values are exact reals.
- JsValues.NumberOfForeignText: holds for the model's decimal-only `Number`. For text with an exponent, a radix prefix or "Infinity" it says "no value" where the source finds one (see the JsValues.ToNumber line).
- JsValues.Value: number cells that arrive as JSON numbers are integers in the model, so that their label `String(k)` is the integer's numeral. Text cells may hold any decimal numeral.
- Aggregate.Reduce: sums and averages are exact real arithmetic, without floating-point rounding.
- JsValues.IsSpace: only the ASCII white space characters count. The other Unicode white space that `Number()` and `String.prototype.trim` skip is not modelled.
- DatasetUploader.LowerChar, DatasetUploader.Lower: lower-case ASCII letters only ('É' stays 'É'), not the full Unicode case mapping of `toLowerCase`, which can also lengthen a string ('İ' becomes "i̇"). The gap cannot change the `.csv` decision of DatasetUploader.jsx line 15: no character other than 'C', 'S' and 'V' lower-cases to 'c', 's' or 'v', none lower-cases to '.', and the one lengthening mapping ends in a combining dot, not in "csv".
- LexOrder.LexLe: `localeCompare` is replaced by lexicographic order on character codes. Locale collation rules are out of scope; the sort needs only a total order.
- ChartBuilder.ComputeSeries: does not state that entries with equal labels keep their insertion order. The source's `Array.prototype.sort` is stable, but equal labels arise only from category values of different types.
- Cell values that are objects or arrays are not modelled. A sample row holds JSON scalars.
- DatasetUploader.Uploader.Finish: an exception thrown by the `onUploaded` callback itself, whose message would become the error, is not modelled. The callback's code is not part of this model.
- The request is asynchronous and goes through `fetch` with `FormData` to an environment-configured backend URL. It is reduced to a record of the file name sent and a `Reply` parameter. Concurrent uploads that interleave are not modelled.
- Drag-and-drop handling (`dragOver`, `onDrop`, the file input) and React's `useState`, `useEffect` and `useMemo` are left out. Only their state changes are modelled.
- Rendering is left out: the `Bars`, `Line` and `Pie` components scale heights and round percentages for display.
- `src/App.jsx` is not part of this model. It includes its "select the first dataset if none is current" rule, and dataset loading there is I/O glue.
- `src/components/InsightPanel.jsx` and `src/components/Navbar.jsx` are not part of this model: the first is a request wrapper, the second static markup.
