# Maintenance log analytics, modelled in Dafny

This project models the analytics core of a maintenance-log application for
production machines. Repair records (machine, side, symptom, date and time of
failure, repairer, how it was fixed, parts used) are imported from a
spreadsheet. They are normalised by clustering similar free-text symptoms and
fixes, and stored in three tables. From the store the system derives failure
frequencies, part lifespans, inventory recommendations, next-failure
predictions, failure patterns and a risk score. A browser page lists, filters
and paginates the records.

One Dafny module per source file, plus three helper modules:

| module | file | models |
|---|---|---|
| `Common` | common.dfy | `Option`/`Result`, `Math.floor`/`ceil`/`round` on reals |
| `Strings` | strings.dfy | ASCII `toLowerCase`, `trim`, `split`, `parseInt`, `String(n)`, `padStart(2, '0')`, `includes` |
| `Sequences` | sequences.dfy | filters, counts, sums, first-seen grouping into dictionaries, stable sorts, `slice(0, n)` |
| `TextAnalysis` | text_analysis.dfy | `src/utils/textAnalysis.js` |
| `Schema` | schema.dfy | `src/database/schema.js`: the `DatabaseManager` class with its tables as sequence fields |
| `DataAnalyzer` | data_analyzer.dfy | `src/services/dataAnalyzer.js` |
| `Predictor` | predictor.dfy | `src/services/predictor.js` |
| `ExcelProcessor` | excel_processor.dfy | `src/services/excelProcessor.js`: validators, formatters and the row loop, as the `SheetImporter` class |
| `RecordsPage` | records_page.dfy | `public/js/records.js`: filter, page slice and page links, as the `RecordsPage` class |

Conventions of the model:

- Dates are integer day numbers; day 0 is 1 January 1970, a Thursday.
- Times of day are seconds in `[0, 86400)`.
- "Now" is a parameter wherever the source calls `new Date()`:
  - the predictor takes a real day number, whose fractional part is the time of day;
  - the part-usage analysis takes an integer day.
- Ratios are `real`.
- A value the source rounds for display with `toFixed(n)` is modelled as the integer `Math.round(x * 10^n)`: cents, tenths or ten-thousandths.
- Where the source divides by a span of days that can be 0, the function requires a positive span (or no rows to divide). The source itself yields `Infinity`/`NaN` there.
- Loops that update state are methods proved against a specification function:
  - the DP table of `levenshteinDistance`;
  - the greedy clustering loop;
  - the import loop;
  - the dictionary accumulations;
  - the row loop of `processExcel`;
  - the page-link loop.
- Objects whose fields the source updates are classes with `modifies` clauses:
  - `Schema.DatabaseManager`;
  - `ExcelProcessor.SheetImporter`;
  - `RecordsPage.RecordsPage`.

Where the project's own description and its code differ, the model follows
the code:

- `normalize` is not idempotent. Whitespace is collapsed before symbols are stripped, so `"a - b"` becomes `"a  b"` and then `"a b"`. `TextAnalysis.NormalizeNotIdempotent` proves this.
- `analyzeFailureFrequency` over a period with no records returns an empty list, not a zero rate.

## Model

| member | source | states |
|---|---|---|
| Common.Floor | src/services/excelProcessor.js:329 | `Math.floor`: the greatest integer not above `x` |
| Common.Ceil | src/services/dataAnalyzer.js:205 | `Math.ceil`: the least integer not below `x` |
| Common.Round | src/services/dataAnalyzer.js:157-159 | `Math.round`: the integer within half a unit, halves rounding up |
| Strings.Lower | public/js/records.js:126 | `toLowerCase` (ASCII): same length, each character lowered |
| Strings.Trim | src/services/excelProcessor.js:276 | `trim`: the result is the input less a prefix and a suffix made only of whitespace, and neither starts nor ends with whitespace |
| Strings.Split | src/services/excelProcessor.js:192 | `split(sep)`: at least one part, no part holds the separator |
| Strings.SplitJoin | src/services/excelProcessor.js:192 | joining the parts of a split with the separator gives the text back |
| Strings.JoinSplit | src/services/excelProcessor.js:192 | splitting joined separator-free parts gives the parts back |
| Strings.SplitCount | src/services/excelProcessor.js:193 | a text splits into one more part than it holds separators |
| Strings.ParseIntToString | src/services/excelProcessor.js:194-196 | `parseInt(String(n))` is `n` for every integer |
| Strings.ParseHex | src/services/excelProcessor.js:269 | `parseInt` without a radix reads `0x` or `0X` followed by hexadecimal digits as a hexadecimal number |
| Strings.Pad2 | src/services/excelProcessor.js:303-304 | `padStart(2, '0')`: at least two characters, the text kept at the end, zeros before it |
| Strings.ContainsIff | public/js/records.js:129-132 | `includes` holds exactly when the needle occurs at some index |
| Sequences.Keys | src/services/dataAnalyzer.js:105-114 | first-seen dictionary keys: distinct, and every element's key is among them |
| Sequences.Tally | src/services/dataAnalyzer.js:285-289 | the counting loop gives the per-key counts in first-seen key order |
| Sequences.TallyOfTotal | src/services/dataAnalyzer.js:285-289 | the per-key counts add up to the number of elements |
| Sequences.GroupFold | src/services/dataAnalyzer.js:105-126 | the grouping loop gives, per first-seen key, the fold of that key's members |
| Sequences.MinOf | src/services/dataAnalyzer.js:219 | `Math.min(...)`: no element is below it and some element equals it |
| Sequences.MaxOf | src/services/dataAnalyzer.js:220 | `Math.max(...)`: no element is above it and some element equals it |
| Sequences.SortBy | src/services/predictor.js:26-30 | ascending sort: sorted, a permutation of its input |
| Sequences.SortDesc | src/services/dataAnalyzer.js:171 | descending sort: sorted, a permutation of its input |
| Sequences.SortByStable | src/services/predictor.js:26-30 | the sort is stable: elements with one key keep their order |
| Sequences.SortDescStable | src/services/dataAnalyzer.js:298-299 | the descending sort is stable as well |
| Sequences.SortDescTies | src/services/dataAnalyzer.js:298-299 | after the descending sort, the elements of each key value come in their input order |
| Sequences.TakeDescDominates | src/services/dataAnalyzer.js:298-300 | an entry kept by sort-then-`slice(0, n)` ranks at least as high as any entry cut off |
| Sequences.Take | src/services/dataAnalyzer.js:300 | `slice(0, n)`: the first `min(n, length)` elements |
| TextAnalysis.LevenshteinDistance | src/utils/textAnalysis.js:5-29 | the DP table yields the recursive edit distance (insert, delete, substitute at cost 1) |
| TextAnalysis.FillRow | src/utils/textAnalysis.js:17-26 | one pass of the inner loop fills row `i` of the table with prefix distances |
| TextAnalysis.DistZeroIff | src/utils/textAnalysis.js:5-29 | distance 0 exactly for equal texts |
| TextAnalysis.EditDistanceZero | src/utils/textAnalysis.js:5-29 | a zero prefix distance means equal prefixes |
| TextAnalysis.DistSymmetric | src/utils/textAnalysis.js:5-29 | the distance is symmetric |
| TextAnalysis.EditDistanceSymmetric | src/utils/textAnalysis.js:17-26 | the prefix recurrence is symmetric, by induction |
| TextAnalysis.DistBounds | src/utils/textAnalysis.js:10-15 | distance to "" is the length; the difference of lengths is at most the distance, which is at most the longer length |
| TextAnalysis.EditDistanceUpper | src/utils/textAnalysis.js:17-26 | a prefix distance never exceeds the longer prefix |
| TextAnalysis.EditDistanceLower | src/utils/textAnalysis.js:17-26 | a prefix distance is at least the difference of the prefix lengths |
| TextAnalysis.Collapse | src/utils/textAnalysis.js:53 | `replace(/\s+/g, ' ')`: empty only for empty input; only spaces and the input's non-space characters occur, never two whitespace characters in a row; the non-space characters are kept, in order |
| TextAnalysis.CollapseNoSpace | src/utils/textAnalysis.js:53 | a text without whitespace is left unchanged |
| TextAnalysis.CollapseRun | src/utils/textAnalysis.js:53 | a whitespace run after a non-space character, or at the start, becomes exactly one space |
| TextAnalysis.CollapseAfter | src/utils/textAnalysis.js:53 | a part that starts with a non-space character collapses on its own: `Collapse(x + b) == Collapse(x) + Collapse(b)` |
| TextAnalysis.Collapse3 | src/utils/textAnalysis.js:53 | between two words a whitespace run becomes one space: `Collapse(a + w + b) == Collapse(a) + " " + Collapse(b)` |
| TextAnalysis.TrimNonSpace | src/utils/textAnalysis.js:51 | `trim` removes whitespace only: the other characters stay, in order |
| TextAnalysis.Normalize | src/utils/textAnalysis.js:47-57 | "" for empty input; otherwise only Thai, lower-case ASCII letters, digits and spaces remain |
| TextAnalysis.NormalizeNonSpace | src/utils/textAnalysis.js:47-56 | apart from whitespace, the normalised text is exactly the lower-cased text's accepted characters, in order |
| TextAnalysis.NormalizeNotIdempotent | src/utils/textAnalysis.js:53-56 | for letters x, y: `normalize("x - y")` is `"x  y"`, and normalising that again gives a different text, `"x y"` |
| TextAnalysis.Similarity | src/utils/textAnalysis.js:32-44 | in [0, 1]; 0 when either text is empty; exactly 1 when both are non-empty and normalise alike |
| TextAnalysis.Closeness | src/utils/textAnalysis.js:41-43 | `1 - distance / maxLen` lies in [0, 1] and is 1 only for equal texts |
| TextAnalysis.ComplementInRange | src/utils/textAnalysis.js:41-43 | with `0 < d <= m`, `1 - d/m` lies in [0, 1) |
| TextAnalysis.SimilaritySelf | src/utils/textAnalysis.js:39 | a non-empty text is 1 similar to itself |
| TextAnalysis.SimilaritySymmetric | src/utils/textAnalysis.js:32-44 | similarity is symmetric |
| TextAnalysis.ComputeSimilarity | src/utils/textAnalysis.js:32-44 | the method, going through the DP distance, returns the similarity |
| TextAnalysis.Tokens | src/utils/textAnalysis.js:63 | each token is non-empty, and all Thai or all ASCII letters and digits |
| TextAnalysis.TokensRun | src/utils/textAnalysis.js:63 | a non-empty run of one class is exactly one token |
| TextAnalysis.TokensSplit | src/utils/textAnalysis.js:63 | at a separator or a change between Thai and ASCII, the tokens of `a + b` are those of `a` followed by those of `b` |
| TextAnalysis.TokensSeparator | src/utils/textAnalysis.js:63 | a character that is neither Thai nor an ASCII letter or digit ends a token and is dropped: `Tokens(a + [c] + b) == Tokens(a) + Tokens(b)` |
| TextAnalysis.Tokenize | src/utils/textAnalysis.js:60-64 | tokens are non-empty, and concatenated they are exactly the word characters of the normalised text |
| TextAnalysis.TokensCover | src/utils/textAnalysis.js:63 | the tokens cover every word character of the text, in order |
| TextAnalysis.Matching | src/utils/textAnalysis.js:68-79 | the loop's hits: each names its index, text and similarity, which reaches the threshold; every such index is hit; indices ascend |
| TextAnalysis.FindSimilarTexts | src/utils/textAnalysis.js:67-82 | sorted by descending similarity, a permutation of the hits, and equally similar hits in list order (the sort is stable) |
| TextAnalysis.FindSimilarTextsExact | src/utils/textAnalysis.js:67-82 | the result holds exactly the texts at least `threshold` similar to the target |
| TextAnalysis.AffinityNonNegative | src/utils/textAnalysis.js:125-131 | a summed similarity is never negative |
| TextAnalysis.AffinitySingle | src/utils/textAnalysis.js:127-129 | a text alone has summed similarity 0 (it skips itself) |
| TextAnalysis.SumSimilarities | src/utils/textAnalysis.js:126-131 | the inner loop sums the similarity to every other text |
| TextAnalysis.FindRepresentativeBy | src/utils/textAnalysis.js:117-139 | "" for no texts, the sole text for one, otherwise the first text of greatest summed similarity |
| TextAnalysis.FindRepresentative | src/utils/textAnalysis.js:117-139 | the same, for the text similarity |
| TextAnalysis.GrowCluster | src/utils/textAnalysis.js:92-107 | the inner loop builds a well-formed cluster at `i` that absorbs every later unprocessed text similar enough |
| TextAnalysis.GreedyAppend | src/utils/textAnalysis.js:98-107 | adding such a cluster keeps the greedy property |
| TextAnalysis.DisjointAppend | src/utils/textAnalysis.js:99-105 | adding a cluster of uncovered indices keeps the clusters disjoint |
| TextAnalysis.OpenCluster | src/utils/textAnalysis.js:89-111 | opening a cluster at an unprocessed index preserves the outer loop invariant |
| TextAnalysis.ClusterDone | src/utils/textAnalysis.js:113 | at the end of the loop the clusters are a clustering of the whole list |
| TextAnalysis.ClusterBy | src/utils/textAnalysis.js:85-114 | clusters partition the indices; each is well-formed; representatives ascend; the grouping is greedy |
| TextAnalysis.ClusterSimilarTexts | src/utils/textAnalysis.js:85-114 | the same, for the text similarity |
| Schema.MissingColumn | src/database/schema.js:32-45 | an incomplete row is refused with a non-empty message naming a NOT NULL column |
| Schema.RecordById | src/database/schema.js:24 | the lookup finds a row with that id exactly when one exists |
| Schema.PartByCode | src/database/schema.js:51 | the lookup finds a part with that code exactly when one exists |
| Schema.AfterInsertPart | src/database/schema.js:123-129 | `INSERT OR IGNORE`: appends at most one part, keeps the old ones, leaves an existing code's name unchanged, and afterwards the code is present |
| Schema.InsertPartIdempotent | src/database/schema.js:123-129 | inserting the same coded part twice equals inserting it once |
| Schema.InsertPartNullCode | src/database/schema.js:51 | a null code is never a duplicate: two inserts add two rows |
| Schema.UsageRejection | src/database/schema.js:59-67 | a usage row is refused exactly when a column is null or a foreign key has no target |
| Schema.AddRecordValid | src/database/schema.js:102-120 | appending a record under the next id keeps the store consistent; the id exceeds all earlier ids |
| Schema.AddPartValid | src/database/schema.js:123-129 | inserting a part keeps the store consistent |
| Schema.AddUsageValid | src/database/schema.js:132-138 | appending a usage with resolvable keys keeps the store consistent |
| Schema.DatabaseManager.constructor | src/database/schema.js:6-18 | an empty, consistent store |
| Schema.DatabaseManager.InsertMaintenanceRecord | src/database/schema.js:102-120 | succeeds exactly for a complete row; appends one row whose id is fresh and above all others, and returns it; else changes nothing; other tables unchanged |
| Schema.DatabaseManager.InsertPart | src/database/schema.js:123-129 | the parts table becomes the insert-or-ignore result; nothing else changes |
| Schema.DatabaseManager.InsertPartUsage | src/database/schema.js:132-138 | succeeds exactly when the columns are bound and both keys resolve; appends exactly that row; other tables unchanged |
| Schema.DatabaseManager.ClearAllData | src/database/schema.js:224-233 | every table is empty |
| Schema.TimestampOrder | src/database/schema.js:154 | ordering by the timestamp is ordering by date, then time |
| Schema.RecordsByMachine | src/database/schema.js:150-157 | exactly the machine's rows, each once, newest first |
| Schema.RecordsByMachineAndSide | src/database/schema.js:160-167 | exactly the rows of that machine and side, each as often as in the table, newest first; a null side matches nothing |
| Schema.InPeriod | src/database/schema.js:178 | exactly the machine's rows dated between start and end, inclusive, each as often as in the table |
| Schema.DistinctSymptoms | src/database/schema.js:176 | `GROUP_CONCAT(DISTINCT …)` values: distinct, and exactly the non-null normalised symptoms |
| Schema.GroupConcat | src/database/schema.js:176 | null exactly for an empty group |
| Schema.FailureFrequency | src/database/schema.js:170-183 | one group per side of the period's rows, each with its own count ≥ 1, every row's side present, sorted by descending count |
| Schema.FailureFrequencyTotal | src/database/schema.js:170-183 | the group counts add up to the number of rows in the period |
| Schema.GroupsDistinct | src/database/schema.js:179 | groups over distinct sides are distinct |
| Schema.Chosen | src/database/schema.js:212-217 | exactly the usages whose record and part join and pass the machine, side and code filters (null filters skipped), each as often as in the table |
| Schema.Lagged | src/database/schema.js:210-211 | `LAG`: the first row has null previous date and gap; later rows have the previous row's date and the day difference |
| Schema.WithLag | src/database/schema.js:210-211 | the window is applied row by row over the whole result |
| Schema.WithLagGaps | src/database/schema.js:210-211 | over rows in date order every gap is non-negative and equals the difference to the previous row |
| Schema.SortedJoined | src/database/schema.js:218 | the joined rows in ascending replacement date, a permutation of the join |
| Schema.PartLifespanStats | src/database/schema.js:204-221 | a permutation of the join, ascending by date, with the lag columns filled over the whole result |
| DataAnalyzer.Present | src/services/dataAnalyzer.js:17 | `map(...).filter(s => s)`: exactly the non-empty texts |
| DataAnalyzer.PresentSingle | src/services/dataAnalyzer.js:17 | one text is kept exactly when it is present and not empty |
| DataAnalyzer.PresentConcat | src/services/dataAnalyzer.js:17 | the filter keeps order and multiplicity: filtering `a + b` is filtering `a`, then `b` |
| DataAnalyzer.MapVariants | src/services/dataAnalyzer.js:27-29 | setting every variant to the representative: new keys map to it, others keep their value |
| DataAnalyzer.RepresentativeMapKeys | src/services/dataAnalyzer.js:25-30 | every variant of every cluster is mapped |
| DataAnalyzer.RepresentativeMapValues | src/services/dataAnalyzer.js:25-30 | every mapped text maps to the representative of a cluster holding it |
| DataAnalyzer.BuildRepresentativeMap | src/services/dataAnalyzer.js:25-37 | the nested `forEach` builds the representative map |
| DataAnalyzer.NormalizedRepresentative | src/services/dataAnalyzer.js:46 | a non-empty symptom is normalised to itself or to a text at least the threshold similar to it |
| DataAnalyzer.ToInput | src/services/dataAnalyzer.js:42-52 | the statement's row is complete exactly when the import row is |
| DataAnalyzer.CompleteRowsMember | src/services/dataAnalyzer.js:40-75 | a row is stored exactly when it is in the input and complete |
| DataAnalyzer.Quantity | src/services/dataAnalyzer.js:62 | `court_part \|\| 1` is never 0 |
| DataAnalyzer.NewRecordsAt | src/services/dataAnalyzer.js:54 | the k-th stored row gets id `lastId + 1 + k` and its own values |
| DataAnalyzer.ImportCounts | src/services/dataAnalyzer.js:66-74 | failures plus stored rows account for every input row; each error carries an incomplete input row |
| DataAnalyzer.ImportOne | src/services/dataAnalyzer.js:41-74 | one attempt: succeeds exactly for a complete row, then writes the record, the part and the usage (part fields present); a failure changes nothing |
| DataAnalyzer.ImportRows | src/services/dataAnalyzer.js:40-75 | success and failed counts, the errors in order, and the store replaying every complete row in order |
| DataAnalyzer.ImportRecords | src/services/dataAnalyzer.js:9-78 | symptoms and fixes clustered at 0.75; counts, errors and the exact new contents of all three tables |
| DataAnalyzer.DaysBetween | src/services/dataAnalyzer.js:201-207 | the ceiling of the absolute difference |
| DataAnalyzer.DaysBetweenSymmetric | src/services/dataAnalyzer.js:201-207 | symmetric in its arguments |
| DataAnalyzer.DaysBetweenWholeDays | src/services/dataAnalyzer.js:201-207 | between whole days it is the absolute difference |
| DataAnalyzer.MonthlyRate | src/services/dataAnalyzer.js:86 | `count / (days / 30)`: rate times days is 30 times count; non-negative for a non-negative count |
| DataAnalyzer.Reports | src/services/dataAnalyzer.js:84-95 | one report per group, copying its fields, with its symptom list and its monthly rate `toFixed(2)` as hundredths within half a hundredth |
| DataAnalyzer.AnalyzeFailureFrequency | src/services/dataAnalyzer.js:81-96 | one report per frequency group, in the groups' order, with the rate over the period's length in hundredths within half a hundredth |
| DataAnalyzer.CommonSymptomsRoundTrip | src/services/dataAnalyzer.js:93 | splitting the concatenated symptoms gives the distinct symptoms back when none is empty or holds a comma |
| DataAnalyzer.Clamp | src/services/dataAnalyzer.js:197 | within [0, 100], and the identity there |
| DataAnalyzer.ReplacementUrgency | src/services/dataAnalyzer.js:175-198 | in [0, 100]; 0 without days or average; 100 past the average; from 80 % of it exactly 50 + (days/avg − 0.8)·250, in [50, 100); 75 past the minimum; otherwise exactly days/avg·50, below 40 |
| DataAnalyzer.UrgencyNotMonotone | src/services/dataAnalyzer.js:187-195 | urgency can fall as days pass: 79 days gives 75, 80 days gives 50 |
| DataAnalyzer.Lifespans | src/services/dataAnalyzer.js:119-121 | exactly the strictly positive gaps, in order |
| DataAnalyzer.PartTallyOf | src/services/dataAnalyzer.js:105-126 | a part's group: the first row's name, the row count, the positive gaps, the latest date |
| DataAnalyzer.PartGroupsMeaning | src/services/dataAnalyzer.js:103-126 | the k-th group is the k-th first-seen code with its rows' tally |
| DataAnalyzer.Mean | src/services/dataAnalyzer.js:136 | the mean times the count is the sum |
| DataAnalyzer.MeanBounds | src/services/dataAnalyzer.js:136-138 | the mean lies between the minimum and the maximum |
| DataAnalyzer.PartReport | src/services/dataAnalyzer.js:129-169 | fields copied from the group; avg is the rounded mean gap, min ≤ avg ≤ max, or all 0 without gaps; days since the last replacement; next estimate is last plus the floored mean, between last+min and last+max; urgency is `ReplacementUrgency` of the days since, the mean gap (0 without gaps) and the minimum, in [0, 100] |
| DataAnalyzer.PartReports | src/services/dataAnalyzer.js:129-169 | one report per group, in order |
| DataAnalyzer.PartReportsTotal | src/services/dataAnalyzer.js:117 | the replacement counts add up to the number of rows of the listed codes |
| DataAnalyzer.AnalyzePartUsage | src/services/dataAnalyzer.js:99-172 | a permutation of the per-part reports, whose counts add up to the number of rows, sorted by descending urgency, equal urgencies in first-seen order |
| DataAnalyzer.Span | src/services/dataAnalyzer.js:218-221 | the days between the oldest and the newest record |
| DataAnalyzer.UsagesOfRecord | src/services/dataAnalyzer.js:228-234 | exactly the usages of that record, each as often as in the table |
| DataAnalyzer.TotalIsSum | src/services/dataAnalyzer.js:243 | the running total is the sum of the quantities |
| DataAnalyzer.UsageTotalsMeaning | src/services/dataAnalyzer.js:225-245 | the k-th total is the k-th first-seen code with its summed quantity |
| DataAnalyzer.TotalUsage | src/services/dataAnalyzer.js:225-245 | the nested loops build the per-code totals |
| DataAnalyzer.PartName | src/services/dataAnalyzer.js:253-259 | the part's name, or "N/A" when the code is unknown |
| DataAnalyzer.Recommendation | src/services/dataAnalyzer.js:248-264 | rate to the cent; `recommended_quantity = ceil(rate × months)` |
| DataAnalyzer.Recommendations | src/services/dataAnalyzer.js:248-265 | one item per code, in order |
| DataAnalyzer.GetRecommendedPartInventory | src/services/dataAnalyzer.js:210-268 | [] without records; else a permutation of the per-code items, sorted by descending monthly usage, equal usages in first-seen order |
| DataAnalyzer.FailuresPerMonthCents | src/services/dataAnalyzer.js:309 | no rate over zero days; otherwise `count / days × 30` to the cent |
| DataAnalyzer.TopSymptomsDominate | src/services/dataAnalyzer.js:298-301 | no symptom left out of the top five has a larger count than one kept |
| DataAnalyzer.Summarize | src/services/dataAnalyzer.js:278-312 | total, first and last dates, period, rate, per-side counts adding up to the total, top five symptoms |
| DataAnalyzer.GetMachineSummary | src/services/dataAnalyzer.js:271-313 | null exactly without records, else the summary of the machine's records |
| Predictor.Gaps | src/services/predictor.js:33-39 | one interval fewer than instants |
| Predictor.GapsAt | src/services/predictor.js:34-39 | interval i is instant i+1 less instant i |
| Predictor.ConsecutiveGaps | src/services/predictor.js:33-39 | the loop pushes exactly these intervals |
| Predictor.GapsTelescope | src/services/predictor.js:42 | the intervals add up to the last instant less the first |
| Predictor.Variance | src/services/predictor.js:43-44 | non-negative |
| Predictor.TotalWeightClosed | src/services/predictor.js:48-49 | the weights 1..n add up to n(n+1)/2 |
| Predictor.WeightedMeanBetween | src/services/predictor.js:50-51 | the weighted mean lies between any bounds of the intervals |
| Predictor.ConstantIntervals | src/services/predictor.js:42-51 | equal intervals: mean and weighted mean are that interval and the variance is 0 |
| Predictor.MeanGap | src/services/predictor.js:42 | mean interval times their number is the whole span |
| Predictor.RoundedRootBounds | src/services/predictor.js:45 | the rounded root `k` satisfies `(k - 1/2)^2 <= x < (k + 1/2)^2` |
| Predictor.RoundedRootOfSquare | src/services/predictor.js:45 | the rounded root of `y^2` is `round(y)` |
| Predictor.Confidence | src/services/predictor.js:63-73 | in {90, 70, 50, 30}; a zero average gives 30 |
| Predictor.ConfidenceMonotone | src/services/predictor.js:65-73 | more spread never raises the confidence |
| Predictor.ConfidenceEven | src/services/predictor.js:65-66 | evenly spaced failures give 90 |
| Predictor.Instants | src/services/predictor.js:27-28 | each record's instant from its date and time |
| Predictor.MachineRecords | src/services/predictor.js:10-15 | exactly the machine's records, on the given side when that is truthy, each as often as in the table, newest first |
| Predictor.CvHundredths | src/services/predictor.js:63-97 | the coefficient of variation in hundredths is missing exactly when the average interval is 0 |
| Predictor.ConfidenceOfSpread | src/services/predictor.js:63-73 | with `s` the standard deviation: 90 when `s / avg < 0.2`, 70 below 0.4, 50 below 0.6, else 30 |
| Predictor.CvOfSpread | src/services/predictor.js:63-97 | for a positive average, `coefficientOfVariation.toFixed(2)` is `round(100 s / avg)` hundredths |
| Predictor.SpreadStatistics | src/services/predictor.js:45-95 | the rounded root of `v = s^2` is `round(s)`, and that of `3.8416 v` is `round(1.96 s)` |
| Predictor.ForecastOf | src/services/predictor.js:54-99 | last date kept; predicted is last plus the rounded weighted mean; confidence from the mean and variance; earliest and latest the predicted date less and plus the rounded 1.96-deviation half-width; rounded mean, weighted mean, deviation and coefficient of variation |
| Predictor.ForecastSpread | src/services/predictor.js:45-99 | with `s` the standard deviation: `std_deviation` is `round(s)`, the half-width is `round(1.96 s)`, the coefficient of variation `round(100 s / avg)` hundredths, missing for a zero average |
| Predictor.ForecastBetween | src/services/predictor.js:26-60 | the predicted date lies between the last failure plus the rounded least and greatest interval, and never before the last failure |
| Predictor.EvenStatistics | src/services/predictor.js:42-76 | equal intervals `c`: mean and weighted mean `c`, no spread; for `c > 0` confidence 90 and coefficient 0 |
| Predictor.ForecastEven | src/services/predictor.js:26-99 | failures evenly `c` days apart: predicted is last plus `round(c)`, earliest = predicted = latest; for `c > 0` confidence 90 |
| Predictor.LastIsLatest | src/services/predictor.js:54-56 | after the sort the last record has the latest date |
| Predictor.IntervalsNonNegative | src/services/predictor.js:26-39 | after the sort no interval is negative |
| Predictor.ForecastLatest | src/services/predictor.js:54-93 | the prediction starts from the latest failure and counts every record |
| Predictor.PredictNextFailure | src/services/predictor.js:9-100 | fewer than two records: no prediction, confidence 0; otherwise the forecast from the sorted records |
| Predictor.JoinedUses | src/services/predictor.js:122-129 | each joined use has the record's date and its part's name |
| Predictor.JoinedUsesMember | src/services/predictor.js:122-129 | every usage of the record whose part exists is joined |
| Predictor.UsesOfNamed | src/services/predictor.js:121-143 | every collected use names an existing part |
| Predictor.AccumOf | src/services/predictor.js:131-142 | a part's accumulator: first name, summed quantity, dates in order |
| Predictor.PartUsageGroupsMeaning | src/services/predictor.js:119-143 | the k-th group is the k-th first-seen code with its part's name, summed quantity and dates |
| Predictor.CollectPartUsage | src/services/predictor.js:119-143 | the nested loops build these groups |
| Predictor.AverageGapPositive | src/services/predictor.js:158-171 | the average usage gap is positive exactly when the dates are not all equal |
| Predictor.PartForecastOf | src/services/predictor.js:146-188 | rate and predicted usage `ceil(rate × days)`; last use is the latest date; next use only with a positive gap, then today plus `round(gap - days since last use)`, which is within 1.5 days before and half a day after last use plus gap; stock is max(predicted, 1) ≥ 1 |
| Predictor.NextUseKnown | src/services/predictor.js:170-186 | a next use is predicted exactly when the part was used on two different days |
| Predictor.PartForecasts | src/services/predictor.js:146-189 | one forecast per part, in order |
| Predictor.PredictPartRequirement | src/services/predictor.js:103-192 | [] without records; else a permutation of the per-part forecasts, sorted by descending predicted usage, equal usages in first-seen order |
| Predictor.DayPartOf | src/services/predictor.js:208-214 | every failure falls in one of the four parts of the day |
| Predictor.WeekdayOfDay | src/services/predictor.js:217-224 | every day has one of the seven weekdays |
| Predictor.WeekdayCycle | src/services/predictor.js:218-222 | day 0 is a Thursday; weekdays repeat every 7 days and advance by one a day |
| Predictor.CountByKey | src/services/predictor.js:206-224 | the counting loop gives the per-key counts over the fixed keys |
| Predictor.CoveredTotal | src/services/predictor.js:206-224 | counts over keys covering every record add up to the number of records |
| Predictor.MostCommonFirst | src/services/predictor.js:247 | `sort(desc)[0][0]` is the first key with the highest count |
| Predictor.ShareOf | src/services/predictor.js:236-240 | count kept; percentage to the tenth |
| Predictor.PatternCountsTotal | src/services/predictor.js:206-244 | total records, and the time and weekday counts each add up to it |
| Predictor.PatternsMostCommon | src/services/predictor.js:247-251 | both most-common entries are the first maxima |
| Predictor.TopSymptomsOrdered | src/services/predictor.js:233-240 | at most five top symptoms, in descending count |
| Predictor.TopSymptomsCounted | src/services/predictor.js:227-240 | each top symptom carries its own count and a percentage in [0, 100] |
| Predictor.TopSymptomsDominant | src/services/predictor.js:233-235 | no symptom left out counts more than one kept |
| Predictor.AnalyzeFailurePatterns | src/services/predictor.js:195-257 | fewer than five records: too few; else the patterns of the machine's records |
| Predictor.LevelOf | src/services/predictor.js:317-320 | a scored level is never unknown |
| Predictor.RecommendationMatchesLevel | src/services/predictor.js:337-347 | immediate inspection exactly at high risk; a visit soon exactly at medium; at low, a routine check exactly after more than 90 days |
| Predictor.TrendIsParity | src/services/predictor.js:289-294 | the trend is `n mod 2` from six records on: 0 or 1, never decreasing, increasing exactly for odd n ≥ 7 |
| Predictor.RiskBounds | src/services/predictor.js:268-333 | no records: 0 and unknown; else a score in [0, 80] with its own level, a non-decreasing trend and recent ≤ total |
| Predictor.RiskMaximum | src/services/predictor.js:299-314 | 80 is reached: odd n ≥ 7, four recent failures, last within a week |
| Predictor.HighRiskNeeds | src/services/predictor.js:299-320 | high risk needs three recent failures and a failure within two weeks |
| Predictor.LatestByDate | src/services/predictor.js:273-280 | after the date sort the last record has the latest date |
| Predictor.CalculateRiskScore | src/services/predictor.js:260-334 | the assessment of the machine's records |
| Predictor.TrendFactor | src/services/predictor.js:289-294 | the two halves' length difference |
| Predictor.AddUpScore | src/services/predictor.js:297-314 | the additive score |
| ExcelProcessor.ExpandYearWindow | src/services/excelProcessor.js:198-201 | a two-digit year keeps its digits and lands in 1950–2049; longer years are kept |
| ExcelProcessor.DaysInMonth | src/services/excelProcessor.js:296 | between 28 and 31 |
| ExcelProcessor.Rollover | src/services/excelProcessor.js:296 | `new Date(y, m - 1, d)` for a day up to 31 lands on a real calendar date |
| ExcelProcessor.DmyParts | src/services/excelProcessor.js:192-196 | the parts of a printed `d/m/y` read back as d, m and y |
| ExcelProcessor.DateRoundTrip | src/services/excelProcessor.js:183-221 | a real calendar date printed `d/m/yy` is valid and formats as that date |
| ExcelProcessor.DateOverflow | src/services/excelProcessor.js:203 | a day past the month's end (e.g. 31/04) passes the check, and is formatted as a day of the next month |
| ExcelProcessor.ValidDateFormats | src/services/excelProcessor.js:280-306 | a checked date string formats as the date its parts roll over to |
| ExcelProcessor.JsRem | src/services/excelProcessor.js:330-331 | JavaScript's `%` agrees with Dafny's on non-negative operands |
| ExcelProcessor.HmParts | src/services/excelProcessor.js:232-235 | the parts of a printed `h:m` read back as h and m |
| ExcelProcessor.TimeRoundTrip | src/services/excelProcessor.js:224-255 | a valid `h:m` passes the check and formats as `hh:mm:00` |
| ExcelProcessor.FractionClock | src/services/excelProcessor.js:326-331 | a fraction of a day splits its rounded seconds into hours, minutes < 60 and seconds < 60; hour 24 exactly at 86400 seconds |
| ExcelProcessor.CleanText | src/services/excelProcessor.js:274-277 | null exactly for a falsy cell |
| ExcelProcessor.CourtPartNonZero | src/services/excelProcessor.js:269 | `court_part` is null exactly for a falsy cell; else never 0, and the parsed value when that is non-zero |
| ExcelProcessor.ValidateRecord | src/services/excelProcessor.js:113-180 | the method builds the checks and collects the errors and warnings |
| ExcelProcessor.CollectErrors | src/services/excelProcessor.js:117-150 | the errors in the source's order |
| ExcelProcessor.CollectWarnings | src/services/excelProcessor.js:152-173 | the warnings in the source's order |
| ExcelProcessor.ErrorsMeaning | src/services/excelProcessor.js:117-150 | an error is reported exactly when its check fails |
| ExcelProcessor.ValidWhenNothingFails | src/services/excelProcessor.js:176 | valid exactly when no check fails |
| ExcelProcessor.WarningsMeaning | src/services/excelProcessor.js:152-173 | a warning for this row exactly when its condition holds; at most two |
| ExcelProcessor.ValidRowFormats | src/services/excelProcessor.js:258-271 | a valid row formats with a non-blank machine, symptom and repairer |
| ExcelProcessor.RecordOfField | src/services/excelProcessor.js:68-73 | a key is set exactly when some column has that header, and holds the last such column's cell |
| ExcelProcessor.BuildRecord | src/services/excelProcessor.js:65-73 | the cell loop builds that record |
| ExcelProcessor.MissingHeaderNamesMeaning | src/services/excelProcessor.js:40-51 | exactly the required headers absent from the first row |
| ExcelProcessor.VisitMeaning | src/services/excelProcessor.js:62-95 | empty rows are skipped; a row with errors is rejected with its number and errors; else formatted; warnings kept |
| ExcelProcessor.VisitsOf | src/services/excelProcessor.js:62-63 | one visit per row after the header |
| ExcelProcessor.GatherAccounts | src/services/excelProcessor.js:85-94 | records plus row errors account for every non-empty row |
| ExcelProcessor.GatherErrorRows | src/services/excelProcessor.js:85-90 | each error row number is within range, and they ascend |
| ExcelProcessor.VisitsOfSheet | src/services/excelProcessor.js:62-63 | visits are numbered from row 2; the non-empty ones are the data rows |
| ExcelProcessor.EmptySheetMissesAll | src/services/excelProcessor.js:49-51 | a sheet without a header row misses every required header |
| ExcelProcessor.ProcessAccounts | src/services/excelProcessor.js:18-110 | missing headers: no records and one header error; else `totalRows = rowCount - 1`, every non-empty row accounted for, error rows in range and ascending |
| ExcelProcessor.VisitRow | src/services/excelProcessor.js:64-95 | the per-row body yields the row's visit |
| ExcelProcessor.SheetImporter.constructor | src/services/excelProcessor.js:5-8 | both lists empty |
| ExcelProcessor.SheetImporter.ProcessExcel | src/services/excelProcessor.js:18-110 | the loop's result is the outcome of the sheet; the fields hold its errors and warnings |
| RecordsPage.FilteredMeaning | public/js/records.js:122-135 | an empty term keeps all; otherwise exactly the records whose symptom, fix, repairer or machine contains the lowered term |
| RecordsPage.FilteredKeepsOrder | public/js/records.js:127-134 | the filter keeps the original order |
| RecordsPage.FilteredIgnoresCase | public/js/records.js:126 | a term and its lowered form filter alike |
| RecordsPage.TotalPagesBounds | public/js/records.js:212 | `ceil(len / 20)`: enough pages, no spare page, zero only for no records |
| RecordsPage.PageSlice | public/js/records.js:151-153 | at most 20 rows, exactly the records from `(page - 1) × 20` |
| RecordsPage.RecordPage | public/js/records.js:151-153 | record i appears on page `i / 20 + 1` at row `i mod 20`, and on no other page |
| RecordsPage.PageInfoMatchesSlice | public/js/records.js:217-219 | the "from–to" numbers match the slice shown |
| RecordsPage.WindowBounds | public/js/records.js:239-245 | `1 ≤ start ≤ current ≤ end ≤ total`, `end − start ≤ 4`, exactly 4 with five or more pages |
| RecordsPage.NumberedLinks | public/js/records.js:258-264 | one link per page from start to end, active exactly on the current page |
| RecordsPage.PaginationLinks | public/js/records.js:227-284 | arrows first and last, disabled at the ends, and a disabled arrow is refused by the click check; inner links in range |
| RecordsPage.PaginationActive | public/js/records.js:258-264 | the current page has an active link, and no other page does |
| RecordsPage.AppendLinks | public/js/records.js:258-264 | the loop appends the numbered links |
| RecordsPage.RecordsPage.constructor | public/js/records.js:2-8 | page 1, no records |
| RecordsPage.RecordsPage.LoadRecords | public/js/records.js:99-120 | fetched records become both lists, page 1; a failed fetch changes nothing |
| RecordsPage.RecordsPage.FilterRecords | public/js/records.js:122-141 | the filtered list, page 1, all records kept |
| RecordsPage.RecordsPage.PageRows | public/js/records.js:143-153 | the current page's rows: 1 to 20 when there are records |
| RecordsPage.RecordsPage.UpdatePagination | public/js/records.js:211-286 | the page items for the current page and the page count |
| RecordsPage.RecordsPage.ClickPage | public/js/records.js:289-299 | the page changes exactly when the click is accepted |

## Left out

- I/O:
  - reading the workbook with ExcelJS; a worksheet is given as rows of cells, or none when it cannot be read;
  - the SQLite connection, `fs` directory creation and the `machines`, `symptom_patterns` and `fix_patterns` tables, which the core never reads;
  - HTTP calls, the DOM, HTML rendering, toasts and scrolling of the records page.
- The Electron shell, the Express server and the other browser pages are not part of this model.
- Floating point:
  - reals are exact;
  - `toFixed` strings are the rounded integers they print;
  - `Math.sqrt` is replaced by the rounded root `k` with `(k - 1/2)^2 <= x < (k + 1/2)^2`, which is what `Math.round(sqrt(x))` gives.
- Local time: `getDay`, `getDate` and the `new Date("date time")` instants are taken in UTC.
- Unicode: `toLowerCase` and `\s` are modelled on ASCII only. Thai characters are the block U+0E00–U+0E7F.
- Ties in sorts:
  - sorts are stable, as modern JavaScript engines are;
  - ties between SQL rows keep insertion order;
  - `Object.entries` listing integer-like keys first is not modelled; keys are listed in first-seen order.
- Sort in place: `records.sort` in the predictor reorders the caller's array; the model returns a sorted copy.
- ExcelProcessor.FormatDate: a numeric Excel serial date is not converted and gives `None`.
- ExcelProcessor.FormatDate: years outside 1900–275759, and a month or day outside the checked ranges (which JavaScript would roll over), give `None` instead of a date.
- ExcelProcessor.ValidDateFormats: stated only for the years the formatter models (1900–275759).
- ExcelProcessor: cells are empty, text, numbers or dates; rich text, formulas and hyperlinks are not modelled. A date cell's `toString()` text is taken as given.
- ExcelProcessor.SheetImporter.ProcessExcel: an exception thrown inside the row loop is not modelled; the only file error is an unreadable sheet.
- RecordsPage.RecordsPage.ClickPage: the click check uses the page count at the time of the click, while the source's handler keeps the count from when the links were drawn; they agree because the links are redrawn on every change.
- DataAnalyzer.AnalyzeFailureFrequency: requires the start and end dates to differ whenever the period has records; the source divides by zero days there.
- DataAnalyzer.GetRecommendedPartInventory: requires the machine's records to span at least one day whenever they used parts; the source divides by a zero span there and yields `Infinity`/`NaN` rates.
- Predictor.PredictPartRequirement: requires the same positive span whenever parts were used, for the same reason.
- Predictor.CvHundredths: a zero average gives `None` for both of the texts the source prints, `NaN` and `Infinity`; a negative coefficient that rounds to 0 prints `-0.00` in the source and 0 here. After the sort no interval is negative, so the negative case does not arise in `predictNextFailure`.
- Predictor.ForecastOf: dates are day numbers, so `setDate` arithmetic is integer addition; the time of day of the last failure is dropped from the printed dates, as `toISOString().split('T')[0]` does in UTC.
