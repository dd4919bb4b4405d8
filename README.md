# DomColor colour-ramp pipeline, modelled in Dafny

The TouchDesigner extension `DomColor` finds the dominant colours of an image.
A background worker takes the cluster centres from KMeans and truncates them to
integers. It annotates each centre with a luminance and sorts them by it. It
hands the result back over a queue, first putting the string `"Processing"` and
then the sorted list. A per-frame poller, `Queue_examine`, takes at most one
queue item per tick. It drives the status parameter `Standby` / `Processing` /
`Ready` and switches off the execute operator's `framestart` flag once the
result is in. `Fill_ramp` builds the ramp table from the result:

- it divides every value by 255;
- it keeps the rows whose luminosity lies in `[lo, hi]`;
- it appends the kept rows to `ColorsForDAT`;
- it gives entry `i` the position `i/(m-1)` and an alpha of 1;
- it writes the rows under the header `pos r g b luminosity a`;
- it stores the number of entries in two parameters.

The project has four modules:

- `Centroids` (`centroids.dfy`) is the worker's pure tail: truncation, the integer luminance column, and the stable sort.
- `Ramp` (`ramp.dfy`) holds normalisation, the inclusive filter, positions and the table rows.
- `Session` (`session.dfy`) holds the extension's observable state as a `Snapshot` value and a step function per operation. Its lemmas cover one operation or a whole session: trigger, worker, then polling ticks.
- `DomColorExt` (`dom_color.dfy`) is the class `DomColor`. Its fields are the state the source changes in place. Each method, loops included, is proved to have the effect of its step function.

Behaviour of the code worth knowing:

- **The luminance column is an integer.** `numpy.insert(ramp_colors, 3, lumin_list, axis=1)` (line 290) converts the inserted values to the integer type of `ramp_colors`. The fourth column therefore holds `trunc(sqrt(0.299R²+0.587G²+0.114B²))`. Since the radicand is never negative, that is the largest natural number whose square does not exceed it. `Centroids.FloorSqrt` computes it exactly, with no square root and no axiom. Sorting and filtering use this integer. For the red primary, for example, the root 139.44… is truncated by the integer column to 139.
- **Exactly one entry is an error.** With exactly one entry in `ColorsForDAT`, line 137 computes `0 / 0` and raises `ZeroDivisionError`. The model keeps this as the `DivisionByZero` outcome of Fill_ramp. `Queue_examine`'s bare `except` (lines 338-339) swallows the error, so the status stays `Processing` and polling stays on.
- **The worker reports no failure.** The worker puts only the string `"Processing"` and, at the end, its result (lines 260-296). If it raises after its first put, no further item arrives, so the status stays `Processing` with polling on. The model's `Status` therefore has only the three values the code sets.

## Model

| member | source | states |
|---|---|---|
| `Centroids.Truncate` | dev/td-modules/base_dominant_color/domColorEXT.py:276 | `astype(int)` truncates toward zero: for x ≥ 0 the result n satisfies n ≤ x < n+1; for x < 0 it satisfies n-1 < x ≤ n |
| `Centroids.TruncateCentre` | dev/td-modules/base_dominant_color/domColorEXT.py:276 | one centre truncated channel by channel; characterised through `Truncate` and `AnnotatedRows` |
| `Centroids.TruncateAll` | dev/td-modules/base_dominant_color/domColorEXT.py:276 | `colors.astype(int)`: every centre truncated, in order; `WorkerOutput` states that the channels of every result row are the truncation of one of the centres |
| `Centroids.WeightedSquares` | dev/td-modules/base_dominant_color/domColorEXT.py:285 | the radicand 0.299R²+0.587G²+0.114B² of the luminance is never negative |
| `Centroids.FloorSqrtFrom` | dev/td-modules/base_dominant_color/domColorEXT.py:285-290 | the upward search returns r ≥ n with r² ≤ s < (r+1)², i.e. the integer part of √s |
| `Centroids.FloorSqrt` | dev/td-modules/base_dominant_color/domColorEXT.py:285-290 | the integer stored for `math.sqrt(s)` after the int conversion: r² ≤ s < (r+1)² |
| `Centroids.FloorSqrtUnique` | dev/td-modules/base_dominant_color/domColorEXT.py:285-290 | any k with k² ≤ s < (k+1)² is the stored luminance (the bracket determines it) |
| `Centroids.Luminance` | dev/td-modules/base_dominant_color/domColorEXT.py:282-285 | the luminance of a centre is the integer root of its own weighted squares, computed from its three channels only |
| `Centroids.Luminances` | dev/td-modules/base_dominant_color/domColorEXT.py:277-287 | the list the luminance loop builds; `LuminanceList` is proved equal to it, and `AnnotatedRows` states that its i-th entry is the luminance of centre i |
| `Centroids.LuminanceExamples` | dev/td-modules/base_dominant_color/domColorEXT.py:285 | in exact arithmetic white maps to 255, red to 139, green to 195, black to 0, grey 10 to 10 and grey 250 to 250 |
| `Centroids.LuminanceList` | dev/td-modules/base_dominant_color/domColorEXT.py:277-287 | the loop yields one luminance per centre, in centre order, each the integer root of that centre's weighted squares |
| `Centroids.WithLuminance` | dev/td-modules/base_dominant_color/domColorEXT.py:290 | inserting the luminance list as column 3 keeps every row's three channels and puts the i-th luminance in row i |
| `Centroids.Annotated` | dev/td-modules/base_dominant_color/domColorEXT.py:290 | the truncated centres with their luminance column; `AnnotatedRows` states its length and that every row carries its own channels and their luminance |
| `Centroids.AnnotatedRows` | dev/td-modules/base_dominant_color/domColorEXT.py:276-290 | the annotated rows are the truncated centres in order, each with its own luminance as fourth column |
| `Centroids.Insert` | dev/td-modules/base_dominant_color/domColorEXT.py:293 | inserting into a sorted list after all rows of no greater luminance keeps it sorted and adds exactly that row |
| `Centroids.SortByLuminance` | dev/td-modules/base_dominant_color/domColorEXT.py:293 | the keyed sort returns a permutation of its input (same multiset) sorted ascending by the luminance column |
| `Centroids.WithKeyAppend` | dev/td-modules/base_dominant_color/domColorEXT.py:293 | selecting the rows of one luminance distributes over concatenation |
| `Centroids.InsertStable` | dev/td-modules/base_dominant_color/domColorEXT.py:293 | an inserted row goes after every earlier row of the same luminance |
| `Centroids.SortStable` | dev/td-modules/base_dominant_color/domColorEXT.py:293 | the sort is stable: for every luminance value, the rows with it keep their production order |
| `Centroids.Payload` | dev/td-modules/base_dominant_color/domColorEXT.py:276-293 | the sorted list the worker puts; `WorkerOutput` states its length, order, permutation, stability and per-row provenance, and `TwoColourPayload` gives an instance |
| `Centroids.WorkerOutput` | dev/td-modules/base_dominant_color/domColorEXT.py:276-293 | the worker's result has one row per centre, is sorted, is a permutation of the annotated centres, is stable, and every row is a truncated centre whose luminance comes from its own channels |
| `Ramp.Normalize` | dev/td-modules/base_dominant_color/domColorEXT.py:126 | all four values are divided by 255: each normalised value times 255 gives back r, g, b and luminosity |
| `Ramp.NormalizeRange` | dev/td-modules/base_dominant_color/domColorEXT.py:126 | values in 0..255 normalise into [0, 1], with 0 mapping to 0 and 255 to 1 |
| `Ramp.Kept` | dev/td-modules/base_dominant_color/domColorEXT.py:129-133 | the filter test of line 129; `SurvivorsSingle` states that it keeps a row exactly when lo ≤ luminosity/255 ≤ hi |
| `Ramp.Survivors` | dev/td-modules/base_dominant_color/domColorEXT.py:124-133 | the rows the first loop appends; characterised by `SurvivorsMembership` (both directions), `SurvivorsAppend` (input order kept), `SurvivorsSingle` and `SurvivorsLength`, and produced by `DomColorExt.DomColor.AppendSurvivors` |
| `Ramp.SurvivorsAppend` | dev/td-modules/base_dominant_color/domColorEXT.py:124-133 | filtering distributes over concatenation, so survivors keep their input order |
| `Ramp.SurvivorsSingle` | dev/td-modules/base_dominant_color/domColorEXT.py:129-133 | a row is kept exactly when lo ≤ luminosity/255 ≤ hi, with both bounds inclusive |
| `Ramp.SurvivorsMembership` | dev/td-modules/base_dominant_color/domColorEXT.py:124-133 | a vector survives if and only if it is the normalisation of some input row whose normalised luminosity lies in [lo, hi] |
| `Ramp.SurvivorsLength` | dev/td-modules/base_dominant_color/domColorEXT.py:124-133 | there are never more survivors than input rows, and each survivor has four values |
| `Ramp.Position` | dev/td-modules/base_dominant_color/domColorEXT.py:136-137 | `item[0] / (len(ColorsForDAT) - 1)` for m ≥ 2; `PositionsSpan`, `PositionsIncrease`, `PositionsBounded` and `PositionsOfThree` state 0 first, 1 last, strictly increasing within [0, 1] |
| `Ramp.LaidOut` | dev/td-modules/base_dominant_color/domColorEXT.py:136-145 | every entry with its position in front and alpha 1 behind; `FillRampLayout` states this entry by entry and `DomColorExt.DomColor.LayOut` is proved to produce it in place |
| `Ramp.RampTable` | dev/td-modules/base_dominant_color/domColorEXT.py:112-113 | the header row followed by one row per laid-out entry (lines 136-145); `RampTableShape` states its length and the six values of every row |
| `Ramp.PositionsIncrease` | dev/td-modules/base_dominant_color/domColorEXT.py:137 | the positions i/(m-1) strictly increase with i |
| `Ramp.PositionsBounded` | dev/td-modules/base_dominant_color/domColorEXT.py:137 | every position lies in [0, 1] |
| `Ramp.PositionsSpan` | dev/td-modules/base_dominant_color/domColorEXT.py:136-137 | with m ≥ 2 entries the first is at 0, the last at 1, and positions strictly increase within [0, 1] |
| `Ramp.PositionsOfThree` | dev/td-modules/base_dominant_color/domColorEXT.py:137 | three entries sit at 0, 0.5 and 1 |
| `Ramp.RampTableShape` | dev/td-modules/base_dominant_color/domColorEXT.py:136-145 | the table is the 6-name header followed by one row per entry: each row has 6 values, the position first, the four normalised values next and 1 last |
| `Session.Initial` | dev/td-modules/base_dominant_color/domColorEXT.py:58-84 | the state after initialisation; `DomColorExt.DomColor.constructor` is proved to establish it; its queue is empty, so `SessionOrder` applies to a session started from it |
| `Session.FillRampStep` | dev/td-modules/base_dominant_color/domColorEXT.py:111-150 | the effect of Fill_ramp; characterised by `FillRampWithoutInput`, `FillRampLayout` and `FillRampSingleEntry`, and met by `DomColorExt.DomColor.FillRamp` |
| `Session.FillRampWithoutInput` | dev/td-modules/base_dominant_color/domColorEXT.py:112-120 | a `None` input leaves the table holding only the header, and leaves `ColorsForDAT`, both counters, the queue, the status and polling unchanged |
| `Session.FillRampLayout` | dev/td-modules/base_dominant_color/domColorEXT.py:124-148 | the survivors are appended to the existing `ColorsForDAT`, which Fill_ramp never resets. Each of the m entries gets its position in front and alpha 1 behind, and the table holds m+1 rows. `resolutionw` and `Clusterswithinbounds` are both m |
| `Session.FillRampSingleEntry` | dev/td-modules/base_dominant_color/domColorEXT.py:136-137 | with exactly one entry the position division raises: the table holds only the header and both counters keep their values |
| `Session.ExamineStep` | dev/td-modules/base_dominant_color/domColorEXT.py:321-341 | the effect of one poll; characterised by `ExamineTransitions`, `FirstTick` and `SecondTick`, and met by `DomColorExt.DomColor.QueueExamine` |
| `Session.Ticks` | dev/td-modules/base_dominant_color/domColorEXT.py:321-341 | n per-frame polls in a row; `IdleTicks` and `SessionOrder` state what they do |
| `Session.ExamineTransitions` | dev/td-modules/base_dominant_color/domColorEXT.py:322-339 | the poller's three cases. An empty queue changes nothing. `"Processing"` sets the status to Processing and leaves polling as it was. A result goes to Fill_ramp; when Fill_ramp returns, the status becomes Ready and polling goes off; when it raises, status and polling are left as they were |
| `Session.IdleTicks` | dev/td-modules/base_dominant_color/domColorEXT.py:326 | any number of ticks on an empty queue leave the whole state unchanged |
| `Session.WorkerStep` | dev/td-modules/base_dominant_color/domColorEXT.py:259-296 | the effect of the worker thread; `WorkerMessages` states that it appends exactly `"Processing"` and the sorted result and changes nothing else, and `DomColorExt.DomColor.ProcessImageThreadWorker` meets it |
| `Session.ProcessImageStep` | dev/td-modules/base_dominant_color/domColorEXT.py:179-195 | the effect of Process_image on the state; `SessionOrder` and `TwoColourSession` start from it, and `DomColorExt.DomColor.ProcessImage` meets it |
| `Session.WorkerMessages` | dev/td-modules/base_dominant_color/domColorEXT.py:260-296 | the worker appends exactly two items, `"Processing"` first and then its sorted result, and changes nothing else |
| `Session.FirstTick` | dev/td-modules/base_dominant_color/domColorEXT.py:329-330 | the first tick of a session takes the status string off the queue and sets the status to Processing. Nothing else changes |
| `Session.SecondTick` | dev/td-modules/base_dominant_color/domColorEXT.py:333-336 | the next tick hands the result to Fill_ramp over the reset list. The status becomes Ready with polling off and the table built from the survivors, or, with exactly one survivor, stays as it was |
| `Session.SessionOrder` | dev/td-modules/base_dominant_color/domColorEXT.py:322-336 | a whole session after Process_image and the worker. One tick reports Processing with polling on. From two ticks on, the status is Ready with polling off and the ramp and counters built from the result's survivors. With exactly one survivor the status stays Processing for good. Ready never comes before Processing |
| `Session.SortTwo` | dev/td-modules/base_dominant_color/domColorEXT.py:293 | two rows with the second darker are swapped by the sort |
| `Session.TwoColourRows` | dev/td-modules/base_dominant_color/domColorEXT.py:276-290 | the centres (250,250,250) and (10,10,10) become the rows [250,250,250,250] and [10,10,10,10] |
| `Session.TwoColourPayload` | dev/td-modules/base_dominant_color/domColorEXT.py:276-293 | the worker's result for those two centres lists the darker first |
| `Session.TwoColourSurvivors` | dev/td-modules/base_dominant_color/domColorEXT.py:124-133 | with bounds [0, 1], both rows survive, normalised to 10/255 and 250/255 |
| `Session.TwoColourTable` | dev/td-modules/base_dominant_color/domColorEXT.py:136-145 | the two survivors are written at positions 0 and 1 with alpha 1 |
| `Session.TwoColourSession` | dev/td-modules/base_dominant_color/domColorEXT.py:322-336 | the whole session for those two centres ends, after two ticks, in status Ready with polling off and a two-row ramp at positions 0 and 1 in ascending luminance |
| `DomColorExt.DomColor.constructor` | dev/td-modules/base_dominant_color/domColorEXT.py:58-84 | initialisation: an empty fresh queue, status Standby, polling off, both lists empty, range (0, 1). The host's table and counters are kept |
| `DomColorExt.DomColor.FillRamp` | dev/td-modules/base_dominant_color/domColorEXT.py:111-150 | Fill_ramp's new state and its raise-or-return outcome are exactly those of `FillRampStep` |
| `DomColorExt.DomColor.AppendSurvivors` | dev/td-modules/base_dominant_color/domColorEXT.py:124-133 | the first loop appends exactly the survivors to `ColorsForDAT`, in order, and changes nothing else |
| `DomColorExt.DomColor.LayOut` | dev/td-modules/base_dominant_color/domColorEXT.py:136-148 | the second loop raises exactly when there is one entry, changing nothing. Otherwise it rewrites every entry in place with its position and alpha, appends one row per entry, and sets both counters to the count |
| `DomColorExt.DomColor.ProcessImage` | dev/td-modules/base_dominant_color/domColorEXT.py:179-195 | Process_image resets `LuminList` and `ColorsForDAT` to empty and sets the polling flag to 1; nothing else changes |
| `DomColorExt.DomColor.ProcessImageThreadWorker` | dev/td-modules/base_dominant_color/domColorEXT.py:259-296 | the worker's effect is exactly `WorkerStep`: two puts and nothing else |
| `DomColorExt.DomColor.QueueExamine` | dev/td-modules/base_dominant_color/domColorEXT.py:321-341 | one poll has exactly the effect of `ExamineStep` |

## Left out

- Image reading, colour conversion and reshaping (lines 263-269), and the KMeans fit (lines 272-274), are foreign library calls. The worker takes the list of cluster centres as its input instead.
- The thread and the real `queue.Queue` (lines 75, 190-192) are not modelled. The worker runs to completion as one sequential step that appends to a `seq`, so the model does not cover a poller tick landing between the worker's two puts, or two workers racing.
- Parameter reads, `store`/`fetch`/`unstore` (lines 77, 116, 325, 425) are host plumbing. The bounds `lo` and `hi` are method parameters. The queue fetched from storage is the queue field.
- Image saving (line 187), `Check_path` and `os.mkdir` (lines 199-222) are file-system I/O.
- `Import_external_test` (lines 343-402) uses `sys.path`, a UI message box and a web browser. `Clean_up` (lines 404-426) only clears host storage.
- `print` calls (lines 82, 120) are console output.
- dev/scripts/extHelperMOD.py is path setup, file writes and a pip install, all I/O. It is not part of this model.
- Floating point is not modelled. The weights, the division by 255 and the positions use exact reals. With doubles, a radicand that is exactly a perfect square can round just below it and give a luminance one smaller. White is an example: its radicand in double precision is 65024.99999999999 rather than 65025, so the program stores 254 where `Centroids.LuminanceExamples` gives 255; many grey levels (1, 2, 4, 8, …) are affected the same way.
- `DomColorExt.DomColor.ProcessImageThreadWorker`: line 285 calls `math.sqrt`, but `math` is not imported in this file (lines 5-12). Unless the host supplies it, the worker as written raises a NameError after its first put. The model computes the evidently intended formula.
- `Session.ExamineTransitions`: the bare `except` at lines 338-339 also swallows errors other than an empty queue. The model covers only the empty queue and the division by zero in Fill_ramp, and claims nothing about other exceptions.
- The rows of `ColorsForDAT` are values in the model. In the source they are distinct list objects built per row (line 126), so no aliasing is lost.
- The table cells keep numbers as numbers. The host would show them as text, which is presentation only.
