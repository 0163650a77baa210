# LinePlot: scales, grid and nearest-sample cursor

A Dafny model of the interactive core of the `LinePlot` React component, a d3
time-series line chart. The component loads date/value rows, maps them onto an
870 by 180 pixel plot with a time scale and a linear value scale, and draws
grid lines at the scales' ticks. On every mouse move it inverts the pointer's
column into a time, bisects the dates to find the samples on either side, and
snaps a marker, two dashed guide lines and two tooltips to the nearer sample.

Modules, one per file:

- `Optional` (`optional.dfy`): `Option`, where `None` stands for JavaScript's `undefined`.
- `Layout` (`layout.dfy`): outer size, margins, plot width and height, points and line segments.
- `Dataset` (`dataset.dfy`): samples (date as epoch milliseconds, value as a real), date order, and the `d3.extent`/`d3.max` scans.
- `Scales` (`scales.dfy`): the affine scale in d3's form, its inverse, and the `Date` truncation applied by `x.invert`.
- `Locator` (`locator.dfy`): the left bisection, as a reference function and as the binary-search method. It also holds the choice between the two neighbours.
- `Grid` (`grid.dfy`): the horizontal and vertical grid lines for given tick lists.
- `Cursor` (`cursor.dfy`): the overlay state and the `LinePlot` class. The class fixes the data and scales, and its `OnMove` method overwrites the overlay's attributes in place.

Behaviour of the code that the model keeps:

- Equal distances choose the earlier sample `d0`, because the comparison on line 155 is a strict `>`.
- There is no mouse-leave handler. Once drawn, the overlay is never hidden again (`Replay`).
- A query after the last date, fewer than two samples, or an empty data set make the handler read `.date` of `undefined` and throw. The model returns `None`, and `OnMove` reports `thrown` and changes nothing.
- The layout is fixed: 960 by 250 pixels less the margins.

## Model

| member | source | states |
|---|---|---|
| `Layout.PlotSize` | src/LinePlot.jsx:17-26 | the plot is 870 by 180; adding the margins back gives the SVG's 960 by 250 |
| `Dataset.MinDate` | src/LinePlot.jsx:45-49 | the lower extent is the date of some sample and no sample is earlier |
| `Dataset.MaxDate` | src/LinePlot.jsx:45-49 | the upper extent is the date of some sample and no sample is later |
| `Dataset.MaxValue` | src/LinePlot.jsx:50-55 | `d3.max` is the value of some sample and no value exceeds it |
| `Dataset.SortedExtent` | src/LinePlot.jsx:45-49 | on date-ordered data the extent is the first and the last date |
| `Dataset.ProperExtentNeedsTwo` | src/LinePlot.jsx:45-49 | a time extent of positive length needs at least two samples |
| `Scales.Linear.Apply` | src/LinePlot.jsx:43-44 | the forward map of a d3 continuous scale; it sends the domain's endpoints to the range's |
| `Scales.Linear.Invert` | src/LinePlot.jsx:151 | the inverse map; it sends the range's endpoints back to the domain's |
| `Scales.Trunc` | src/LinePlot.jsx:151 | the time value handed to `Date` is truncated toward zero: within one of the real, on its side of zero |
| `Scales.TimeInvert` | src/LinePlot.jsx:151 | `x.invert` wrapped in a `Date`: the continuous inverse truncated toward zero, within one millisecond of it |
| `Scales.XScale` | src/LinePlot.jsx:43-49 | the x scale is proper exactly when the date extent has positive length, and then sends the earliest date to 0 and the latest to the width |
| `Scales.YScale` | src/LinePlot.jsx:44-55 | the y scale is proper exactly when the maximum value is non-zero, and then sends 0 to the height and the maximum to 0 |
| `Scales.YGridScale` | src/LinePlot.jsx:63-67 | the grid's y scale is proper exactly when its nice top is non-zero, and then sends 0 to the height and the top to 0 |
| `Scales.ApplyEndpoints` | src/LinePlot.jsx:43-44 | a scale sends its domain endpoints to its range endpoints |
| `Scales.InvertApply` | src/LinePlot.jsx:151 | `invert` undoes the forward map exactly |
| `Scales.ApplyInvert` | src/LinePlot.jsx:151 | the forward map undoes `invert` exactly |
| `Scales.ApplyInRange` | src/LinePlot.jsx:43-44 | a value inside the domain maps inside the pixel range |
| `Scales.InvertInDomain` | src/LinePlot.jsx:151 | a pixel inside the range inverts into the domain |
| `Scales.ApplyMonotone` | src/LinePlot.jsx:43-55 | the forward map is strictly increasing when domain and range run the same way, strictly decreasing when inverted |
| `Scales.XScaleProperties` | src/LinePlot.jsx:43-49 | the x scale sends the earliest date to 0 and the latest to the width, and `x.invert(x(t)) == t` for every time value |
| `Scales.YScaleProperties` | src/LinePlot.jsx:44-55 | the y scale sends 0 to the height and the largest value to 0; with a positive maximum, larger values plot higher |
| `Scales.PlotColumnInExtent` | src/LinePlot.jsx:142-151 | every column of the listening rectangle inverts to a time inside the date extent |
| `Locator.LeftIndex` | src/LinePlot.jsx:150-152 | the bisection's result is the first index at or after `lo` whose date is not before `x0`, or the length; never below `lo` |
| `Locator.LeftIndexSplits` | src/LinePlot.jsx:150-152 | on sorted data every sample from the bisection point on is not before `x0` |
| `Locator.LeftIndexUnique` | src/LinePlot.jsx:150-152 | any index that splits the data that way is the bisection's result |
| `Locator.BisectLeft` | src/LinePlot.jsx:150-152 | the binary search returns exactly the lower-bound index, started at `lo = 1` |
| `Locator.Pick` | src/LinePlot.jsx:155 | the choice is one of the two neighbours, the nearer one when they straddle `x0`, and `d0` on a tie |
| `Locator.Nearest` | src/LinePlot.jsx:150-155 | the lookup throws on fewer than two samples, and a sample it returns belongs to the data |
| `Locator.NearestDefinedIff` | src/LinePlot.jsx:152-155 | the handler does not throw if and only if there are at least two samples and `x0` is not after the last date |
| `Locator.NearestIsClosest` | src/LinePlot.jsx:150-155 | the chosen sample belongs to the data and no sample is closer to `x0` |
| `Locator.NearestPrefersEarlier` | src/LinePlot.jsx:155 | every sample dated before the chosen one is strictly farther from `x0`, so ties resolve to the earlier date |
| `Locator.ChoosesCloserLater` | src/LinePlot.jsx:150-155 | samples at 0, 10, 20 and a query at 7 give the sample at 10 |
| `Locator.TieChoosesEarlier` | src/LinePlot.jsx:155 | samples at 0 and 10 and a query at 5 give the sample at 0 |
| `Locator.PastLastThrows` | src/LinePlot.jsx:152-155 | a query after the last date leaves `d1` undefined |
| `Grid.YGrid` | src/LinePlot.jsx:63-79 | one horizontal line per tick, from x = 0 to the width, at the tick's pixel height |
| `Grid.XGrid` | src/LinePlot.jsx:80-95 | one vertical line per date tick, from y = 0 to the height, at the tick's pixel column |
| `Grid.YGridInPlot` | src/LinePlot.jsx:63-78 | ticks inside the nice domain give lines inside the plot, and ascending ticks give lines that climb |
| `Grid.XGridInPlot` | src/LinePlot.jsx:80-94 | date ticks inside the extent give lines inside the plot, and later ticks lie further right |
| `Cursor.Hidden` | src/LinePlot.jsx:115-139 | the overlay before any event is not shown: radius 0, no marker position, empty tooltips |
| `Cursor.Frame` | src/LinePlot.jsx:156-200 | the overlay for a sample is shown with radius 5; the vertical guide runs through the marker from 0 to the height, the horizontal one from 0 to the width; the value tooltip sits 20 px below the marker's height at width + 90, the date tooltip 60 px right of its column at height + 53 |
| `Cursor.Moved` | src/LinePlot.jsx:148-201 | a move throws on fewer than two samples, and otherwise draws the frame of one of the data's samples |
| `Cursor.Step` | src/LinePlot.jsx:148-201 | one event leaves the overlay as it was or replaces it by the frame of one of the data's samples |
| `Cursor.Replay` | src/LinePlot.jsx:148-201 | after a run of moves the overlay is the starting one or some sample's frame, and a shown overlay stays shown (there is no mouse-leave handler) |
| `Cursor.ColumnHasNearest` | src/LinePlot.jsx:142-155 | for every column of the listening rectangle the lookup does not throw, and its sample lies in the extent with no sample closer |
| `Cursor.FrameMarksSample` | src/LinePlot.jsx:156-157 | the marker's column inverts back to the sample's date and its height back to the sample's value |
| `Cursor.MoveOverPlot` | src/LinePlot.jsx:142-160 | a move over the listening rectangle never throws: it draws the frame of a sample no other sample is closer to, with the marker inside the plot's width |
| `Cursor.ReplayShownIff` | src/LinePlot.jsx:115-201 | from the initial overlay, it is shown after a run of moves if and only if one of them did not throw |
| `Cursor.ReplayLastWins` | src/LinePlot.jsx:148-201 | a move that does not throw replaces the whole overlay, so only the last sample is kept |
| `Cursor.LinePlot.constructor` | src/LinePlot.jsx:43-139 | the scales are the data's x and y scales, and the overlay starts as `Hidden` |
| `Cursor.LinePlot.OnMove` | src/LinePlot.jsx:148-201 | the handler throws exactly when the lookup fails, leaving the overlay unchanged; otherwise it draws the frame of the nearest sample |

## Left out

- Fetching and parsing the CSV (`d3.csv`, `timeParse`, `+d.value`): network I/O and a foreign parser. Samples arrive already typed, and a value is always a number.
- SVG and DOM construction, styling, the axes and the line path generator: rendering only.
- d3's tick generators and `.nice()`: library algorithms. Tick lists are inputs, and so is the nice top of the grid's y domain (`niceTop`).
- The 50 ms radius transition: only its final radius, 5, is modelled.
- `d3.pointer`: the pointer column `px` is a parameter.
- Tooltip text formatting (`toFixed(2)`, `toISOString().slice(0, 10)`): tooltips carry the raw value and time value, with their fixed CSS offsets. The `"N/A"` branch cannot arise, because every modelled sample has a date and a value.
- React lifecycle (`useEffect`, `useRef`).
- Floating point: scales are computed over reals, so the round trip is exact rather than within rounding.
- The bisector's guard for an invalid (NaN) query date, and `Date`'s range limit of 8.64e15 ms: query times here are always integers.
- The bisector's midpoint `(lo + hi) >>> 1` is modelled as `(lo + hi) / 2`. The two are equal for any array shorter than 2^31 elements.
- Cursor.LinePlot.constructor: requires date-ordered data, a date extent of positive length and a non-zero maximum value. For zero-length domains d3 maps everything to the range midpoint, and that case is not modelled.
