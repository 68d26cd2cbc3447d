# Cow behaviour timeline: a verified model

The dashboard takes the share link of a public Google Sheet and turns it into the
sheet's CSV export URL. It reads the observation log: one row per observation, with
`date` and `time` columns and one label column per cow. It turns the rows into a
timeline of behaviour intervals for one cow and draws them as a Gantt-style chart.

This project models these parts of that program in Dafny and proves their properties:

- **`SheetUrl`**: `google_sheet_to_csv_url`. Python's `str.split` and `str.join` are
  modelled and proved inverse to each other. The function is modelled twice: once as
  written, and once with the guard its index needs (see Findings).
- **`DateTime`**: the `%d-%m-%Y %H.%M.%S` reading that `pd.to_datetime` does with
  `errors='coerce'`. It is a strict fixed-width reading with calendar range checks, and
  gives whole seconds from 0001-01-01 00:00:00 in the proleptic Gregorian calendar. The
  project proves a round trip with a formatter, that parsing is injective, and that the
  timestamps keep calendar order.
- **`Pipeline`**: the DataFrame steps. It lowercases the headers and looks up `date` and
  `time`. It joins and parses them into `datetime`, then drops NaT. It computes
  `duration` by `shift(-1)` and drops NaN. It fills the cow's missing labels with
  `Unknown`, maps labels to ordinals with `behaviors.index` or -1, and filters out -1.
  - Each step is a pure function on a sequence of rows.
  - A missing cell (NaN) is `None`, and NaT is `None`.
  - `dropna` and boolean masks are `Lists.Select` at `Lists.Positions`.
  - Every row carries its original row number, so lemmas can trace each output row back
    to the sheet.
- **`Behaviors`**: the seven labels and their ordinals.
- **`ChartFrame`**: the y-axis ticks and the four white border lines of the chart.

The main results about the whole pipeline (`Pipeline.Timeline`):

- it fails when `date` or `time` is missing or duplicated after lowercasing, when the
  sheet has rows and some `date` column has every cell empty (pandas then reads that
  column as floats), or when another header lowers to the label column's name.
  Otherwise it succeeds, apart from the overflow listed under "Left out". The errors
  come in the order in which `(data['date'] + ' ') + data['time']` and the label lines
  raise them: a missing `date`, a float `date` column, a missing `time`, a shared
  `date`, a shared `time`, a shared label header;
- a sheet row appears in the timeline exactly when three things hold: its date and time
  parse, some later row's date and time parse, and its label is one of the seven
  behaviours;
- the kept rows stay in sheet order;
- each kept interval ends exactly when the next parsable row of the sheet starts, even
  when that row is later dropped for its label;
- in a strictly time-ordered sheet, two consecutive timeline bars touch exactly when no
  parsable row was dropped between them;
- the chart frame exists exactly when the timeline is non-empty, and then it encloses
  the start and band of every bar.

The frame spans the earliest to the latest bar start, not the bar ends. A bar ends
where the next parsable row starts, so a bar can extend past the right border. In a
time-ordered sheet the bar with the latest start does so by its duration, whenever that
duration is positive.

The date parser enters `Pipeline` as a parameter of type `string -> Option<int>`.
`Pipeline.CowTimeline` fixes it to `DateTime.Parse`. Every pipeline lemma holds for any
parser, except `Pipeline.ParsedIffFormatted` and `Pipeline.CowTimelineMembership`, which
are about `DateTime.Parse`.

## Model

| member | source | states |
|---|---|---|
| SheetUrl.Split | app.py:10 | `str.split` on one separator: at least one part, and no part contains the separator |
| SheetUrl.SplitCount | app.py:10 | a string splits into one more part than it has separators |
| SheetUrl.JoinSplit | app.py:10 | joining the parts of a split with the separator gives back the string |
| SheetUrl.SplitJoin | app.py:10 | splitting the join of separator-free parts gives back exactly those parts |
| SheetUrl.ToCsvUrlAsWritten | app.py:7-20 | the function exactly as written, guard `>= 3` and index 3; its outcome on every path is stated by `SheetUrl.AsWrittenOutcome` |
| SheetUrl.AsWrittenOutcome | app.py:13-16 | the function as written raises ValueError below three parts and IndexError at exactly three; it succeeds if and only if there are four or more parts |
| SheetUrl.ThreePartPathRaisesIndexError | app.py:13-14 | the path "/spreadsheets/d" splits into three parts, passes the guard, and fails with IndexError |
| SheetUrl.SheetId | app.py:14 | the sheet id exists if and only if the path has four or more parts, and then it is the path's fourth part, which contains no '/' |
| SheetUrl.ToCsvUrl | app.py:7-20 | succeeds if and only if the path has four or more parts; the only error is ValueError; the URL is the export prefix, the path's fourth part and the `/export?format=csv` suffix |
| SheetUrl.CorrectedAgreesExceptOnThreeParts | app.py:13-16 | the corrected function equals the one as written on every path except three-part ones, where ValueError replaces IndexError |
| SheetUrl.ExtractsIdFromSharePath | app.py:7-20 | for "/spreadsheets/d/<id>" followed by nothing or by "/...", the export URL carries exactly that id |
| DateTime.ReadFormat | app.py:45 | formatting valid fields gives a string of the fixed `DD-MM-YYYY HH.MM.SS` shape that reads back to the same fields |
| DateTime.Parse | app.py:45 | the coercing parse of one string; `DateTime.ParseSucceedsIffFormatted` states when it is not NaT, and `DateTime.ParseFormat` states which timestamp it gives |
| DateTime.FormatRead | app.py:45 | a well-shaped string with valid fields is the formatting of the fields read from it |
| DateTime.ParseFormat | app.py:45 | parsing the formatting of a valid date and time gives its timestamp |
| DateTime.ParseSucceedsIffFormatted | app.py:45 | a string parses (is not NaT) exactly when it is the formatting of some valid date and time |
| DateTime.ToSecondsOrdered | app.py:45 | a date and time earlier in the calendar has a smaller timestamp |
| DateTime.ToSecondsInjective | app.py:45 | different valid dates and times have different timestamps |
| DateTime.ParseInjective | app.py:45 | two strings that parse to the same timestamp are the same string |
| DateTime.MonthStep | app.py:45 | each month ends exactly where the next one begins, and December ends where the year ends |
| DateTime.YearStep | app.py:45 | the day count before year y+1 is the count before year y plus the length of year y under the Gregorian leap rule |
| Behaviors.BehaviorIndex | app.py:73 | the ordinal of a label is -1 exactly when the label is not one of the seven, and otherwise names a position holding that label |
| Behaviors.BehaviorsDistinct | app.py:57 | no behaviour label appears twice |
| Behaviors.BehaviorIndexOfEach | app.py:57 | the i-th behaviour maps to ordinal i, so labels and ordinals correspond one to one |
| Behaviors.UnknownIsUnmapped | app.py:71-73 | the fill value "Unknown" maps to -1 |
| Lists.IndexOf | app.py:73 | `xs.index(x) if x in xs else -1`: -1 exactly when x is absent, otherwise the position of the first occurrence |
| Lists.Positions | app.py:48 | the positions a boolean mask keeps are in range, true in the mask, and strictly increasing |
| Lists.PositionsComplete | app.py:54 | every true position of the mask is among the kept positions |
| Lists.Select | app.py:75 | a boolean-mask selection keeps the rows at the mask's true positions, in their original order |
| Pipeline.LowerAt | app.py:42 | lowering keeps the length, lowers each character, and leaves no upper-case ASCII letter |
| Pipeline.Lower | app.py:42 | `str.lower` on one header; `Pipeline.LowerAt` states it character by character, and `Pipeline.LowerIdempotent` states that lowering twice is lowering once |
| Pipeline.LowerIdempotent | app.py:42 | lowering a lowered header changes nothing |
| Pipeline.LowerColumns | app.py:42 | lowering the headers keeps the rows and the number of columns |
| Pipeline.LowerColumnsIdempotent | app.py:42 | normalising the headers twice is the same as once |
| Pipeline.ColumnIndex | app.py:45 | `data['date']`: a KeyError exactly when no header matches; success exactly when one header matches, and then it is the only column with that name |
| Pipeline.Joined | app.py:45 | `date + ' ' + time` is missing exactly when either cell is missing |
| Pipeline.AddDateTimes | app.py:45 | adding the datetime column keeps every row, its position and its cells |
| Pipeline.SurvivorsOfParsing | app.py:45-48 | after `dropna(subset=['datetime'])` the rows are exactly the sheet rows whose date and time parse, in sheet order, each with its own cells and timestamp |
| Pipeline.SurvivesParsingIff | app.py:45-48 | a sheet row survives the NaT drop if and only if its date and time parse |
| Pipeline.DropNaT | app.py:48 | `dropna(subset=['datetime'])`; `Pipeline.SurvivorsOfParsing` states that exactly the parsable sheet rows remain, in order |
| Pipeline.ShiftUp | app.py:51 | `shift(-1)` moves every value up one row and puts NaT last |
| Pipeline.Minus | app.py:51 | a difference is NaT exactly when an operand is, and otherwise adding it to the subtrahend gives the minuend |
| Pipeline.AddDurations | app.py:51 | adding the duration column keeps every row's position, cells and timestamp |
| Pipeline.DurationsOfStamped | app.py:51 | each parsed row's duration is the next parsed row's timestamp minus its own, and NaT on the last row |
| Pipeline.IntervalsOfStamped | app.py:51-54 | after `dropna(subset=['duration'])` every parsed row but the last remains, paired with the gap to the next row |
| Pipeline.DropNoDuration | app.py:54 | `dropna(subset=['duration'])`; `Pipeline.IntervalsOfStamped` states that every parsed row but the last remains, with the gap to the next |
| Pipeline.IntervalsChain | app.py:51-54 | every interval has a start and an end, the end of each is the start of the next, and the last ends at the last parsed timestamp |
| Pipeline.DurationsNonNegativeIffSorted | app.py:51-54 | every duration is non-negative if and only if the parsed rows are in time order |
| Pipeline.FilledLabel | app.py:71 | `fillna('Unknown')`: a missing label reads "Unknown" and a present one is kept |
| Pipeline.FillUnknown | app.py:71 | filling keeps every row and the label column |
| Pipeline.CellIndex | app.py:73 | a cell's ordinal is in [0, 7) exactly when it holds one of the seven labels, and then it names that label |
| Pipeline.AddBehaviorIndex | app.py:73 | the `behavior_index` column; `Pipeline.KeepKnownRows` states the ordinal of every kept row, and `Pipeline.CellIndex` the ordinal of one cell |
| Pipeline.KeepKnown | app.py:75 | `data[data['behavior_index'] != -1]`; `Pipeline.KeepKnownRows` states that exactly the rows with a known label remain, in order |
| Pipeline.KeepKnownRows | app.py:71-75 | the filter keeps, in order, exactly the rows whose filled label is a behaviour, each with that label's ordinal and its own cells, timestamp and duration |
| Pipeline.MissingLabelDropped | app.py:71-75 | a row whose label cell is missing is filtered out |
| Pipeline.DurationsKeepColumns | app.py:45-54 | the durations step keeps the cow's label column in every row |
| Pipeline.DurationsOfSheet | app.py:45-54 | the intervals are the parsed sheet rows except the last, each with its own cells, timestamp and the gap to the next parsed row |
| Pipeline.TimelineErrors | app.py:42-73 | the pipeline fails with the KeyError of a missing `date`; then with the TypeError of a `date` column whose every cell is empty in a non-empty sheet; then with the KeyError of a missing `time`; only when both are present, with a duplicate-column error for `date`, then `time`; then with the error of a label header that another lowered header shares. It succeeds exactly when none of these occurs, and with one `date` column the float check is on that column |
| Pipeline.SharedDateMissingTime | app.py:42-45 | with headers "Date", "date" and "Cow", the error is the KeyError for `time`, not the shared `date` |
| Pipeline.SharedLabelHeader | app.py:69-73 | with headers "date", "time", "Cow" and "cow" and the labels in "Cow", the transform fails on the shared name "cow" |
| Pipeline.EmptyDateColumn | app.py:45 | a sheet whose only row has an empty date fails with the TypeError of the float date column |
| Pipeline.EmptyDateMissingTime | app.py:45 | with headers "date" and "cow" and one row with an empty date, the TypeError of `data['date'] + ' '` is raised before `time` is looked up |
| Pipeline.TimelineFound | app.py:42-75 | with both columns found, a date column read as text and a label header of its own, the result is the label filter applied to the intervals of the sheet rows |
| Pipeline.Timeline | app.py:42-75 | the whole transform for one label column and any parser; `Pipeline.TimelineErrors` states its errors and `Pipeline.TimelineMembership` which sheet rows it keeps |
| Pipeline.CowTimeline | app.py:42-75 | the transform with the dashboard's parser; `Pipeline.CowTimelineMembership` states which sheet rows it keeps |
| Pipeline.TimelineSources | app.py:42-75 | every timeline row is traced to a parsed sheet row and a kept interval, with its cells, timestamp, duration and ordinal |
| Pipeline.TimelineOrdered | app.py:48-75 | the timeline lists sheet rows in sheet order, none twice |
| Pipeline.TimelineLabelled | app.py:45-75 | each timeline row parses, carries its own row's timestamp, and has an ordinal in [0, 7) naming its filled label |
| Pipeline.ParsedNext | app.py:45-48 | consecutive surviving rows are consecutive parsable rows of the sheet: none parses in between |
| Pipeline.TimelineChain | app.py:45-54 | each bar ends exactly when the first later parsable row of the sheet starts |
| Pipeline.ClassifiedMembership | app.py:45-75 | on the rows of a sheet, a row is among the classified intervals if and only if it parses, a later row parses, and its filled label is a behaviour |
| Pipeline.TimelineMembership | app.py:45-75 | a sheet row is in the timeline if and only if its date and time parse, a later row's parse too, and its filled label is a behaviour |
| Pipeline.ParsedIffFormatted | app.py:45 | under the dashboard's parser, a row's timestamp is not NaT exactly when `date + ' ' + time` is the DD-MM-YYYY HH.MM.SS writing of a real date and time |
| Pipeline.CowTimelineMembership | app.py:42-75 | a sheet row is in the dashboard's timeline if and only if its date and time are written as DD-MM-YYYY HH.MM.SS with in-range fields, a later row's are too, and its filled label is a behaviour |
| Pipeline.StrictlySortedAt | app.py:51 | in a sheet whose consecutive timestamps strictly increase, every earlier row is strictly earlier |
| Pipeline.IntervalsTouchIffAdjacent | app.py:51-54 | in a strictly time-ordered sheet, an interval ends where a later one starts exactly when that one comes next |
| Pipeline.KeptIntervalsTouchIffAdjacent | app.py:51-79 | in a strictly time-ordered sheet, two consecutive timeline bars touch exactly when they come from consecutive intervals, so a label dropped in between leaves a gap |
| ChartFrame.Ticks | app.py:93-94 | the ticks pair each ordinal 0 .. n-1 with the label at that position |
| ChartFrame.TicksNameOrdinals | app.py:93-94 | each ordinal a timeline row can carry has exactly one tick, whose text maps back to that ordinal |
| ChartFrame.EarliestStart | app.py:113 | the minimum start skips NaT: it is NaT exactly when no row has a start, and otherwise it is some row's start and no later than any row's |
| ChartFrame.LatestStart | app.py:114 | the maximum start skips NaT: it is NaT exactly when no row has a start, and otherwise it is some row's start and no earlier than any row's |
| ChartFrame.FrameLines | app.py:109-142 | the four border shapes; `ChartFrame.FrameIsRectangle` states that they close a rectangle and `ChartFrame.FrameEnclosesRows` that it tightly encloses the bar starts and bands |
| ChartFrame.FrameIsRectangle | app.py:109-142 | the four lines close a rectangle: bottom at y = -0.5 and top at y = n - 0.5 over the same x range, left and right at its ends |
| ChartFrame.FrameExistsIffStarted | app.py:109-142 | a frame exists exactly when some row has a start time |
| ChartFrame.FrameEnclosesRows | app.py:109-142 | every row with a start and an ordinal below n lies inside the frame, and the left and right borders pass through actual starts |
| ChartFrame.DrawableFramed | app.py:109-142 | rows that all have starts and ordinals are framed exactly when there are any, and then all are enclosed |
| ChartFrame.TimelineFramed | app.py:75-142 | the chart of a cow's timeline has a frame exactly when the timeline is non-empty, and the frame encloses every bar's start and band |

## Left out

- The Streamlit page (titles, images, text input, select box, `st.plotly_chart`): presentation and user input only.
- `pd.read_csv(csv_link)` and the network fetch: the model starts from the table as read (`Pipeline.Table`), with missing cells as `None`.
- `urlparse`: the model takes the URL's path component. The scheme, host, query and fragment do not affect the result.
- The choice of cow column (`data.columns[2..4]` behind the select box): the label column is the parameter `col`, a column of the sheet. On a sheet with fewer than five columns those positions name the `datetime` and `duration` columns that lines 45 and 51 append; the model does not cover that choice.
- A sheet header that lowers to `datetime`, `duration` or `behavior_index`: lines 45, 51 and 73 overwrite that column. The model keeps the sheet's cells apart from the columns it adds.
- The rest of the Plotly figure (`px.timeline` colours, title, fonts, margins, background, tick format and angle): styling only. The model keeps the bar geometry (start, end, ordinal), the ticks and the frame lines.
- What Plotly draws for a frame at NaT: `ChartFrame.FrameLines` returns `None` when no row has a start.
- `pd.to_datetime` leniencies beyond the strict format: the model does not accept one-digit fields, surrounding whitespace, other separators, or the seconds 60 and 61 that the `%S` pattern of pandas' strptime admits. The format is read as fixed-width digits with calendar range checks.
- Pipeline.Timeline: does not model the 64-bit nanosecond `timedelta64` of line 51. Two consecutive parsed timestamps more than about 292 years apart make that subtraction raise OverflowError; the model gives their exact difference in seconds and succeeds.
- Pipeline.TimelineErrors: states six errors (a missing or shared `date` or `time`, an all-empty date column, a shared label header) and no other, so it leaves out the OverflowError of line 51 (see Pipeline.Timeline).
- Pipeline.CowTimeline: inherits the gap of Pipeline.Timeline at line 51. Also, `DateTime.Parse` accepts the years 0001 to 9999 in whole seconds, while `pd.to_datetime` with `errors='coerce'` gives NaT outside its timestamp range (1677-09-21 to 2262-04-11). The model keeps the rows of such dates and the program drops them.
- `str.lower` outside ASCII: `Pipeline.Lower` lowers only 'A'..'Z'. The Thai labels and the expected header names are not affected.
- Cells that are not strings (a column of numbers typed as numbers by `read_csv`): every present cell is a string, and a missing one is `None`. A column whose cells are all empty is modelled: `Pipeline.ReadAsText` rejects such a `date` column. Such a `time` column makes every joined cell NaN in pandas and `None` in the model, so both drop every row.
- A header that occurs twice after lowercasing: `data['date']` returns a DataFrame, and the datetime line fails later with some pandas exception once both lookups have succeeded. A shared label header makes `data[column_name]` a DataFrame, and the `behavior_index` line raises ValueError on it. The model reports both as `DuplicateColumn` and does not name the exception. A missing `date` or `time` raises its KeyError first, and the model reports that first too.

## Findings

| source | as written | input that shows it | evidently intended | confidence | as-written member | corrected member |
|---|---|---|---|---|---|---|
| app.py:13-14 | `if len(path_parts) >= 3:` guards `path_parts[3]`, which needs four parts | the URL path "/spreadsheets/d" splits into three parts, passes the guard, and raises IndexError instead of the function's ValueError | guard `len(path_parts) >= 4`, so every unusable path raises the ValueError "Invalid Google Sheets URL or sheet ID not found." | high; not executed | SheetUrl.ThreePartPathRaisesIndexError | SheetUrl.ToCsvUrl |
