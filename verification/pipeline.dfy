/**
 * The row-to-interval transform of the dashboard (app.py, lines 42-75): lowercase
 * the headers, parse "date time" into timestamps, drop the rows that do not parse,
 * give each row the time until the next row as its duration, drop the last row,
 * map the chosen cow's label to a behaviour ordinal and keep the known ones.
 *
 * Each DataFrame step is a function over a sequence of rows; a row keeps `pos`,
 * its position in the sheet (the DataFrame index), so that order and membership
 * can be stated against the sheet as read.
 */
module Pipeline {
  import opened Wrappers
  import Lists
  import DateTime
  import Behaviors

  /** One cell of the sheet: its text, or None for an empty cell (NaN). */
  type Cell = Option<string>

  /** The sheet as read: the column headers and the rows of cells. */
  datatype Table = Table(columns: seq<string>, rows: seq<seq<Cell>>)

  /** Every row has one cell per column, as a DataFrame has. */
  predicate Rectangular(t: Table) {
    forall k :: 0 <= k < |t.rows| ==> |t.rows[k]| == |t.columns|
  }

  /**
   * The KeyError of `data['date']` / `data['time']`; a name that two headers share; and
   * the TypeError of `data['date'] + ' '` when the date column was read as numbers.
   */
  datatype PipelineError = MissingColumn(name: string) | DuplicateColumn(name: string) | NotText(name: string)

  /** A row once the 'datetime' column exists (None is NaT). */
  datatype Dated = Dated(pos: nat, cells: seq<Cell>, datetime: Option<int>)

  /** A row once the 'duration' column exists too (None is NaT). */
  datatype Timed = Timed(pos: nat, cells: seq<Cell>, datetime: Option<int>, duration: Option<int>)

  /** A row once the 'behavior_index' column exists too. */
  datatype Classified = Classified(pos: nat, cells: seq<Cell>, datetime: Option<int>, duration: Option<int>, behavior: int)

  // ------------------------------------------------------------ headers

  function LowerChar(c: char): char {
    if 'A' <= c <= 'Z' then (c as int + 32) as char else c
  }

  /** `s.lower()` on ASCII letters. */
  function Lower(s: string): string {
    if |s| == 0 then "" else [LowerChar(s[0])] + Lower(s[1..])
  }

  /** The same length, each character lowered, and no upper-case letter left. */
  lemma {:induction false} LowerAt(s: string)
    ensures |Lower(s)| == |s|
    ensures forall i :: 0 <= i < |s| ==> Lower(s)[i] == LowerChar(s[i])
    ensures forall i :: 0 <= i < |s| ==> !('A' <= Lower(s)[i] <= 'Z')
  {
    if |s| > 0 {
      LowerAt(s[1..]);
    }
  }

  /** Lowering twice is lowering once. */
  lemma {:induction false} LowerIdempotent(s: string)
    ensures Lower(Lower(s)) == Lower(s)
  {
    if |s| > 0 {
      LowerIdempotent(s[1..]);
      assert Lower(s)[1..] == Lower(s[1..]);
    }
  }

  /** `data.columns = [col.lower() for col in data.columns]`. */
  function LowerColumns(t: Table): (r: Table)
    ensures r.rows == t.rows && |r.columns| == |t.columns|
    ensures Rectangular(t) ==> Rectangular(r)
  {
    Table(seq(|t.columns|, i requires 0 <= i < |t.columns| => Lower(t.columns[i])), t.rows)
  }

  /** Lowering the headers again changes nothing. */
  lemma LowerColumnsIdempotent(t: Table)
    ensures LowerColumns(LowerColumns(t)) == LowerColumns(t)
  {
    var once := LowerColumns(t);
    forall i | 0 <= i < |t.columns|
      ensures LowerColumns(once).columns[i] == once.columns[i]
    {
      LowerIdempotent(t.columns[i]);
    }
  }

  /**
   * The column that `data[name]` selects: an error when no header has the name,
   * or when two headers share it (pandas then yields a frame, and the conversion fails).
   */
  function ColumnIndex(columns: seq<string>, name: string): (r: Result<nat, PipelineError>)
    ensures r == Err(MissingColumn(name)) <==> name !in columns
    ensures r.Ok? <==> Lists.Count(columns, name) == 1
    ensures r.Ok? ==> r.value < |columns| && columns[r.value] == name
    ensures r.Ok? ==> forall j :: 0 <= j < |columns| && columns[j] == name ==> j == r.value
  {
    var n := Lists.Count(columns, name);
    if n == 0 then Err(MissingColumn(name))
    else if n > 1 then Err(DuplicateColumn(name))
    else
      var k := Lists.IndexOf(columns, name);
      assert forall j :: 0 <= j < |columns| && columns[j] == name ==> j == k by {
        forall j | 0 <= j < |columns| && columns[j] == name
          ensures j == k
        {
          Lists.CountOnce(columns, name, j);
        }
      }
      Ok(k)
  }

  // ------------------------------------------------------------ datetime

  /** `date + ' ' + time` on one row: a missing operand gives a missing result. */
  function Joined(date: Cell, time: Cell): (r: Cell)
    ensures r.Some? <==> date.Some? && time.Some?
  {
    match (date, time)
    case (Some(d), Some(t)) => Some(d + " " + t)
    case _ => None
  }

  /**
   * A coercing timestamp parser: the timestamp of a string, or None (NaT) for one
   * that does not match. The dashboard uses DateTime.Parse; the steps below hold
   * for any parser.
   */
  type Parser = string -> Option<int>

  /** The 'datetime' value of one row: the coerced parse of its date and time cells. */
  function RowDateTime(row: seq<Cell>, di: nat, ti: nat, parse: Parser): Option<int>
    requires di < |row| && ti < |row|
  {
    match Joined(row[di], row[ti])
    case None => None
    case Some(s) => parse(s)
  }

  /** Every row has the date and time columns. */
  predicate HasColumns(rows: seq<seq<Cell>>, di: nat, ti: nat) {
    forall k :: 0 <= k < |rows| ==> di < |rows[k]| && ti < |rows[k]|
  }

  /** `data['datetime'] = pd.to_datetime(...)`: each row with its timestamp, or NaT. */
  function AddDateTimes(rows: seq<seq<Cell>>, di: nat, ti: nat, parse: Parser): (r: seq<Dated>)
    requires HasColumns(rows, di, ti)
    ensures |r| == |rows|
    ensures forall k :: 0 <= k < |r| ==> r[k].pos == k && r[k].cells == rows[k]
  {
    seq(|rows|, k requires 0 <= k < |rows| => Dated(k, rows[k], RowDateTime(rows[k], di, ti, parse)))
  }

  /** Which rows of the sheet parse. */
  function Parsable(rows: seq<seq<Cell>>, di: nat, ti: nat, parse: Parser): (mask: seq<bool>)
    requires HasColumns(rows, di, ti)
    ensures |mask| == |rows|
  {
    seq(|rows|, k requires 0 <= k < |rows| => RowDateTime(rows[k], di, ti, parse).Some?)
  }

  /** The rows of the sheet whose date and time parse, in order. */
  function ParsedPositions(rows: seq<seq<Cell>>, di: nat, ti: nat, parse: Parser): seq<nat>
    requires HasColumns(rows, di, ti)
  {
    Lists.Positions(Parsable(rows, di, ti, parse))
  }

  /** The rows whose timestamp is not NaT. */
  function Stamped(ds: seq<Dated>): (mask: seq<bool>)
    ensures |mask| == |ds| && forall k :: 0 <= k < |ds| ==> mask[k] == ds[k].datetime.Some?
  {
    seq(|ds|, k requires 0 <= k < |ds| => ds[k].datetime.Some?)
  }

  /** `data.dropna(subset=['datetime'])`. */
  function DropNaT(ds: seq<Dated>): seq<Dated> {
    Lists.Select(ds, Stamped(ds))
  }

  /** No timestamp is NaT. */
  predicate AllStamped(ds: seq<Dated>) {
    forall k :: 0 <= k < |ds| ==> ds[k].datetime.Some?
  }

  /**
   * d holds the rows of the sheet at the increasing positions ps, each with its
   * own cells and the timestamp of its date and time, none of them NaT.
   */
  predicate ParsedFrom(rows: seq<seq<Cell>>, di: nat, ti: nat, parse: Parser, ps: seq<nat>, d: seq<Dated>)
    requires HasColumns(rows, di, ti)
  {
    && |d| == |ps|
    && (forall i :: 0 <= i < |ps| ==> ps[i] < |rows|)
    && (forall i, j :: 0 <= i < j < |ps| ==> ps[i] < ps[j])
    && AllStamped(d)
    && (forall i :: 0 <= i < |d| ==>
          d[i].pos == ps[i] && d[i].cells == rows[ps[i]] && d[i].datetime == RowDateTime(rows[ps[i]], di, ti, parse))
  }

  /**
   * The rows that survive parsing are exactly the parsable rows, in sheet order,
   * each with its own timestamp, and none of them is NaT.
   */
  lemma SurvivorsOfParsing(rows: seq<seq<Cell>>, di: nat, ti: nat, parse: Parser)
    requires HasColumns(rows, di, ti)
    ensures ParsedFrom(rows, di, ti, parse, ParsedPositions(rows, di, ti, parse), DropNaT(AddDateTimes(rows, di, ti, parse)))
  {
    var ds := AddDateTimes(rows, di, ti, parse);
    assert Stamped(ds) == Parsable(rows, di, ti, parse);
  }

  /** A row of the sheet survives parsing if and only if its date and time parse. */
  lemma SurvivesParsingIff(rows: seq<seq<Cell>>, di: nat, ti: nat, parse: Parser, k: nat)
    requires HasColumns(rows, di, ti)
    requires k < |rows|
    ensures (exists i :: 0 <= i < |DropNaT(AddDateTimes(rows, di, ti, parse))| && DropNaT(AddDateTimes(rows, di, ti, parse))[i].pos == k)
        <==> RowDateTime(rows[k], di, ti, parse).Some?
  {
    SurvivorsOfParsing(rows, di, ti, parse);
    var d := DropNaT(AddDateTimes(rows, di, ti, parse));
    var mask := Parsable(rows, di, ti, parse);
    if RowDateTime(rows[k], di, ti, parse).Some? {
      assert mask[k];
      var i := Lists.PositionsComplete(mask, k);
      assert d[i].pos == k;
    }
  }

  // ------------------------------------------------------------ duration

  /** `series.shift(-1)`: each value moves up by one row and the last row gets NaT. */
  function ShiftUp(xs: seq<Option<int>>): (r: seq<Option<int>>)
    ensures |r| == |xs|
    ensures forall k :: 0 <= k < |xs| - 1 ==> r[k] == xs[k + 1]
    ensures |xs| > 0 ==> r[|xs| - 1] == None
  {
    if |xs| == 0 then [] else xs[1..] + [None]
  }

  /** Subtraction of timestamps, NaT when either side is NaT. */
  function Minus(a: Option<int>, b: Option<int>): (r: Option<int>)
    ensures r.Some? <==> a.Some? && b.Some?
    ensures r.Some? ==> b.value + r.value == a.value
  {
    if a.Some? && b.Some? then Some(a.value - b.value) else None
  }

  /** `data['duration'] = data['datetime'].shift(-1) - data['datetime']`. */
  function AddDurations(ds: seq<Dated>): (r: seq<Timed>)
    ensures |r| == |ds|
    ensures forall k :: 0 <= k < |ds| ==> r[k].pos == ds[k].pos && r[k].cells == ds[k].cells && r[k].datetime == ds[k].datetime
  {
    var next := ShiftUp(seq(|ds|, k requires 0 <= k < |ds| => ds[k].datetime));
    seq(|ds|, k requires 0 <= k < |ds| => Timed(ds[k].pos, ds[k].cells, ds[k].datetime, Minus(next[k], ds[k].datetime)))
  }

  /** The rows whose duration is not NaT. */
  function HasDuration(ts: seq<Timed>): (mask: seq<bool>)
    ensures |mask| == |ts| && forall k :: 0 <= k < |ts| ==> mask[k] == ts[k].duration.Some?
  {
    seq(|ts|, k requires 0 <= k < |ts| => ts[k].duration.Some?)
  }

  /** `data.dropna(subset=['duration'])`. */
  function DropNoDuration(ts: seq<Timed>): seq<Timed> {
    Lists.Select(ts, HasDuration(ts))
  }

  /** The intervals of the parsed rows, as the two duration steps compute them. */
  function Intervals(ds: seq<Dated>): seq<Timed> {
    DropNoDuration(AddDurations(ds))
  }

  /**
   * r pairs every row of ds but the last with the gap to the next row: the row's
   * own position, cells and timestamp, and the next timestamp minus its own.
   */
  predicate GapsOf(ds: seq<Dated>, r: seq<Timed>)
    requires AllStamped(ds)
  {
    && |r| == (if |ds| == 0 then 0 else |ds| - 1)
    && forall i :: 0 <= i < |r| ==>
         && r[i].pos == ds[i].pos && r[i].cells == ds[i].cells && r[i].datetime == ds[i].datetime
         && r[i].duration == Some(ds[i + 1].datetime.value - ds[i].datetime.value)
  }

  /**
   * On rows that all have a timestamp, only the last row lacks a duration: the
   * result has one row fewer (none for an empty input), and the duration of each
   * kept row is the next row's timestamp minus its own.
   */
  lemma IntervalsOfStamped(ds: seq<Dated>)
    requires AllStamped(ds)
    ensures GapsOf(ds, Intervals(ds))
  {
    var ts := AddDurations(ds);
    var n := if |ds| == 0 then 0 else |ds| - 1;
    DurationsOfStamped(ds);
    Lists.SelectPrefix(ts, HasDuration(ts), n);
  }

  /** On rows that all have a timestamp, each row but the last gets the gap to the next row as its duration. */
  lemma DurationsOfStamped(ds: seq<Dated>)
    requires AllStamped(ds)
    ensures forall k :: 0 <= k < |ds| ==>
      AddDurations(ds)[k].duration == (if k + 1 < |ds| then Some(ds[k + 1].datetime.value - ds[k].datetime.value) else None)
  {
    var next := ShiftUp(seq(|ds|, k requires 0 <= k < |ds| => ds[k].datetime));
    forall k | 0 <= k < |ds|
      ensures AddDurations(ds)[k].duration == (if k + 1 < |ds| then Some(ds[k + 1].datetime.value - ds[k].datetime.value) else None)
    {
      assert AddDurations(ds)[k].duration == Minus(next[k], ds[k].datetime);
    }
  }

  /** Every row has a timestamp and a duration. */
  predicate Complete(ts: seq<Timed>) {
    forall k :: 0 <= k < |ts| ==> ts[k].datetime.Some? && ts[k].duration.Some?
  }

  /** The end of a row's interval, `datetime + duration` (the chart's x_end). */
  function End(t: Timed): int
    requires t.datetime.Some? && t.duration.Some?
  {
    t.datetime.value + t.duration.value
  }

  /** Intervals chain: each one ends where the next parsed row starts, and the last ends at the last row. */
  lemma IntervalsChain(ds: seq<Dated>)
    requires AllStamped(ds)
    ensures Complete(Intervals(ds)) && |Intervals(ds)| == (if |ds| == 0 then 0 else |ds| - 1)
    ensures var r := Intervals(ds);
      && (forall i :: 0 <= i < |r| ==> End(r[i]) == ds[i + 1].datetime.value)
      && (forall i :: 0 <= i < |r| - 1 ==> End(r[i]) == r[i + 1].datetime.value)
      && (|r| > 0 ==> End(r[|r| - 1]) == ds[|ds| - 1].datetime.value)
  {
    IntervalsOfStamped(ds);
    GapsChain(ds, Intervals(ds));
  }

  /** The same, for any r that pairs each row of ds with the gap to the next. */
  lemma GapsChain(ds: seq<Dated>, r: seq<Timed>)
    requires AllStamped(ds) && GapsOf(ds, r)
    ensures Complete(r)
    ensures forall i :: 0 <= i < |r| ==> End(r[i]) == ds[i + 1].datetime.value
    ensures forall i :: 0 <= i < |r| - 1 ==> End(r[i]) == r[i + 1].datetime.value
    ensures |r| > 0 ==> End(r[|r| - 1]) == ds[|ds| - 1].datetime.value
  {
    forall k | 0 <= k < |r|
      ensures r[k].datetime.Some? && r[k].duration.Some? && End(r[k]) == ds[k + 1].datetime.value
    {
      assert r[k].duration == Some(ds[k + 1].datetime.value - ds[k].datetime.value);
    }
  }

  /** The rows are in time order (nothing sorts them). */
  predicate TimeSorted(ds: seq<Dated>)
    requires AllStamped(ds)
  {
    forall k :: 0 <= k < |ds| - 1 ==> ds[k].datetime.value <= ds[k + 1].datetime.value
  }

  /** Every duration is non-negative exactly when the sheet is already in time order. */
  lemma DurationsNonNegativeIffSorted(ds: seq<Dated>)
    requires AllStamped(ds)
    ensures Complete(Intervals(ds))
    ensures (forall i :: 0 <= i < |Intervals(ds)| ==> Intervals(ds)[i].duration.value >= 0) <==> TimeSorted(ds)
  {
    IntervalsOfStamped(ds);
    NonNegativeIffSorted(ds, Intervals(ds));
  }

  /** The same, for any r that pairs each row of ds with the gap to the next. */
  lemma NonNegativeIffSorted(ds: seq<Dated>, r: seq<Timed>)
    requires AllStamped(ds) && GapsOf(ds, r)
    ensures Complete(r)
    ensures (forall i :: 0 <= i < |r| ==> r[i].duration.value >= 0) <==> TimeSorted(ds)
  {
    forall k | 0 <= k < |r|
      ensures r[k].datetime.Some? && r[k].duration.Some?
    {
      assert r[k].duration == Some(ds[k + 1].datetime.value - ds[k].datetime.value);
    }
    if TimeSorted(ds) {
      forall i | 0 <= i < |r|
        ensures r[i].duration.value >= 0
      {
        assert ds[i].datetime.value <= ds[i + 1].datetime.value;
      }
    }
    if forall i :: 0 <= i < |r| ==> r[i].duration.value >= 0 {
      forall k | 0 <= k < |ds| - 1
        ensures ds[k].datetime.value <= ds[k + 1].datetime.value
      {
        assert r[k].duration.value >= 0;
      }
    }
  }

  // ------------------------------------------------------------ behaviour

  /** The label cell after `fillna('Unknown')`. */
  function FilledLabel(c: Cell): (s: string)
    ensures c.None? ==> s == Behaviors.UNKNOWN
    ensures c.Some? ==> s == c.value
  {
    match c
    case None => Behaviors.UNKNOWN
    case Some(v) => v
  }

  /** Every row has the chosen cow's column. */
  predicate HasLabelColumn(ts: seq<Timed>, col: nat) {
    forall k :: 0 <= k < |ts| ==> col < |ts[k].cells|
  }

  /** `data[column_name] = data[column_name].fillna('Unknown')`. */
  function FillUnknown(ts: seq<Timed>, col: nat): (r: seq<Timed>)
    requires HasLabelColumn(ts, col)
    ensures |r| == |ts| && HasLabelColumn(r, col)
  {
    seq(|ts|, k requires 0 <= k < |ts| =>
      var t := ts[k];
      Timed(t.pos, t.cells[col := Some(FilledLabel(t.cells[col]))], t.datetime, t.duration))
  }

  /** The cell's ordinal: NaN, like any value outside the list, maps to -1. */
  function CellIndex(c: Cell): (r: int)
    ensures -1 <= r < |Behaviors.BEHAVIORS|
    ensures 0 <= r <==> c.Some? && c.value in Behaviors.BEHAVIORS
    ensures 0 <= r ==> Behaviors.BEHAVIORS[r] == c.value
  {
    match c
    case None => -1
    case Some(v) => Behaviors.BehaviorIndex(v)
  }

  /** `data['behavior_index'] = data[column_name].apply(...)`. */
  function AddBehaviorIndex(ts: seq<Timed>, col: nat): (r: seq<Classified>)
    requires HasLabelColumn(ts, col)
    ensures |r| == |ts|
  {
    seq(|ts|, k requires 0 <= k < |ts| =>
      var t := ts[k];
      Classified(t.pos, t.cells, t.datetime, t.duration, CellIndex(t.cells[col])))
  }

  /** The rows whose ordinal is not -1. */
  function Known(cs: seq<Classified>): (mask: seq<bool>)
    ensures |mask| == |cs| && forall k :: 0 <= k < |cs| ==> mask[k] == (cs[k].behavior != -1)
  {
    seq(|cs|, k requires 0 <= k < |cs| => cs[k].behavior != -1)
  }

  /** `data[data['behavior_index'] != -1]`. */
  function KeepKnown(cs: seq<Classified>): seq<Classified> {
    Lists.Select(cs, Known(cs))
  }

  /** The rows whose label the filter keeps. */
  function KnownMask(ts: seq<Timed>, col: nat): (mask: seq<bool>)
    requires HasLabelColumn(ts, col)
    ensures |mask| == |ts|
  {
    seq(|ts|, k requires 0 <= k < |ts| => Behaviors.BehaviorIndex(FilledLabel(ts[k].cells[col])) != -1)
  }

  /** The label steps together: fill, map to ordinals, keep the known behaviours. */
  function Classify(ts: seq<Timed>, col: nat): seq<Classified>
    requires HasLabelColumn(ts, col)
  {
    KeepKnown(AddBehaviorIndex(FillUnknown(ts, col), col))
  }

  /**
   * r holds the rows of ts at the increasing positions qs, each with its position,
   * timestamp and duration, its label filled in, and the ordinal of a behaviour
   * that names that label.
   */
  predicate LabelledFrom(ts: seq<Timed>, col: nat, qs: seq<nat>, r: seq<Classified>)
    requires HasLabelColumn(ts, col)
  {
    && |r| == |qs|
    && (forall i :: 0 <= i < |qs| ==> qs[i] < |ts|)
    && (forall i, j :: 0 <= i < j < |qs| ==> qs[i] < qs[j])
    && forall i :: 0 <= i < |r| ==>
         var t := ts[qs[i]];
         && r[i].pos == t.pos && r[i].datetime == t.datetime && r[i].duration == t.duration
         && 0 <= r[i].behavior < |Behaviors.BEHAVIORS|
         && Behaviors.BEHAVIORS[r[i].behavior] == FilledLabel(t.cells[col])
         && r[i].cells == t.cells[col := Some(FilledLabel(t.cells[col]))]
  }

  /**
   * The labelled filter keeps exactly the rows whose filled label is one of the seven
   * behaviours, in their order, each with that behaviour's ordinal; the rest of the
   * row is as before.
   */
  lemma KeepKnownRows(ts: seq<Timed>, col: nat)
    requires HasLabelColumn(ts, col)
    ensures LabelledFrom(ts, col, Lists.Positions(KnownMask(ts, col)), Classify(ts, col))
  {
    var cs := AddBehaviorIndex(FillUnknown(ts, col), col);
    assert Known(cs) == KnownMask(ts, col);
  }

  /** A missing label is never kept. */
  lemma MissingLabelDropped(ts: seq<Timed>, col: nat, k: nat)
    requires HasLabelColumn(ts, col)
    requires k < |ts| && ts[k].cells[col].None?
    ensures !KnownMask(ts, col)[k]
  {
    Behaviors.UnknownIsUnmapped();
  }

  // ------------------------------------------------------------ the whole transform

  /** The rows after both `dropna` steps, before the cow is chosen. */
  function Durations(rows: seq<seq<Cell>>, di: nat, ti: nat, parse: Parser): seq<Timed>
    requires HasColumns(rows, di, ti)
  {
    Intervals(DropNaT(AddDateTimes(rows, di, ti, parse)))
  }

  /** The remaining rows still have every column of the sheet. */
  lemma DurationsKeepColumns(rows: seq<seq<Cell>>, di: nat, ti: nat, parse: Parser, col: nat)
    requires HasColumns(rows, di, ti)
    requires forall k :: 0 <= k < |rows| ==> col < |rows[k]|
    ensures HasLabelColumn(Durations(rows, di, ti, parse), col)
  {
    SurvivorsOfParsing(rows, di, ti, parse);
    IntervalsOfStamped(DropNaT(AddDateTimes(rows, di, ti, parse)));
  }

  /**
   * `read_csv` reads column i as text (object dtype) unless the sheet has rows and every
   * one of them leaves the column empty: then the column holds only NaN, as floats.
   */
  predicate ReadAsText(rows: seq<seq<Cell>>, i: nat) {
    |rows| == 0 || exists k :: 0 <= k < |rows| && i < |rows[k]| && rows[k][i].Some?
  }

  /**
   * Every column named "date" is read as text, so `data['date'] + ' '` succeeds: pandas
   * adds the space column by column, and a float column raises TypeError.
   */
  predicate DatesAsText(t: Table) {
    forall j :: 0 <= j < |t.columns| && t.columns[j] == "date" ==> ReadAsText(t.rows, j)
  }

  /** No other header lowers to the name of the label column, so `data[column_name]` is one column. */
  predicate LabelUnique(t: Table, col: nat)
    requires col < |t.columns|
  {
    Lists.Count(LowerColumns(t).columns, LowerColumns(t).columns[col]) == 1
  }

  /**
   * `filtered_data` for the cow whose labels are in column `col`, or the first error raised.
   * The datetime line evaluates `(data['date'] + ' ') + data['time']` left to right: a
   * missing "date" raises KeyError, then a date column of floats fails at its `+ ' '`, then
   * a missing "time" raises KeyError, and a shared header fails only afterwards. A label
   * header shared with another column makes `data[column_name]` a frame, and the
   * `behavior_index` line fails on it.
   */
  function Timeline(t: Table, col: nat, parse: Parser): Result<seq<Classified>, PipelineError>
    requires Rectangular(t) && col < |t.columns|
  {
    var lowered := LowerColumns(t);
    if "date" !in lowered.columns then Err(MissingColumn("date"))
    else if !DatesAsText(lowered) then Err(NotText("date"))
    else if "time" !in lowered.columns then Err(MissingColumn("time"))
    else
    match ColumnIndex(lowered.columns, "date")
    case Err(e) => Err(e)
    case Ok(di) =>
      match ColumnIndex(lowered.columns, "time")
      case Err(e) => Err(e)
      case Ok(ti) =>
        if !LabelUnique(t, col) then Err(DuplicateColumn(lowered.columns[col]))
        else
          DurationsKeepColumns(lowered.rows, di, ti, parse, col);
          Ok(Classify(Durations(lowered.rows, di, ti, parse), col))
  }

  /** The timeline of the dashboard, whose timestamps are read by DateTime.Parse. */
  function CowTimeline(t: Table, col: nat): Result<seq<Classified>, PipelineError>
    requires Rectangular(t) && col < |t.columns|
  {
    Timeline(t, col, DateTime.Parse)
  }

  /**
   * The transform fails with the first error raised: a missing "date", then a "date"
   * column read as floats, then a missing "time", then a shared "date", then a shared
   * "time", then a shared label header. It succeeds exactly when none of these occurs.
   * With a single "date" column, the float check is on that column alone.
   */
  lemma TimelineErrors(t: Table, col: nat, parse: Parser)
    requires Rectangular(t) && col < |t.columns|
    ensures var cols := LowerColumns(t).columns;
      var dates := DatesAsText(LowerColumns(t));
      && ("date" !in cols ==> Timeline(t, col, parse) == Err(MissingColumn("date")))
      && ("date" in cols && !dates ==> Timeline(t, col, parse) == Err(NotText("date")))
      && ("date" in cols && dates && "time" !in cols ==> Timeline(t, col, parse) == Err(MissingColumn("time")))
      && (Lists.Count(cols, "date") > 1 && dates && "time" in cols ==> Timeline(t, col, parse) == Err(DuplicateColumn("date")))
      && (Lists.Count(cols, "date") == 1 && dates && Lists.Count(cols, "time") > 1 ==>
            Timeline(t, col, parse) == Err(DuplicateColumn("time")))
      && (Lists.Count(cols, "date") == 1 && dates && Lists.Count(cols, "time") == 1 && Lists.Count(cols, cols[col]) > 1 ==>
            Timeline(t, col, parse) == Err(DuplicateColumn(cols[col])))
      && (Timeline(t, col, parse).Ok? <==>
            Lists.Count(cols, "date") == 1 && dates && Lists.Count(cols, "time") == 1 && Lists.Count(cols, cols[col]) == 1)
      && (Lists.Count(cols, "date") == 1 ==> (dates <==> ReadAsText(t.rows, ColumnIndex(cols, "date").value)))
  {
    var cols := LowerColumns(t).columns;
    assert Lists.Count(cols, cols[col]) > 0;
  }

  /**
   * Headers "Date", "date" and "Cow": after lowercasing "date" is shared and "time"
   * is absent, and the KeyError for "time" is the one raised.
   */
  lemma SharedDateMissingTime()
    ensures Timeline(Table(["Date", "date", "Cow"], []), 2, DateTime.Parse) == Err(MissingColumn("time"))
  {
    var lowered := LowerColumns(Table(["Date", "date", "Cow"], []));
    assert Lower("Date") == "date" && Lower("Cow") == "cow";
    assert lowered.columns == ["date", "date", "cow"];
  }

  /**
   * Headers "date", "time", "Cow" and "cow" with the labels in "Cow": after lowercasing
   * two columns answer to "cow", and the transform fails on that shared name.
   */
  lemma SharedLabelHeader()
    ensures Timeline(Table(["date", "time", "Cow", "cow"], []), 2, DateTime.Parse) == Err(DuplicateColumn("cow"))
  {
    var t := Table(["date", "time", "Cow", "cow"], []);
    SampleHeaders();
    var cols := LowerColumns(t).columns;
    assert cols == ["date", "time", "cow", "cow"];
    SharedLabelCounts(cols);
    TimelineErrors(t, 2, DateTime.Parse);
  }

  /** The lowered headers of the two samples. */
  lemma SampleHeaders()
    ensures LowerColumns(Table(["date", "time", "Cow", "cow"], [])).columns == ["date", "time", "cow", "cow"]
    ensures LowerColumns(Table(["date", "time", "cow"], [[None, Some("08.00.00"), Some("cow")]])).columns == ["date", "time", "cow"]
    ensures LowerColumns(Table(["date", "cow"], [[None, Some("cow")]])).columns == ["date", "cow"]
  {
    LowerAt("date");
    LowerAt("time");
    LowerAt("Cow");
    LowerAt("cow");
    assert Lower("date") == "date" && Lower("time") == "time" && Lower("Cow") == "cow" && Lower("cow") == "cow";
  }

  lemma SharedLabelCounts(cols: seq<string>)
    requires cols == ["date", "time", "cow", "cow"]
    ensures Lists.Count(cols, "date") == 1 && Lists.Count(cols, "time") == 1
    ensures Lists.Count(cols, cols[2]) == 2
  {
    assert cols[1..] == ["time", "cow", "cow"] && cols[2..] == ["cow", "cow"] && cols[3..] == ["cow"];
    assert Lists.Count(cols[3..], "cow") == 1 && Lists.Count(cols[2..], "cow") == 2;
  }

  /** A sheet whose one row leaves the date empty has a float date column, and `+ ' '` fails. */
  lemma EmptyDateColumn()
    ensures Timeline(Table(["date", "time", "cow"], [[None, Some("08.00.00"), Some("cow")]]), 2, DateTime.Parse)
      == Err(NotText("date"))
  {
    var t := Table(["date", "time", "cow"], [[None, Some("08.00.00"), Some("cow")]]);
    SampleHeaders();
    var cols := LowerColumns(t).columns;
    assert cols == ["date", "time", "cow"];
    assert !ReadAsText(t.rows, 0);
    assert !DatesAsText(LowerColumns(t));
    TimelineErrors(t, 2, DateTime.Parse);
  }

  /**
   * Headers "date" and "cow" and one row with an empty date: the float date column fails
   * at `+ ' '` before "time" is looked up, so the TypeError and not the KeyError is raised.
   */
  lemma EmptyDateMissingTime()
    ensures Timeline(Table(["date", "cow"], [[None, Some("cow")]]), 1, DateTime.Parse) == Err(NotText("date"))
  {
    var t := Table(["date", "cow"], [[None, Some("cow")]]);
    SampleHeaders();
    var cols := LowerColumns(t).columns;
    assert cols == ["date", "cow"];
    assert !ReadAsText(t.rows, 0);
    assert !DatesAsText(LowerColumns(t));
    TimelineErrors(t, 1, DateTime.Parse);
  }

  /** When both headers are found, every row has both columns and the transform succeeds. */
  lemma TimelineFound(t: Table, col: nat, di: nat, ti: nat, parse: Parser)
    requires Rectangular(t) && col < |t.columns|
    requires ColumnIndex(LowerColumns(t).columns, "date") == Ok(di)
    requires ColumnIndex(LowerColumns(t).columns, "time") == Ok(ti)
    requires ReadAsText(t.rows, di) && LabelUnique(t, col)
    ensures HasColumns(t.rows, di, ti) && HasLabelColumn(Durations(t.rows, di, ti, parse), col)
    ensures Timeline(t, col, parse) == Ok(Classify(Durations(t.rows, di, ti, parse), col))
  {
    var lowered := LowerColumns(t);
    assert DatesAsText(lowered) by {
      forall j | 0 <= j < |lowered.columns| && lowered.columns[j] == "date"
        ensures ReadAsText(lowered.rows, j)
      {
        assert j == di;
      }
    }
    assert "date" in lowered.columns && "time" in lowered.columns;
    DurationsKeepColumns(t.rows, di, ti, parse, col);
  }

  /**
   * Interval k of r comes from the k-th parsable row (ps lists them): it keeps that
   * row's cells and timestamp, and its duration runs to the (k+1)-th parsable row.
   */
  predicate IntervalFrom(rows: seq<seq<Cell>>, di: nat, ti: nat, parse: Parser, ps: seq<nat>, r: seq<Timed>, k: nat)
    requires HasColumns(rows, di, ti)
    requires k < |r|
  {
    && k + 1 < |ps| && ps[k] < ps[k + 1] < |rows|
    && r[k].pos == ps[k] && r[k].cells == rows[ps[k]]
    && r[k].datetime == RowDateTime(rows[ps[k]], di, ti, parse) && r[k].datetime.Some?
    && RowDateTime(rows[ps[k + 1]], di, ti, parse).Some?
    && r[k].duration == Some(RowDateTime(rows[ps[k + 1]], di, ti, parse).value - r[k].datetime.value)
  }

  /** r has one interval fewer than there are parsable rows, and interval k comes from the k-th. */
  predicate IntervalsFromSheet(rows: seq<seq<Cell>>, di: nat, ti: nat, parse: Parser, ps: seq<nat>, r: seq<Timed>)
    requires HasColumns(rows, di, ti)
  {
    && |r| == (if |ps| == 0 then 0 else |ps| - 1)
    && forall k :: 0 <= k < |r| ==> IntervalFrom(rows, di, ti, parse, ps, r, k)
  }

  /** The facts of the parsing step and of the duration step, chained. */
  lemma ChainStages(rows: seq<seq<Cell>>, di: nat, ti: nat, parse: Parser, ps: seq<nat>, d: seq<Dated>, r: seq<Timed>)
    requires HasColumns(rows, di, ti)
    requires ParsedFrom(rows, di, ti, parse, ps, d) && GapsOf(d, r)
    ensures IntervalsFromSheet(rows, di, ti, parse, ps, r)
  {
    forall k | 0 <= k < |r|
      ensures IntervalFrom(rows, di, ti, parse, ps, r, k)
    {
      assert ps[k] < ps[k + 1];
    }
  }

  /**
   * Both `dropna` steps together: the k-th remaining row is the k-th parsable row of
   * the sheet, and it ends where the (k+1)-th parsable row starts.
   */
  lemma DurationsOfSheet(rows: seq<seq<Cell>>, di: nat, ti: nat, parse: Parser)
    requires HasColumns(rows, di, ti)
    ensures IntervalsFromSheet(rows, di, ti, parse, ParsedPositions(rows, di, ti, parse), Durations(rows, di, ti, parse))
  {
    var d := DropNaT(AddDateTimes(rows, di, ti, parse));
    SurvivorsOfParsing(rows, di, ti, parse);
    IntervalsOfStamped(d);
    ChainStages(rows, di, ti, parse, ParsedPositions(rows, di, ti, parse), d, Intervals(d));
  }

  /**
   * Row i of the timeline out is interval qs[i] of the parsed rows ps: it starts at
   * that parsable row, runs to the next one, and its ordinal names that row's filled label.
   */
  predicate KeptFrom(rows: seq<seq<Cell>>, di: nat, ti: nat, parse: Parser, col: nat, ps: seq<nat>, qs: seq<nat>, out: seq<Classified>, i: nat)
    requires HasColumns(rows, di, ti)
    requires i < |out| && i < |qs|
  {
    && qs[i] + 1 < |ps| && ps[qs[i]] < ps[qs[i] + 1] < |rows| && col < |rows[ps[qs[i]]]|
    && out[i].pos == ps[qs[i]]
    && out[i].datetime == RowDateTime(rows[ps[qs[i]]], di, ti, parse) && out[i].datetime.Some?
    && RowDateTime(rows[ps[qs[i] + 1]], di, ti, parse).Some?
    && out[i].duration == Some(RowDateTime(rows[ps[qs[i] + 1]], di, ti, parse).value - out[i].datetime.value)
    && 0 <= out[i].behavior < |Behaviors.BEHAVIORS|
    && Behaviors.BEHAVIORS[out[i].behavior] == FilledLabel(rows[ps[qs[i]]][col])
  }

  /** Every row of out comes, as KeptFrom says, from the sheet. */
  predicate KeptAll(rows: seq<seq<Cell>>, di: nat, ti: nat, parse: Parser, col: nat, ps: seq<nat>, qs: seq<nat>, out: seq<Classified>)
    requires HasColumns(rows, di, ti)
  {
    && |out| == |qs|
    && forall i :: 0 <= i < |out| ==> KeptFrom(rows, di, ti, parse, col, ps, qs, out, i)
  }

  /** The facts of the duration steps and of the label steps, chained. */
  lemma ChainLabels(rows: seq<seq<Cell>>, di: nat, ti: nat, parse: Parser, col: nat,
                    ps: seq<nat>, ivs: seq<Timed>, qs: seq<nat>, out: seq<Classified>)
    requires HasColumns(rows, di, ti) && HasLabelColumn(ivs, col)
    requires IntervalsFromSheet(rows, di, ti, parse, ps, ivs) && LabelledFrom(ivs, col, qs, out)
    ensures KeptAll(rows, di, ti, parse, col, ps, qs, out)
  {
    forall i | 0 <= i < |out|
      ensures KeptFrom(rows, di, ti, parse, col, ps, qs, out, i)
    {
      assert IntervalFrom(rows, di, ti, parse, ps, ivs, qs[i]);
    }
  }

  /** The kept rows of a sheet whose headers are found, and where each comes from. */
  lemma TimelineSources(t: Table, col: nat, di: nat, ti: nat, parse: Parser)
    requires Rectangular(t) && col < |t.columns|
    requires ColumnIndex(LowerColumns(t).columns, "date") == Ok(di)
    requires ColumnIndex(LowerColumns(t).columns, "time") == Ok(ti)
    requires ReadAsText(t.rows, di) && LabelUnique(t, col)
    ensures HasColumns(t.rows, di, ti) && HasLabelColumn(Durations(t.rows, di, ti, parse), col)
    ensures Timeline(t, col, parse).Ok?
    ensures KeptAll(t.rows, di, ti, parse, col, ParsedPositions(t.rows, di, ti, parse),
                    Lists.Positions(KnownMask(Durations(t.rows, di, ti, parse), col)), Timeline(t, col, parse).value)
  {
    TimelineFound(t, col, di, ti, parse);
    DurationsOfSheet(t.rows, di, ti, parse);
    var ivs := Durations(t.rows, di, ti, parse);
    KeepKnownRows(ivs, col);
    ChainLabels(t.rows, di, ti, parse, col, ParsedPositions(t.rows, di, ti, parse), ivs,
                Lists.Positions(KnownMask(ivs, col)), Classify(ivs, col));
  }

  /** Rows picked by increasing positions from increasing positions come in increasing order. */
  lemma PickedInOrder(ps: seq<nat>, qs: seq<nat>, out: seq<Classified>)
    requires forall i, j :: 0 <= i < j < |ps| ==> ps[i] < ps[j]
    requires forall i, j :: 0 <= i < j < |qs| ==> qs[i] < qs[j]
    requires |out| == |qs| && forall i :: 0 <= i < |qs| ==> qs[i] < |ps| && out[i].pos == ps[qs[i]]
    ensures forall i, j :: 0 <= i < j < |out| ==> out[i].pos < out[j].pos
  {
    forall i, j | 0 <= i < j < |out|
      ensures out[i].pos < out[j].pos
    {
      assert qs[i] < qs[j];
    }
  }

  /** The timeline lists rows in sheet order, each at most once. */
  lemma TimelineOrdered(t: Table, col: nat, di: nat, ti: nat, parse: Parser)
    requires Rectangular(t) && col < |t.columns|
    requires ColumnIndex(LowerColumns(t).columns, "date") == Ok(di)
    requires ColumnIndex(LowerColumns(t).columns, "time") == Ok(ti)
    requires ReadAsText(t.rows, di) && LabelUnique(t, col)
    ensures Timeline(t, col, parse).Ok?
    ensures var out := Timeline(t, col, parse).value;
      forall i, j :: 0 <= i < j < |out| ==> out[i].pos < out[j].pos
  {
    TimelineSources(t, col, di, ti, parse);
    var out := Timeline(t, col, parse).value;
    var ps := ParsedPositions(t.rows, di, ti, parse);
    var qs := Lists.Positions(KnownMask(Durations(t.rows, di, ti, parse), col));
    assert forall i :: 0 <= i < |qs| ==> qs[i] < |ps| && out[i].pos == ps[qs[i]] by {
      forall i | 0 <= i < |qs|
        ensures qs[i] < |ps| && out[i].pos == ps[qs[i]]
      {
        assert KeptFrom(t.rows, di, ti, parse, col, ps, qs, out, i);
      }
    }
    PickedInOrder(ps, qs, out);
  }

  /**
   * Each kept row parses, carries that timestamp, and has a behaviour ordinal in
   * [0, 7) naming its filled label.
   */
  lemma TimelineLabelled(t: Table, col: nat, di: nat, ti: nat, parse: Parser)
    requires Rectangular(t) && col < |t.columns|
    requires ColumnIndex(LowerColumns(t).columns, "date") == Ok(di)
    requires ColumnIndex(LowerColumns(t).columns, "time") == Ok(ti)
    requires ReadAsText(t.rows, di) && LabelUnique(t, col)
    ensures HasColumns(t.rows, di, ti) && Timeline(t, col, parse).Ok?
    ensures StampedAndLabelled(t.rows, di, ti, parse, col, Timeline(t, col, parse).value)
  {
    TimelineSources(t, col, di, ti, parse);
    KeptLabelled(t.rows, di, ti, parse, col, ParsedPositions(t.rows, di, ti, parse),
                 Lists.Positions(KnownMask(Durations(t.rows, di, ti, parse), col)), Timeline(t, col, parse).value);
  }

  /**
   * Each row of out comes from a sheet row that parses: it carries that row's timestamp
   * and an ordinal in [0, 7) naming that row's filled label.
   */
  predicate StampedAndLabelled(rows: seq<seq<Cell>>, di: nat, ti: nat, parse: Parser, col: nat, out: seq<Classified>)
    requires HasColumns(rows, di, ti)
  {
    forall i :: 0 <= i < |out| ==>
      && out[i].pos < |rows| && col < |rows[out[i].pos]|
      && out[i].datetime.Some? && out[i].datetime == RowDateTime(rows[out[i].pos], di, ti, parse)
      && 0 <= out[i].behavior < |Behaviors.BEHAVIORS|
      && Behaviors.BEHAVIORS[out[i].behavior] == FilledLabel(rows[out[i].pos][col])
  }

  /** The per-row facts of KeptAll that do not mention the next parsable row. */
  lemma KeptLabelled(rows: seq<seq<Cell>>, di: nat, ti: nat, parse: Parser, col: nat, ps: seq<nat>, qs: seq<nat>, out: seq<Classified>)
    requires HasColumns(rows, di, ti) && KeptAll(rows, di, ti, parse, col, ps, qs, out)
    ensures StampedAndLabelled(rows, di, ti, parse, col, out)
  {
    forall i | 0 <= i < |out|
      ensures out[i].pos < |rows| && col < |rows[out[i].pos]|
      ensures out[i].datetime.Some? && out[i].datetime == RowDateTime(rows[out[i].pos], di, ti, parse)
      ensures 0 <= out[i].behavior < |Behaviors.BEHAVIORS|
      ensures Behaviors.BEHAVIORS[out[i].behavior] == FilledLabel(rows[out[i].pos][col])
    {
      assert KeptFrom(rows, di, ti, parse, col, ps, qs, out, i);
    }
  }

  /** Row q is the first row after row p whose date and time parse. */
  predicate NextParsable(rows: seq<seq<Cell>>, di: nat, ti: nat, parse: Parser, p: nat, q: nat)
    requires HasColumns(rows, di, ti)
    requires p < q < |rows|
  {
    && RowDateTime(rows[q], di, ti, parse).Some?
    && forall r :: p < r < q ==> RowDateTime(rows[r], di, ti, parse).None?
  }

  /**
   * The interval of row o has a start and an end, and ends exactly when the first
   * later row whose date and time parse begins.
   */
  predicate EndsAtNextParsable(rows: seq<seq<Cell>>, di: nat, ti: nat, parse: Parser, o: Classified)
    requires HasColumns(rows, di, ti)
  {
    && o.datetime.Some? && o.duration.Some?
    && exists q ::
         && o.pos < q < |rows| && NextParsable(rows, di, ti, parse, o.pos, q)
         && o.datetime.value + o.duration.value == RowDateTime(rows[q], di, ti, parse).value
  }

  /** Consecutive parsed positions are consecutive parsable rows: none parses in between. */
  lemma ParsedNext(rows: seq<seq<Cell>>, di: nat, ti: nat, parse: Parser, k: nat)
    requires HasColumns(rows, di, ti)
    requires k + 1 < |ParsedPositions(rows, di, ti, parse)|
    ensures var ps := ParsedPositions(rows, di, ti, parse);
      ps[k] < ps[k + 1] < |rows| && NextParsable(rows, di, ti, parse, ps[k], ps[k + 1])
  {
    var mask := Parsable(rows, di, ti, parse);
    var ps := Lists.Positions(mask);
    forall r | ps[k] < r < ps[k + 1]
      ensures RowDateTime(rows[r], di, ti, parse).None?
    {
      if mask[r] {
        Lists.PositionsGap(mask, k, r);
      }
    }
  }

  /**
   * Each kept interval ends exactly where the next parsable row of the sheet starts;
   * the rows it spans in between are the ones whose date and time do not parse.
   */
  lemma TimelineChain(t: Table, col: nat, di: nat, ti: nat, parse: Parser)
    requires Rectangular(t) && col < |t.columns|
    requires ColumnIndex(LowerColumns(t).columns, "date") == Ok(di)
    requires ColumnIndex(LowerColumns(t).columns, "time") == Ok(ti)
    requires ReadAsText(t.rows, di) && LabelUnique(t, col)
    ensures HasColumns(t.rows, di, ti) && Timeline(t, col, parse).Ok?
    ensures var out := Timeline(t, col, parse).value;
      forall i :: 0 <= i < |out| ==> EndsAtNextParsable(t.rows, di, ti, parse, out[i])
  {
    TimelineSources(t, col, di, ti, parse);
    KeptChain(t.rows, di, ti, parse, col, Lists.Positions(KnownMask(Durations(t.rows, di, ti, parse), col)), Timeline(t, col, parse).value);
  }

  /** Every kept interval runs from its own row to the next parsable row. */
  lemma KeptChain(rows: seq<seq<Cell>>, di: nat, ti: nat, parse: Parser, col: nat, qs: seq<nat>, out: seq<Classified>)
    requires HasColumns(rows, di, ti)
    requires KeptAll(rows, di, ti, parse, col, ParsedPositions(rows, di, ti, parse), qs, out)
    ensures forall i :: 0 <= i < |out| ==> EndsAtNextParsable(rows, di, ti, parse, out[i])
  {
    forall i | 0 <= i < |out|
      ensures EndsAtNextParsable(rows, di, ti, parse, out[i])
    {
      KeptEndsAtNext(rows, di, ti, parse, col, qs, out, i);
    }
  }

  /** A kept interval runs from its own row to the next parsable row. */
  lemma KeptEndsAtNext(rows: seq<seq<Cell>>, di: nat, ti: nat, parse: Parser, col: nat, qs: seq<nat>, out: seq<Classified>, i: nat)
    requires HasColumns(rows, di, ti)
    requires i < |out| && i < |qs|
    requires KeptFrom(rows, di, ti, parse, col, ParsedPositions(rows, di, ti, parse), qs, out, i)
    ensures EndsAtNextParsable(rows, di, ti, parse, out[i])
  {
    var ps := ParsedPositions(rows, di, ti, parse);
    ParsedNext(rows, di, ti, parse, qs[i]);
    var q := ps[qs[i] + 1];
    assert out[i].pos == ps[qs[i]];
    assert NextParsable(rows, di, ti, parse, out[i].pos, q);
  }

  /** A kept row parses, a later row parses, and its label is one of the seven. */
  lemma KeptQualifies(rows: seq<seq<Cell>>, di: nat, ti: nat, parse: Parser, col: nat, ps: seq<nat>, qs: seq<nat>, out: seq<Classified>, i: nat)
    requires HasColumns(rows, di, ti)
    requires i < |out| && i < |qs|
    requires KeptFrom(rows, di, ti, parse, col, ps, qs, out, i)
    ensures var p := out[i].pos;
      && p < |rows| && col < |rows[p]|
      && RowDateTime(rows[p], di, ti, parse).Some?
      && (exists q :: p < q < |rows| && RowDateTime(rows[q], di, ti, parse).Some?)
      && Behaviors.BehaviorIndex(FilledLabel(rows[p][col])) != -1
  {
    var q := ps[qs[i] + 1];
    assert out[i].pos < q < |rows| && RowDateTime(rows[q], di, ti, parse).Some?;
  }

  /** A row that parses, with a later row that parses and a known label, is kept. */
  lemma KeptWhenQualified(rows: seq<seq<Cell>>, di: nat, ti: nat, parse: Parser, col: nat, p: nat, q: nat)
    requires HasColumns(rows, di, ti) && HasLabelColumn(Durations(rows, di, ti, parse), col)
    requires p < q < |rows| && col < |rows[p]|
    requires RowDateTime(rows[p], di, ti, parse).Some? && RowDateTime(rows[q], di, ti, parse).Some?
    requires Behaviors.BehaviorIndex(FilledLabel(rows[p][col])) != -1
    ensures exists i :: 0 <= i < |Classify(Durations(rows, di, ti, parse), col)|
                        && Classify(Durations(rows, di, ti, parse), col)[i].pos == p
  {
    var mask := Parsable(rows, di, ti, parse);
    assert mask[p] && mask[q];
    var k := Lists.PositionsComplete(mask, p);
    Lists.PositionsGap(mask, k, q);
    DurationsOfSheet(rows, di, ti, parse);
    var ivs := Durations(rows, di, ti, parse);
    assert IntervalFrom(rows, di, ti, parse, ParsedPositions(rows, di, ti, parse), ivs, k);
    KeepKnownRows(ivs, col);
    assert KnownMask(ivs, col)[k];
    var i := Lists.PositionsComplete(KnownMask(ivs, col), k);
    assert Classify(ivs, col)[i].pos == p;
  }

  /** A row of the sheet that is kept parses, has a later row that parses, and has a known label. */
  lemma KeptOnlyIfQualified(rows: seq<seq<Cell>>, di: nat, ti: nat, parse: Parser, col: nat, qs: seq<nat>, out: seq<Classified>, p: nat)
    requires HasColumns(rows, di, ti)
    requires p < |rows| && col < |rows[p]|
    requires KeptAll(rows, di, ti, parse, col, ParsedPositions(rows, di, ti, parse), qs, out)
    requires exists i :: 0 <= i < |out| && out[i].pos == p
    ensures RowDateTime(rows[p], di, ti, parse).Some?
    ensures exists q :: p < q < |rows| && RowDateTime(rows[q], di, ti, parse).Some?
    ensures Behaviors.BehaviorIndex(FilledLabel(rows[p][col])) != -1
  {
    var i :| 0 <= i < |out| && out[i].pos == p;
    KeptQualifies(rows, di, ti, parse, col, ParsedPositions(rows, di, ti, parse), qs, out, i);
  }

  /**
   * A row of the sheet is in the timeline exactly when its date and time parse, some
   * later row parses too, and its filled label is one of the seven behaviours.
   */
  lemma TimelineMembership(t: Table, col: nat, di: nat, ti: nat, parse: Parser, p: nat)
    requires Rectangular(t) && col < |t.columns|
    requires ColumnIndex(LowerColumns(t).columns, "date") == Ok(di)
    requires ColumnIndex(LowerColumns(t).columns, "time") == Ok(ti)
    requires ReadAsText(t.rows, di) && LabelUnique(t, col)
    requires p < |t.rows|
    ensures HasColumns(t.rows, di, ti) && Timeline(t, col, parse).Ok?
    ensures var out := Timeline(t, col, parse).value;
      (exists i :: 0 <= i < |out| && out[i].pos == p) <==>
        && RowDateTime(t.rows[p], di, ti, parse).Some?
        && (exists q :: p < q < |t.rows| && RowDateTime(t.rows[q], di, ti, parse).Some?)
        && Behaviors.BehaviorIndex(FilledLabel(t.rows[p][col])) != -1
  {
    TimelineFound(t, col, di, ti, parse);
    ClassifiedMembership(t.rows, di, ti, parse, col, p);
  }

  /** Some row of out comes from sheet row p. */
  predicate Contains(out: seq<Classified>, p: nat) {
    exists i :: 0 <= i < |out| && out[i].pos == p
  }

  /** Row p parses, some later row parses, and its filled label is a known behaviour. */
  predicate Qualifies(rows: seq<seq<Cell>>, di: nat, ti: nat, parse: Parser, col: nat, p: nat)
    requires HasColumns(rows, di, ti) && p < |rows| && col < |rows[p]|
  {
    && RowDateTime(rows[p], di, ti, parse).Some?
    && (exists q :: p < q < |rows| && RowDateTime(rows[q], di, ti, parse).Some?)
    && Behaviors.BehaviorIndex(FilledLabel(rows[p][col])) != -1
  }

  /** A row of the classified intervals parses, has a later parsable row, and a known label. */
  lemma ClassifiedOnlyIfQualified(rows: seq<seq<Cell>>, di: nat, ti: nat, parse: Parser, col: nat, p: nat)
    requires HasColumns(rows, di, ti) && HasLabelColumn(Durations(rows, di, ti, parse), col)
    requires p < |rows| && col < |rows[p]|
    requires Contains(Classify(Durations(rows, di, ti, parse), col), p)
    ensures Qualifies(rows, di, ti, parse, col, p)
  {
    var ivs := Durations(rows, di, ti, parse);
    var qs := Lists.Positions(KnownMask(ivs, col));
    DurationsOfSheet(rows, di, ti, parse);
    KeepKnownRows(ivs, col);
    ChainLabels(rows, di, ti, parse, col, ParsedPositions(rows, di, ti, parse), ivs, qs, Classify(ivs, col));
    KeptOnlyIfQualified(rows, di, ti, parse, col, qs, Classify(ivs, col), p);
  }

  /** TimelineMembership, stated on the rows of a sheet whose columns are known. */
  lemma ClassifiedMembership(rows: seq<seq<Cell>>, di: nat, ti: nat, parse: Parser, col: nat, p: nat)
    requires HasColumns(rows, di, ti) && HasLabelColumn(Durations(rows, di, ti, parse), col)
    requires p < |rows| && col < |rows[p]|
    ensures Contains(Classify(Durations(rows, di, ti, parse), col), p) <==> Qualifies(rows, di, ti, parse, col, p)
  {
    if Contains(Classify(Durations(rows, di, ti, parse), col), p) {
      ClassifiedOnlyIfQualified(rows, di, ti, parse, col, p);
    }
    if Qualifies(rows, di, ti, parse, col, p) {
      ClassifiedIfQualified(rows, di, ti, parse, col, p);
    }
  }

  /** A row that qualifies is in the classified intervals. */
  lemma ClassifiedIfQualified(rows: seq<seq<Cell>>, di: nat, ti: nat, parse: Parser, col: nat, p: nat)
    requires HasColumns(rows, di, ti) && HasLabelColumn(Durations(rows, di, ti, parse), col)
    requires p < |rows| && col < |rows[p]|
    requires Qualifies(rows, di, ti, parse, col, p)
    ensures Contains(Classify(Durations(rows, di, ti, parse), col), p)
  {
    var q :| p < q < |rows| && RowDateTime(rows[q], di, ti, parse).Some?;
    KeptWhenQualified(rows, di, ti, parse, col, p, q);
  }

  /**
   * The row's `date + ' ' + time` is the DD-MM-YYYY HH.MM.SS writing of a real date and
   * time of day.
   */
  ghost predicate Formatted(row: seq<Cell>, di: nat, ti: nat)
    requires di < |row| && ti < |row|
  {
    var joined := Joined(row[di], row[ti]);
    joined.Some? && exists f :: DateTime.Valid(f) && DateTime.Format(f) == joined.value
  }

  /** Under the dashboard's parser a row's timestamp is not NaT exactly when the row is formatted. */
  lemma ParsedIffFormatted(row: seq<Cell>, di: nat, ti: nat)
    requires di < |row| && ti < |row|
    ensures RowDateTime(row, di, ti, DateTime.Parse).Some? <==> Formatted(row, di, ti)
  {
    var joined := Joined(row[di], row[ti]);
    if joined.Some? {
      DateTime.ParseSucceedsIffFormatted(joined.value);
    }
  }

  /**
   * A row of the sheet is in the dashboard's timeline exactly when its date and time
   * are written as DD-MM-YYYY HH.MM.SS with in-range fields, some later row's are too,
   * and its filled label is one of the seven behaviours.
   */
  lemma CowTimelineMembership(t: Table, col: nat, di: nat, ti: nat, p: nat)
    requires Rectangular(t) && col < |t.columns|
    requires ColumnIndex(LowerColumns(t).columns, "date") == Ok(di)
    requires ColumnIndex(LowerColumns(t).columns, "time") == Ok(ti)
    requires ReadAsText(t.rows, di) && LabelUnique(t, col)
    requires p < |t.rows|
    ensures HasColumns(t.rows, di, ti) && CowTimeline(t, col).Ok?
    ensures var out := CowTimeline(t, col).value;
      (exists i :: 0 <= i < |out| && out[i].pos == p) <==>
        && Formatted(t.rows[p], di, ti)
        && (exists q :: p < q < |t.rows| && Formatted(t.rows[q], di, ti))
        && Behaviors.BehaviorIndex(FilledLabel(t.rows[p][col])) != -1
  {
    TimelineMembership(t, col, di, ti, DateTime.Parse, p);
    forall q | 0 <= q < |t.rows|
      ensures RowDateTime(t.rows[q], di, ti, DateTime.Parse).Some? <==> Formatted(t.rows[q], di, ti)
    {
      ParsedIffFormatted(t.rows[q], di, ti);
    }
  }

  /** The timestamps strictly increase from row to row. */
  predicate StrictlyTimeSorted(ds: seq<Dated>)
    requires AllStamped(ds)
  {
    forall k :: 0 <= k < |ds| - 1 ==> ds[k].datetime.value < ds[k + 1].datetime.value
  }

  /** In a strictly time-ordered sheet, later rows have later timestamps. */
  lemma {:induction false} StrictlySortedAt(ds: seq<Dated>, i: nat, j: nat)
    requires AllStamped(ds) && StrictlyTimeSorted(ds)
    requires i < j < |ds|
    ensures ds[i].datetime.value < ds[j].datetime.value
    decreases j - i
  {
    if i + 1 < j {
      StrictlySortedAt(ds, i + 1, j);
    }
  }

  /**
   * Durations are taken before the label filter, so in a strictly time-ordered sheet
   * two consecutive kept intervals touch exactly when they come from consecutive
   * parsed rows: a dropped label in between leaves a gap in the timeline.
   */
  lemma KeptIntervalsTouchIffAdjacent(ds: seq<Dated>, col: nat, m: nat)
    requires AllStamped(ds) && StrictlyTimeSorted(ds)
    requires forall k :: 0 <= k < |ds| ==> col < |ds[k].cells|
    ensures HasLabelColumn(Intervals(ds), col)
    ensures var out := Classify(Intervals(ds), col);
      var qs := Lists.Positions(KnownMask(Intervals(ds), col));
      m + 1 < |out| ==>
        && |qs| == |out|
        && out[m].datetime.Some? && out[m].duration.Some? && out[m + 1].datetime.Some?
        && (out[m].datetime.value + out[m].duration.value == out[m + 1].datetime.value <==> qs[m + 1] == qs[m] + 1)
  {
    var ivs := Intervals(ds);
    IntervalsKeepLabelColumn(ds, col);
    KeepKnownRows(ivs, col);
    if m + 1 < |Classify(ivs, col)| {
      LabelledTouchIffAdjacent(ds, col, Lists.Positions(KnownMask(ivs, col)), Classify(ivs, col), m);
    }
  }

  /** KeptIntervalsTouchIffAdjacent, for any rows picked from the intervals at increasing positions qs. */
  lemma LabelledTouchIffAdjacent(ds: seq<Dated>, col: nat, qs: seq<nat>, out: seq<Classified>, m: nat)
    requires AllStamped(ds) && StrictlyTimeSorted(ds) && HasLabelColumn(Intervals(ds), col)
    requires LabelledFrom(Intervals(ds), col, qs, out) && m + 1 < |out|
    ensures out[m].datetime.Some? && out[m].duration.Some? && out[m + 1].datetime.Some?
    ensures out[m].datetime.value + out[m].duration.value == out[m + 1].datetime.value <==> qs[m + 1] == qs[m] + 1
  {
    assert qs[m] < qs[m + 1] < |Intervals(ds)|;
    IntervalsTouchIffAdjacent(ds, qs[m], qs[m + 1]);
  }

  /** The intervals keep every column of the rows. */
  lemma IntervalsKeepLabelColumn(ds: seq<Dated>, col: nat)
    requires AllStamped(ds)
    requires forall k :: 0 <= k < |ds| ==> col < |ds[k].cells|
    ensures HasLabelColumn(Intervals(ds), col)
  {
    IntervalsOfStamped(ds);
  }

  /** Two intervals of a strictly time-ordered sheet, a before b, touch exactly when b follows a. */
  lemma IntervalsTouchIffAdjacent(ds: seq<Dated>, a: nat, b: nat)
    requires AllStamped(ds) && StrictlyTimeSorted(ds)
    requires a < b < |Intervals(ds)|
    ensures Complete(Intervals(ds))
    ensures End(Intervals(ds)[a]) == Intervals(ds)[b].datetime.value <==> b == a + 1
  {
    IntervalsOfStamped(ds);
    GapsTouchIffAdjacent(ds, Intervals(ds), a, b);
  }

  /** The same, for any r that pairs each row of ds with the gap to the next. */
  lemma GapsTouchIffAdjacent(ds: seq<Dated>, r: seq<Timed>, a: nat, b: nat)
    requires AllStamped(ds) && StrictlyTimeSorted(ds) && GapsOf(ds, r)
    requires a < b < |r|
    ensures Complete(r)
    ensures End(r[a]) == r[b].datetime.value <==> b == a + 1
  {
    forall k | 0 <= k < |r|
      ensures r[k].datetime.Some? && r[k].duration.Some?
    {
      assert r[k].duration == Some(ds[k + 1].datetime.value - ds[k].datetime.value);
    }
    assert r[a].duration == Some(ds[a + 1].datetime.value - ds[a].datetime.value);
    assert r[b].datetime == ds[b].datetime;
    if a + 1 < b {
      StrictlySortedAt(ds, a + 1, b);
    }
  }
}
