/**
 * The geometry of the timeline chart: the y-axis ticks that name the behaviour
 * ordinals, and the four white lines that frame the plot from the earliest to
 * the latest start time and from just below ordinal 0 to just above the last one.
 */
module ChartFrame {
  import opened Wrappers
  import Behaviors
  import Pipeline

  /** One y-axis tick: the ordinal it marks and the text shown there. */
  datatype Tick = Tick(value: int, text: string)

  /** `tickvals=list(range(len(labels)))` zipped with `ticktext=labels`. */
  function Ticks(labels: seq<string>): (ts: seq<Tick>)
    ensures |ts| == |labels|
    ensures forall i :: 0 <= i < |ts| ==> ts[i] == Tick(i, labels[i])
  {
    seq(|labels|, i requires 0 <= i < |labels| => Tick(i, labels[i]))
  }

  /**
   * Every ordinal a timeline row can carry has exactly one tick, and that tick's text
   * is the label that maps back to the ordinal.
   */
  lemma TicksNameOrdinals(b: int)
    requires 0 <= b < |Behaviors.BEHAVIORS|
    ensures var ts := Ticks(Behaviors.BEHAVIORS);
      && (forall i :: 0 <= i < |ts| && ts[i].value == b ==> i == b)
      && ts[b].value == b
      && Behaviors.BehaviorIndex(ts[b].text) == b
  {
    Behaviors.BehaviorIndexOfEach(b);
  }

  /** The smaller of two optional timestamps, where None (NaT) is skipped. */
  function MinSkipNaT(a: Option<int>, b: Option<int>): Option<int> {
    match (a, b)
    case (None, _) => b
    case (_, None) => a
    case (Some(x), Some(y)) => Some(if x <= y then x else y)
  }

  /** The larger of two optional timestamps, where None (NaT) is skipped. */
  function MaxSkipNaT(a: Option<int>, b: Option<int>): Option<int> {
    match (a, b)
    case (None, _) => b
    case (_, None) => a
    case (Some(x), Some(y)) => Some(if x >= y then x else y)
  }

  /** `filtered_data['datetime'].min()`: the earliest start, or NaT when there is none. */
  function EarliestStart(rows: seq<Pipeline.Classified>): (m: Option<int>)
    ensures m.None? <==> forall i :: 0 <= i < |rows| ==> rows[i].datetime.None?
    ensures m.Some? ==> forall i :: 0 <= i < |rows| && rows[i].datetime.Some? ==> m.value <= rows[i].datetime.value
    ensures m.Some? ==> exists i :: 0 <= i < |rows| && rows[i].datetime == m
  {
    if |rows| == 0 then None
    else
      var rest := EarliestStart(rows[1..]);
      assert forall i :: 1 <= i < |rows| ==> rows[i] == rows[1..][i - 1];
      MinSkipNaT(rows[0].datetime, rest)
  }

  /** `filtered_data['datetime'].max()`: the latest start, or NaT when there is none. */
  function LatestStart(rows: seq<Pipeline.Classified>): (m: Option<int>)
    ensures m.None? <==> forall i :: 0 <= i < |rows| ==> rows[i].datetime.None?
    ensures m.Some? ==> forall i :: 0 <= i < |rows| && rows[i].datetime.Some? ==> rows[i].datetime.value <= m.value
    ensures m.Some? ==> exists i :: 0 <= i < |rows| && rows[i].datetime == m
  {
    if |rows| == 0 then None
    else
      var rest := LatestStart(rows[1..]);
      assert forall i :: 1 <= i < |rows| ==> rows[i] == rows[1..][i - 1];
      MaxSkipNaT(rows[0].datetime, rest)
  }

  /** A line segment of the layout: x in seconds, y in behaviour ordinals. */
  datatype Line = Line(x0: int, x1: int, y0: real, y1: real)

  /** The y of the bottom border, half an ordinal below the first band. */
  const BOTTOM: real := -0.5

  /** The y of the top border, half an ordinal above the last of n bands. */
  function Top(n: nat): real {
    n as real - 0.5
  }

  /**
   * The four `shapes` of the layout for n behaviour bands: bottom, top, left and right
   * border. There is no frame when no row has a start time.
   */
  function FrameLines(rows: seq<Pipeline.Classified>, n: nat): Option<seq<Line>> {
    match (EarliestStart(rows), LatestStart(rows))
    case (Some(lo), Some(hi)) =>
      Some([Line(lo, hi, BOTTOM, BOTTOM), Line(lo, hi, Top(n), Top(n)),
            Line(lo, lo, BOTTOM, Top(n)), Line(hi, hi, BOTTOM, Top(n))])
    case _ => None
  }

  /** The frame the chart draws around the timeline rows. */
  function ChartLines(rows: seq<Pipeline.Classified>): Option<seq<Line>> {
    FrameLines(rows, |Behaviors.BEHAVIORS|)
  }

  /** The row's bar starts within the frame's x range and its band lies strictly inside the y range. */
  predicate Encloses(frame: seq<Line>, r: Pipeline.Classified)
    requires |frame| == 4
  {
    && r.datetime.Some?
    && frame[0].x0 <= r.datetime.value <= frame[0].x1
    && frame[0].y0 < r.behavior as real < frame[1].y0
  }

  /**
   * The four lines close a rectangle: two horizontal borders over the same x range, at
   * half an ordinal below band 0 and above band n - 1, and two vertical borders at its
   * ends spanning from one to the other.
   */
  lemma FrameIsRectangle(rows: seq<Pipeline.Classified>, n: nat)
    requires FrameLines(rows, n).Some?
    ensures var f := FrameLines(rows, n).value;
      && |f| == 4
      && f[0].y0 == f[0].y1 == -0.5 && f[1].y0 == f[1].y1 == n as real - 0.5
      && f[0].x0 == f[1].x0 && f[0].x1 == f[1].x1 && f[0].x0 <= f[0].x1
      && f[2].x0 == f[2].x1 == f[0].x0 && f[3].x0 == f[3].x1 == f[0].x1
      && f[2].y0 == f[3].y0 == f[0].y0 && f[2].y1 == f[3].y1 == f[1].y0
  {
  }

  /** A frame is drawn exactly when some row has a start time. */
  lemma FrameExistsIffStarted(rows: seq<Pipeline.Classified>, n: nat)
    ensures FrameLines(rows, n).Some? <==> exists i :: 0 <= i < |rows| && rows[i].datetime.Some?
  {
  }

  /**
   * Every row with a start time and an ordinal below n lies inside the frame, and the
   * frame is tight: its left border passes through the earliest start and its right
   * border through the latest.
   */
  lemma FrameEnclosesRows(rows: seq<Pipeline.Classified>, n: nat)
    requires FrameLines(rows, n).Some?
    ensures var f := FrameLines(rows, n).value;
      && |f| == 4
      && (forall i :: 0 <= i < |rows| && rows[i].datetime.Some? && 0 <= rows[i].behavior < n ==> Encloses(f, rows[i]))
      && (exists i :: 0 <= i < |rows| && rows[i].datetime == Some(f[2].x0))
      && (exists i :: 0 <= i < |rows| && rows[i].datetime == Some(f[3].x0))
  {
  }

  /** Every row has a start time and an ordinal below n, as the timeline's rows do. */
  predicate Drawable(rows: seq<Pipeline.Classified>, n: nat) {
    forall i :: 0 <= i < |rows| ==> rows[i].datetime.Some? && 0 <= rows[i].behavior < n
  }

  /** Drawable rows are framed exactly when there are any, and then all of them are enclosed. */
  lemma DrawableFramed(rows: seq<Pipeline.Classified>, n: nat)
    requires Drawable(rows, n)
    ensures FrameLines(rows, n).Some? <==> |rows| > 0
    ensures FrameLines(rows, n).Some? ==>
      |FrameLines(rows, n).value| == 4 && forall i :: 0 <= i < |rows| ==> Encloses(FrameLines(rows, n).value, rows[i])
  {
    FrameExistsIffStarted(rows, n);
    if |rows| > 0 {
      assert rows[0].datetime.Some?;
    }
    if FrameLines(rows, n).Some? {
      FrameEnclosesRows(rows, n);
    }
  }

  /**
   * On the rows of a cow's timeline the frame exists exactly when the timeline is
   * non-empty, and then it encloses every bar's start and band.
   */
  lemma TimelineFramed(t: Pipeline.Table, col: nat, di: nat, ti: nat, parse: Pipeline.Parser)
    requires Pipeline.Rectangular(t) && col < |t.columns|
    requires Pipeline.ColumnIndex(Pipeline.LowerColumns(t).columns, "date") == Ok(di)
    requires Pipeline.ColumnIndex(Pipeline.LowerColumns(t).columns, "time") == Ok(ti)
    requires Pipeline.ReadAsText(t.rows, di) && Pipeline.LabelUnique(t, col)
    ensures Pipeline.Timeline(t, col, parse).Ok?
    ensures var out := Pipeline.Timeline(t, col, parse).value;
      && (ChartLines(out).Some? <==> |out| > 0)
      && (ChartLines(out).Some? ==>
            |ChartLines(out).value| == 4 && forall i :: 0 <= i < |out| ==> Encloses(ChartLines(out).value, out[i]))
  {
    Pipeline.TimelineLabelled(t, col, di, ti, parse);
    var out := Pipeline.Timeline(t, col, parse).value;
    assert Drawable(out, |Behaviors.BEHAVIORS|);
    DrawableFramed(out, |Behaviors.BEHAVIORS|);
  }
}
