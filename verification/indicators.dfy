/**
 * The per-ticker part of scan_breakout_pro (stock2.py): clean one ticker's
 * downloaded rows, take the moving averages at the last bar, test the
 * breakout predicate and, for a passing ticker, build its candidate record.
 *
 * Prices and volumes are reals. The source computes with numpy doubles, whose
 * division by zero gives an infinity or NaN instead of raising; `Double`
 * keeps exactly that part of the floating-point behaviour.
 */
module Indicators {
  import opened Wrappers
  import opened Universe

  // ---------------------------------------------------------------------------
  // Division as numpy does it
  // ---------------------------------------------------------------------------

  datatype Double = Finite(value: real) | PosInf | NegInf | NaN

  /** a / b on doubles: a zero divisor gives +inf, -inf or NaN by the sign of a. */
  function Quotient(a: real, b: real): (q: Double)
    ensures q.Finite? <==> b != 0.0
    ensures q.Finite? ==> q.value * b == a
    ensures b > 0.0 ==> forall t :: (Below(q, t) <==> a < t * b) && (Above(q, t) <==> a > t * b)
    ensures b == 0.0 ==> forall t :: (Below(q, t) <==> a < 0.0) && (Above(q, t) <==> a > 0.0)
  {
    if b != 0.0 then Finite(a / b)
    else if a > 0.0 then PosInf
    else if a < 0.0 then NegInf
    else NaN
  }

  /** x < bound; every comparison with NaN is false. */
  predicate Below(x: Double, bound: real)
  {
    match x
    case Finite(v) => v < bound
    case NegInf => true
    case PosInf => false
    case NaN => false
  }

  /** x > bound; every comparison with NaN is false. */
  predicate Above(x: Double, bound: real)
  {
    match x
    case Finite(v) => v > bound
    case PosInf => true
    case NegInf => false
    case NaN => false
  }

  // ---------------------------------------------------------------------------
  // Rows and bars
  // ---------------------------------------------------------------------------

  /** One downloaded daily row; a missing field is a NaN cell of the frame. */
  datatype Row = Row(open: Option<real>, high: Option<real>, low: Option<real>,
                     close: Option<real>, volume: Option<real>)

  /** A row with every field present. */
  datatype Bar = Bar(close: real, volume: real)

  predicate Complete(row: Row)
  {
    row.open.Some? && row.high.Some? && row.low.Some? && row.close.Some? && row.volume.Some?
  }

  function ToBar(row: Row): Bar
    requires Complete(row)
  {
    Bar(row.close.value, row.volume.value)
  }

  /** dropna(): the complete rows, in order, reduced to the two fields the screener reads. */
  function DropIncomplete(rows: seq<Row>): (bars: seq<Bar>)
    ensures |bars| <= |rows|
  {
    if rows == [] then []
    else
      var rest := DropIncomplete(rows[1..]);
      if Complete(rows[0]) then [ToBar(rows[0])] + rest else rest
  }

  /** Dropping works row by row from the end too: a new last row adds its bar exactly when it is complete. */
  lemma {:induction false} DropIncompleteAppend(rows: seq<Row>, row: Row)
    ensures DropIncomplete(rows + [row]) ==
      DropIncomplete(rows) + (if Complete(row) then [ToBar(row)] else [])
  {
    if rows == [] {
      assert rows + [row] == [row];
    } else {
      assert (rows + [row])[0] == rows[0];
      assert (rows + [row])[1..] == rows[1..] + [row];
      DropIncompleteAppend(rows[1..], row);
    }
  }

  /** When the last row is complete, the last bar (the one iloc[-1] reads) is that row. */
  lemma DropIncompleteLast(rows: seq<Row>)
    requires rows != [] && Complete(rows[|rows| - 1])
    ensures var bars := DropIncomplete(rows);
      bars != [] && bars[|bars| - 1] == ToBar(rows[|rows| - 1])
  {
    assert rows == rows[..|rows| - 1] + [rows[|rows| - 1]];
    DropIncompleteAppend(rows[..|rows| - 1], rows[|rows| - 1]);
  }

  /** A history without gaps loses nothing: bar i is row i. */
  lemma {:induction false} DropIncompleteAllComplete(rows: seq<Row>)
    requires forall i :: 0 <= i < |rows| ==> Complete(rows[i])
    ensures |DropIncomplete(rows)| == |rows|
    ensures forall i :: 0 <= i < |rows| ==> DropIncomplete(rows)[i] == ToBar(rows[i])
  {
    if rows != [] {
      DropIncompleteAllComplete(rows[1..]);
      var bars := DropIncomplete(rows);
      forall i | 0 <= i < |rows| ensures bars[i] == ToBar(rows[i]) {
        if i > 0 { assert bars[i] == DropIncomplete(rows[1..])[i - 1]; }
      }
    }
  }

  /** The positions of the complete rows, in increasing order. */
  function CompleteIndices(rows: seq<Row>): seq<nat>
  {
    if rows == [] then []
    else
      CompleteIndices(rows[..|rows| - 1]) +
        (if Complete(rows[|rows| - 1]) then [|rows| - 1] else [])
  }

  /** The complete positions are increasing and in range, and there is one per kept bar. */
  lemma {:induction false} CompleteIndicesShape(rows: seq<Row>)
    ensures var idx := CompleteIndices(rows);
      && |idx| == |DropIncomplete(rows)|
      && (forall j, k :: 0 <= j < k < |idx| ==> idx[j] < idx[k])
      && (forall j :: 0 <= j < |idx| ==> idx[j] < |rows| && Complete(rows[idx[j]]))
  {
    if rows != [] {
      var front, last := rows[..|rows| - 1], rows[|rows| - 1];
      CompleteIndicesShape(front);
      assert rows == front + [last];
      DropIncompleteAppend(front, last);
      var idx, before := CompleteIndices(rows), CompleteIndices(front);
      assert idx[..|before|] == before;
      forall j | 0 <= j < |idx| ensures idx[j] < |rows| && Complete(rows[idx[j]]) {
        if j < |before| {
          assert idx[j] == before[j];
          assert rows[idx[j]] == front[idx[j]];
        }
      }
    }
  }

  /** Every complete position is listed among the complete positions. */
  lemma {:induction false} CompleteIndicesCover(rows: seq<Row>, i: int)
    requires 0 <= i < |rows| && Complete(rows[i])
    ensures i in CompleteIndices(rows)
  {
    var front, last := rows[..|rows| - 1], rows[|rows| - 1];
    if i < |rows| - 1 {
      assert front[i] == rows[i];
      CompleteIndicesCover(front, i);
    }
  }

  /** Bar j is the row at the j-th complete position. */
  lemma {:induction false} DropIncompleteAt(rows: seq<Row>, j: int)
    requires 0 <= j < |CompleteIndices(rows)|
    ensures CompleteIndices(rows)[j] < |rows| && Complete(rows[CompleteIndices(rows)[j]])
    ensures j < |DropIncomplete(rows)| && DropIncomplete(rows)[j] == ToBar(rows[CompleteIndices(rows)[j]])
  {
    CompleteIndicesShape(rows);
    var front, last := rows[..|rows| - 1], rows[|rows| - 1];
    assert rows == front + [last];
    DropIncompleteAppend(front, last);
    var idx, before := CompleteIndices(rows), CompleteIndices(front);
    if j < |before| {
      DropIncompleteAt(front, j);
      CompleteIndicesShape(front);
      assert idx[j] == before[j];
      assert rows[idx[j]] == front[idx[j]];
    }
  }

  /**
   * dropna() keeps exactly the complete rows, in their order: bar j is the
   * row at the j-th complete position, and the positions are increasing and
   * are all and only the complete rows.
   */
  lemma DropIncompleteSelects(rows: seq<Row>)
    ensures var bars, idx := DropIncomplete(rows), CompleteIndices(rows);
      && |idx| == |bars|
      && (forall j, k :: 0 <= j < k < |idx| ==> idx[j] < idx[k])
      && (forall i :: i in idx <==> 0 <= i < |rows| && Complete(rows[i]))
      && (forall j :: 0 <= j < |idx| ==>
            (idx[j] < |rows| && Complete(rows[idx[j]]) && bars[j] == ToBar(rows[idx[j]])))
  {
    CompleteIndicesShape(rows);
    var bars, idx := DropIncomplete(rows), CompleteIndices(rows);
    forall i ensures i in idx <==> 0 <= i < |rows| && Complete(rows[i]) {
      if 0 <= i < |rows| && Complete(rows[i]) {
        CompleteIndicesCover(rows, i);
      }
    }
    forall j | 0 <= j < |idx| ensures bars[j] == ToBar(rows[idx[j]]) {
      DropIncompleteAt(rows, j);
    }
  }

  function Closes(bars: seq<Bar>): (r: seq<real>)
    ensures |r| == |bars|
    ensures forall i :: 0 <= i < |bars| ==> r[i] == bars[i].close
  {
    seq(|bars|, i requires 0 <= i < |bars| => bars[i].close)
  }

  function Volumes(bars: seq<Bar>): (r: seq<real>)
    ensures |r| == |bars|
    ensures forall i :: 0 <= i < |bars| ==> r[i] == bars[i].volume
  {
    seq(|bars|, i requires 0 <= i < |bars| => bars[i].volume)
  }

  // ---------------------------------------------------------------------------
  // Moving averages
  // ---------------------------------------------------------------------------

  function Sum(xs: seq<real>): real
  {
    if xs == [] then 0.0 else Sum(xs[..|xs| - 1]) + xs[|xs| - 1]
  }

  /** The smallest value of a non-empty series. */
  function Least(xs: seq<real>): real
    requires xs != []
  {
    if |xs| == 1 then xs[0]
    else
      var m := Least(xs[..|xs| - 1]);
      if xs[|xs| - 1] < m then xs[|xs| - 1] else m
  }

  /** The largest value of a non-empty series. */
  function Greatest(xs: seq<real>): real
    requires xs != []
  {
    if |xs| == 1 then xs[0]
    else
      var m := Greatest(xs[..|xs| - 1]);
      if xs[|xs| - 1] > m then xs[|xs| - 1] else m
  }

  /** Least and Greatest are values of the series that bound all of it. */
  lemma {:induction false} LeastGreatest(xs: seq<real>)
    requires xs != []
    ensures Least(xs) in xs && Greatest(xs) in xs
    ensures forall i :: 0 <= i < |xs| ==> Least(xs) <= xs[i] <= Greatest(xs)
  {
    if |xs| > 1 {
      var front := xs[..|xs| - 1];
      LeastGreatest(front);
      assert forall i :: 0 <= i < |front| ==> xs[i] == front[i];
    }
  }

  /** A sum of values between lo and hi lies between |xs| × lo and |xs| × hi. */
  lemma {:induction false} SumBetween(xs: seq<real>, lo: real, hi: real)
    requires forall i :: 0 <= i < |xs| ==> lo <= xs[i] <= hi
    ensures |xs| as real * lo <= Sum(xs) <= |xs| as real * hi
  {
    if xs != [] {
      var n := |xs|;
      SumBetween(xs[..n - 1], lo, hi);
      assert n as real * lo == (n - 1) as real * lo + lo;
      assert n as real * hi == (n - 1) as real * hi + hi;
    }
  }

  /** rolling(n).mean().iloc[-1]: the mean of the last n values. */
  function MovingAverage(xs: seq<real>, n: nat): real
    requires 0 < n <= |xs|
  {
    Sum(xs[|xs| - n..]) / n as real
  }

  /** The mean of the last n values lies between the smallest and the largest of them. */
  lemma MovingAverageBetween(xs: seq<real>, n: nat)
    requires 0 < n <= |xs|
    ensures Least(xs[|xs| - n..]) <= MovingAverage(xs, n) <= Greatest(xs[|xs| - n..])
  {
    var window := xs[|xs| - n..];
    LeastGreatest(window);
    SumBetween(window, Least(window), Greatest(window));
    MeanBetween(Sum(window), n as real, Least(window), Greatest(window));
  }

  lemma MeanBetween(sum: real, k: real, lo: real, hi: real)
    requires k > 0.0 && k * lo <= sum <= k * hi
    ensures lo <= sum / k <= hi
  {
    var q := sum / k;
    assert q * k == sum;
    assert (q - lo) * k == sum - k * lo;
    assert (hi - q) * k == k * hi - sum;
  }

  lemma {:induction false} SumPositive(xs: seq<real>)
    requires xs != []
    requires forall i :: 0 <= i < |xs| ==> xs[i] > 0.0
    ensures Sum(xs) > 0.0
  {
    if |xs| > 1 {
      SumPositive(xs[..|xs| - 1]);
    }
  }

  /** The mean of the last n of a series of positive values is positive. */
  lemma MovingAveragePositive(xs: seq<real>, n: nat)
    requires 0 < n <= |xs|
    requires forall i :: 0 <= i < |xs| ==> xs[i] > 0.0
    ensures MovingAverage(xs, n) > 0.0
  {
    SumPositive(xs[|xs| - n..]);
  }

  // ---------------------------------------------------------------------------
  // The indicator snapshot at the last bar
  // ---------------------------------------------------------------------------

  const MinBars: nat := 20
  const MinVolume: real := 1000000.0
  const SqueezeLimit: real := 0.03
  const BiasLimit: real := 0.035
  const StopFactor: real := 0.97
  const TargetFactor: real := 1.15
  /** One round lot is 1000 shares. */
  const SharesPerLot: int := 1000

  datatype Snapshot = Snapshot(price: real, prevClose: real, volume: real,
                               ma5: real, ma10: real, ma20: real, volumeMean5: real)
  {
    function MaxMA(): real
    {
      if ma5 >= ma10 && ma5 >= ma20 then ma5 else if ma10 >= ma20 then ma10 else ma20
    }

    function MinMA(): real
    {
      if ma5 <= ma10 && ma5 <= ma20 then ma5 else if ma10 <= ma20 then ma10 else ma20
    }

    /**
     * squeeze_ratio: the spread of the three averages relative to the lowest.
     * With a positive lowest average, "squeeze < t" says the spread is below
     * t times the lowest average; a zero lowest average passes no squeeze test.
     */
    function Squeeze(): (r: Double)
      ensures MinMA() > 0.0 ==> forall t :: Below(r, t) <==> MaxMA() - MinMA() < t * MinMA()
      ensures MinMA() == 0.0 ==> forall t :: !Below(r, t)
    {
      Quotient(MaxMA() - MinMA(), MinMA())
    }

    /**
     * bias_5ma: the distance of the price from the 5-bar average. With a
     * positive MA5, "bias < t" says the price exceeds MA5 by less than t times
     * MA5; with a zero MA5 only a negative price passes.
     */
    function Bias(): (r: Double)
      ensures ma5 > 0.0 ==> forall t :: Below(r, t) <==> price - ma5 < t * ma5
      ensures ma5 == 0.0 ==> forall t :: Below(r, t) <==> price < 0.0
    {
      Quotient(price - ma5, ma5)
    }

    /**
     * vol_ratio: the last volume over the mean of the last 5 volumes. With a
     * positive mean, "ratio > t" says the volume exceeds t times the mean; a
     * zero mean gives an infinite ratio for any positive volume.
     */
    function VolumeRatio(): (r: Double)
      ensures volumeMean5 > 0.0 ==> forall t :: Above(r, t) <==> volume > t * volumeMean5
      ensures volumeMean5 == 0.0 ==> forall t :: Above(r, t) <==> volume > 0.0
    {
      Quotient(volume, volumeMean5)
    }
  }

  function TakeSnapshot(bars: seq<Bar>): (s: Snapshot)
    requires |bars| >= MinBars
    ensures s.price == bars[|bars| - 1].close && s.volume == bars[|bars| - 1].volume
  {
    var closes := Closes(bars);
    Snapshot(closes[|closes| - 1], closes[|closes| - 2], bars[|bars| - 1].volume,
             MovingAverage(closes, 5), MovingAverage(closes, 10), MovingAverage(closes, 20),
             MovingAverage(Volumes(bars), 5))
  }

  /** The filter of stock2.py: price above every average, tight averages, small bias. */
  function IsBreakout(s: Snapshot): (b: bool)
    ensures b ==> s.price > s.ma5 && s.price > s.ma10 && s.price > s.ma20
    ensures s.MinMA() > 0.0 ==>
      (b <==> s.price > s.MaxMA() && s.MaxMA() - s.MinMA() < SqueezeLimit * s.MinMA()
                                  && s.price - s.ma5 < BiasLimit * s.ma5)
    ensures s.MinMA() == 0.0 ==> !b
  {
    s.price > s.MaxMA() && Below(s.Squeeze(), SqueezeLimit) && Below(s.Bias(), BiasLimit)
  }

  /** What a passing snapshot guarantees, with the infinities ruled out. */
  lemma BreakoutFacts(s: Snapshot)
    requires IsBreakout(s)
    ensures s.price > s.ma5 && s.price > s.ma10 && s.price > s.ma20
    ensures s.MinMA() != 0.0 && (s.MaxMA() - s.MinMA()) / s.MinMA() < SqueezeLimit
    ensures s.ma5 != 0.0 && (s.price - s.ma5) / s.ma5 < BiasLimit
  {
  }

  // ---------------------------------------------------------------------------
  // Strategy labels
  // ---------------------------------------------------------------------------

  datatype Strategy = VolumeBurst | ExtremeSqueeze | ReclaimMA20 | QuietAccumulation | SteadyRise
  {
    function Label(): string
    {
      match this
      case VolumeBurst => "🔥 爆量大突破：短期動能最強"
      case ExtremeSqueeze => "💎 極致糾結：盤整噴發，波段首選"
      case ReclaimMA20 => "🔄 轉強訊號：底部翻揚站上月線"
      case QuietAccumulation => "🛡️ 潛伏起漲：帶量且風險極低"
      case SteadyRise => "✅ 穩定起漲：符合量價邏輯"
    }
  }

  /**
   * The first-match cascade that picks a passing ticker's label: each label
   * holds exactly when its rule fires and every earlier rule failed.
   */
  function ChooseStrategy(s: Snapshot): (r: Strategy)
    ensures r == VolumeBurst <==> Above(s.VolumeRatio(), 3.0)
    ensures r == ExtremeSqueeze <==>
      !Above(s.VolumeRatio(), 3.0) && Below(s.Squeeze(), 0.015)
    ensures r == ReclaimMA20 <==>
      !Above(s.VolumeRatio(), 3.0) && !Below(s.Squeeze(), 0.015) &&
      s.prevClose <= s.ma20 < s.price
    ensures r == QuietAccumulation <==>
      !Above(s.VolumeRatio(), 3.0) && !Below(s.Squeeze(), 0.015) &&
      !(s.price > s.ma20 && s.prevClose <= s.ma20) &&
      Above(s.VolumeRatio(), 1.5) && Below(s.Bias(), 0.01)
    ensures r == SteadyRise <==>
      !Above(s.VolumeRatio(), 3.0) && !Below(s.Squeeze(), 0.015) &&
      !(s.price > s.ma20 && s.prevClose <= s.ma20) &&
      !(Above(s.VolumeRatio(), 1.5) && Below(s.Bias(), 0.01))
  {
    if Above(s.VolumeRatio(), 3.0) then VolumeBurst
    else if Below(s.Squeeze(), 0.015) then ExtremeSqueeze
    else if s.price > s.ma20 && s.prevClose <= s.ma20 then ReclaimMA20
    else if Above(s.VolumeRatio(), 1.5) && Below(s.Bias(), 0.01) then QuietAccumulation
    else SteadyRise
  }

  // ---------------------------------------------------------------------------
  // Candidate records
  // ---------------------------------------------------------------------------

  datatype Candidate = Candidate(code: string, industry: Industry, price: real, lots: int,
                                 strategy: Strategy, stopLoss: real, takeProfit: real)

  datatype Skip = NoData | InsufficientHistory | ThinVolume | NoBreakout

  /**
   * The record of a passing ticker: its code and industry, the last close,
   * the volume in whole lots, the label, and the stop-loss and take-profit
   * levels, which bracket the price whenever the averages are positive and
   * below it.
   */
  function MakeCandidate(ticker: string, s: Snapshot): (c: Candidate)
    ensures c.code == RemoveSuffix(ticker) && c.industry == IndustryOf(ticker) && c.price == s.price
    ensures c.lots as real <= s.volume / SharesPerLot as real < c.lots as real + 1.0
    ensures c.stopLoss == StopFactor * s.MinMA() && c.takeProfit == TargetFactor * s.price
    ensures c.strategy == ChooseStrategy(s)
    ensures 0.0 < s.MinMA() < s.price ==> 0.0 < c.stopLoss < c.price < c.takeProfit
  {
    Candidate(RemoveSuffix(ticker), IndustryOf(ticker), s.price,
              (s.volume / SharesPerLot as real).Floor, ChooseStrategy(s),
              s.MinMA() * StopFactor, s.price * TargetFactor)
  }

  /** Everything a candidate built for `ticker` from `bars` is promised to satisfy. */
  predicate Sound(ticker: string, bars: seq<Bar>, c: Candidate)
  {
    && |bars| >= MinBars
    && var s := TakeSnapshot(bars);
    && c.code == RemoveSuffix(ticker)
    && c.industry == IndustryOf(ticker)
    && c.price == bars[|bars| - 1].close
    && bars[|bars| - 1].volume >= MinVolume
    && c.lots >= 1000
    && c.lots as real <= bars[|bars| - 1].volume / SharesPerLot as real < c.lots as real + 1.0
    && c.price > s.ma5 && c.price > s.ma10 && c.price > s.ma20
    && s.MinMA() != 0.0 && (s.MaxMA() - s.MinMA()) / s.MinMA() < SqueezeLimit
    && s.ma5 != 0.0 && (c.price - s.ma5) / s.ma5 < BiasLimit
    && c.stopLoss == StopFactor * s.MinMA()
    && c.takeProfit == TargetFactor * c.price
    && c.strategy == ChooseStrategy(s)
  }

  /**
   * The body of the per-ticker try block: drop incomplete rows, skip short
   * histories and thin volume, then keep the ticker only if it breaks out.
   */
  function Evaluate(ticker: string, rows: seq<Row>): (r: Result<Candidate, Skip>)
    ensures var bars := DropIncomplete(rows);
      && (|bars| < MinBars ==> r == Err(InsufficientHistory))
      && (r.Ok? <==> |bars| >= MinBars && bars[|bars| - 1].volume >= MinVolume
                     && IsBreakout(TakeSnapshot(bars)))
      && (r.Ok? ==> Sound(ticker, bars, r.value))
  {
    var bars := DropIncomplete(rows);
    if |bars| < MinBars then Err(InsufficientHistory)
    else
      var s := TakeSnapshot(bars);
      if s.volume < MinVolume then Err(ThinVolume)
      else if !IsBreakout(s) then Err(NoBreakout)
      else
        CandidateSound(ticker, bars);
        Ok(MakeCandidate(ticker, s))
  }

  /** The record built for a passing ticker keeps every promise of Sound. */
  lemma CandidateSound(ticker: string, bars: seq<Bar>)
    requires |bars| >= MinBars && bars[|bars| - 1].volume >= MinVolume
    requires IsBreakout(TakeSnapshot(bars))
    ensures Sound(ticker, bars, MakeCandidate(ticker, TakeSnapshot(bars)))
  {
    var s := TakeSnapshot(bars);
    BreakoutFacts(s);
    LotsBound(s.volume);
  }

  lemma LotsBound(volume: real)
    requires volume >= MinVolume
    ensures (volume / SharesPerLot as real).Floor >= 1000
    ensures (volume / SharesPerLot as real).Floor as real <= volume / SharesPerLot as real
    ensures volume / SharesPerLot as real < (volume / SharesPerLot as real).Floor as real + 1.0
  {
  }

  /**
   * With positive closes (as real quotes are) the stop-loss lies strictly
   * below the price and the take-profit strictly above it.
   */
  lemma {:induction false} StopBelowPriceBelowTarget(ticker: string, rows: seq<Row>)
    requires forall i :: 0 <= i < |DropIncomplete(rows)| ==> DropIncomplete(rows)[i].close > 0.0
    requires Evaluate(ticker, rows).Ok?
    ensures var c := Evaluate(ticker, rows).value;
      0.0 < c.stopLoss < c.price < c.takeProfit
  {
    var bars := DropIncomplete(rows);
    var closes := Closes(bars);
    var s := TakeSnapshot(bars);
    MovingAveragePositive(closes, 5);
    MovingAveragePositive(closes, 10);
    MovingAveragePositive(closes, 20);
    assert s.MinMA() > 0.0;
  }

  /**
   * The 5-bar volume ratio only picks the label: two histories with the same
   * closes and the same last volume are admitted alike, and at the same
   * levels, however their earlier volumes differ.
   */
  lemma {:induction false} VolumeRatioOnlyLabels(ticker: string, rows1: seq<Row>, rows2: seq<Row>)
    requires Closes(DropIncomplete(rows1)) == Closes(DropIncomplete(rows2))
    requires var b1, b2 := DropIncomplete(rows1), DropIncomplete(rows2);
      |b1| > 0 && b1[|b1| - 1].volume == b2[|b2| - 1].volume
    ensures Evaluate(ticker, rows1).Ok? == Evaluate(ticker, rows2).Ok?
    ensures Evaluate(ticker, rows1).Ok? ==>
      Evaluate(ticker, rows1).value.(strategy := SteadyRise) ==
      Evaluate(ticker, rows2).value.(strategy := SteadyRise)
  {
    var b1, b2 := DropIncomplete(rows1), DropIncomplete(rows2);
    assert |b1| == |Closes(b1)| == |Closes(b2)| == |b2|;
    if |b1| >= MinBars {
      var s1, s2 := TakeSnapshot(b1), TakeSnapshot(b2);
      assert s1.(volumeMean5 := 0.0) == s2.(volumeMean5 := 0.0);
      SameButVolumeMean(ticker, s1, s2);
    }
  }

  /** Snapshots that differ at most in the mean volume pass alike and give records that differ at most in the label. */
  lemma SameButVolumeMean(ticker: string, s1: Snapshot, s2: Snapshot)
    requires s1.(volumeMean5 := 0.0) == s2.(volumeMean5 := 0.0)
    ensures IsBreakout(s1) == IsBreakout(s2)
    ensures MakeCandidate(ticker, s1).(strategy := SteadyRise) ==
            MakeCandidate(ticker, s2).(strategy := SteadyRise)
  {
    assert s1.price == s2.price && s1.volume == s2.volume;
    assert s1.MinMA() == s2.MinMA() && s1.MaxMA() == s2.MaxMA();
    assert s1.Squeeze() == s2.Squeeze() && s1.Bias() == s2.Bias();
  }
}
