/** A candle with usable fields, as left by normalizeRuntimeCandles. */
module Candles {
  datatype Candle = Candle(time: int, open: real, high: real, low: real, close: real, volume: real)

  predicate Ascending(cs: seq<Candle>) {
    forall i, j | 0 <= i < j < |cs| :: cs[i].time < cs[j].time
  }

  /** Go's integer division and remainder truncate toward zero. */
  function GoDiv(a: int, b: int): int
    requires b > 0
  {
    if a >= 0 then a / b else -(-a / b)
  }

  function GoMod(a: int, b: int): int
    requires b > 0
  {
    a - b * GoDiv(a, b)
  }
}

/** Moving averages, oscillators and pivots.  Every indicator is given first as a function of the
    history up to and including one bar (`h`, never empty); the methods are the loops over a whole
    series, proved to put that function of `values[..i + 1]` at bar i. */
module PineKernels {
  import opened Sequences
  import opened PineNumbers
  import opened Candles

  /** out is the indicator K applied to each history of values. */
  ghost predicate IsHistoryWise(out: seq<Num>, values: seq<Num>, k: seq<Num> -> Num) {
    && |out| == |values|
    && forall i | 0 <= i < |values| :: out[i] == k(values[..i + 1])
  }

  // ----- Simple, weighted and volume-weighted averages over a window -----

  function Sum(w: seq<Num>): Num {
    if |w| == 0 then ZERO else Add(Sum(Front(w)), Last(w))
  }

  function Sma(h: seq<Num>, length: nat): Num
    requires length >= 1
  {
    if |h| < length then NaN
    else Divide(Sum(h[|h| - length..]), Fin(length as real))
  }

  /** The newest bar weighs `length`, the one before it length - 1, and so on: the first `count` of them. */
  function WeightedSum(h: seq<Num>, length: nat, count: nat): Num
    requires count <= length && count <= |h|
  {
    if count == 0 then ZERO
    else Add(WeightedSum(h, length, count - 1), Multiply(h[|h| - count], Fin((length - count + 1) as real)))
  }

  function Wma(h: seq<Num>, length: nat): Num
    requires length >= 1
  {
    if |h| < length then NaN
    else Divide(WeightedSum(h, length, length), Fin(length as real * (length as real + 1.0) / 2.0))
  }

  function Products(values: seq<Num>, volumes: seq<Num>): seq<Num>
    requires |values| == |volumes|
  {
    seq(|values|, i requires 0 <= i < |values| => Multiply(values[i], volumes[i]))
  }

  function Vwma(h: seq<Num>, volumes: seq<Num>, length: nat): Num
    requires length >= 1 && |h| == |volumes|
  {
    if |h| < length then NaN
    else
      var v := volumes[|h| - length..];
      Divide(Sum(Products(h[|h| - length..], v)), Sum(v))
  }

  /** round(sqrt(n)): the r with r^2 - r < n <= r^2 + r. */
  function RoundedSqrt(n: nat): (r: nat)
    ensures n >= 1 ==> r >= 1 && Square(r) - r < n <= Square(r) + r
  {
    if n == 0 then 0
    else
      var r := RoundedSqrt(n - 1);
      assert Square(r + 1) == Square(r) + 2 * r + 1;
      if r >= 1 && n <= Square(r) + r then r else r + 1
  }

  function Square(r: nat): nat {
    r * r
  }

  function HullPoint(h: seq<Num>, length: nat): Num
    requires length >= 2
  {
    Subtract(Multiply(Fin(2.0), Wma(h, length / 2)), Wma(h, length))
  }

  function HullPoints(h: seq<Num>, length: nat): seq<Num>
    requires length >= 2
  {
    seq(|h|, i requires 0 <= i < |h| => HullPoint(h[..i + 1], length))
  }

  function Hma(h: seq<Num>, length: nat): Num
    requires length >= 1
  {
    if length == 1 then Wma(h, 1) else Wma(HullPoints(h, length), RoundedSqrt(length))
  }

  // ----- Recursive averages: unusable bars are skipped, and hold the state -----

  datatype Smoothing = Exponential | Running

  function Smooth(kind: Smoothing, prev: Num, value: Num, length: nat): Num
    requires length >= 1
  {
    match kind
    case Exponential =>
      var k := 2.0 / (length as real + 1.0);
      Add(Multiply(value, Fin(k)), Multiply(prev, Fin(1.0 - k)))
    case Running =>
      Divide(Add(Multiply(prev, Fin(length as real - 1.0)), value), Fin(length as real))
  }

  function SmoothState(kind: Smoothing, h: seq<Num>, length: nat): Num
    requires length >= 1
  {
    if |h| == 0 then NaN
    else
      var prev := SmoothState(kind, Front(h), length);
      if !Usable(Last(h)) then prev
      else if Usable(prev) then Smooth(kind, prev, Last(h), length)
      else Last(h)
  }

  function UsableCount(h: seq<Num>): nat {
    if |h| == 0 then 0 else UsableCount(Front(h)) + if Usable(Last(h)) then 1 else 0
  }

  /** ta.ema and ta.rma: published once `length` usable bars have been seen, and only on usable bars. */
  function SmoothedAverage(kind: Smoothing, h: seq<Num>, length: nat): Num
    requires length >= 1
  {
    if |h| > 0 && Usable(Last(h)) && UsableCount(h) >= length then SmoothState(kind, h, length) else NaN
  }

  // ----- RSI -----

  datatype GainLoss = GainLoss(gain: Num, loss: Num)

  predicate AtLeastZero(x: Num) {
    Usable(x) && x.value >= 0.0
  }

  /** Total gain and loss over the bars of h after its first. */
  function RsiSeed(h: seq<Num>): GainLoss
    requires |h| >= 1
  {
    if |h| == 1 then GainLoss(ZERO, ZERO)
    else
      var s := RsiSeed(Front(h));
      var change := Subtract(Last(h), Last(Front(h)));
      if AtLeastZero(change) then GainLoss(Add(s.gain, change), s.loss)
      else GainLoss(s.gain, Subtract(s.loss, change))
  }

  function RsiState(h: seq<Num>, length: nat): GainLoss
    requires length >= 1 && |h| >= length + 1
  {
    var n := Fin(length as real);
    if |h| == length + 1 then
      GainLoss(Divide(RsiSeed(h).gain, n), Divide(RsiSeed(h).loss, n))
    else
      RsiStep(RsiState(Front(h), length), Subtract(Last(h), Last(Front(h))), length)
  }

  function RsiStep(s: GainLoss, change: Num, length: nat): GainLoss
    requires length >= 1
  {
    var n, m := Fin(length as real), Fin(length as real - 1.0);
    var rises := Usable(change) && change.value > 0.0;
    var g := if rises then change else ZERO;
    var l := if rises then ZERO else Negate(change);
    GainLoss(Divide(Add(Multiply(s.gain, m), g), n), Divide(Add(Multiply(s.loss, m), l), n))
  }

  function RsiOf(s: GainLoss): Num {
    if s.loss == ZERO then Fin(100.0)
    else Subtract(Fin(100.0), Divide(Fin(100.0), Add(ONE, Divide(s.gain, s.loss))))
  }

  function Rsi(h: seq<Num>, length: nat): Num
    requires length >= 1
  {
    if |h| < length + 1 then NaN else RsiOf(RsiState(h, length))
  }

  // ----- Differences, crosses, session VWAP -----

  function Change(h: seq<Num>, length: nat): Num {
    if |h| <= length then NaN else Subtract(Last(h), h[|h| - 1 - length])
  }

  datatype Direction = Upward | Downward

  function Cross(left: seq<Num>, right: seq<Num>, direction: Direction): Num
    requires |left| == |right|
  {
    var i := |left| - 1;
    if i < 1 || !Usable(left[i]) || !Usable(right[i]) || !Usable(left[i - 1]) || !Usable(right[i - 1]) then ZERO
    else if direction == Upward then
      Flag(left[i - 1].value <= right[i - 1].value && left[i].value > right[i].value)
    else
      Flag(left[i - 1].value >= right[i - 1].value && left[i].value < right[i].value)
  }

  datatype Session = Session(day: int, priceVolume: real, volume: real)

  function SessionAfter(source: seq<Num>, candles: seq<Candle>): Session
    requires |source| == |candles|
  {
    if |candles| == 0 then Session(-1, 0.0, 0.0)
    else
      var s := SessionAfter(Front(source), Front(candles));
      var day := GoDiv(Last(candles).time, 86400);
      var current := if day == s.day then s else Session(day, 0.0, 0.0);
      if Usable(Last(source)) then
        current.(priceVolume := current.priceVolume + Last(source).value * Last(candles).volume,
                volume := current.volume + Last(candles).volume)
      else current
  }

  function Vwap(source: seq<Num>, candles: seq<Candle>): Num
    requires |source| == |candles| && |source| > 0
  {
    var s := SessionAfter(source, candles);
    if s.volume > 0.0 then Fin(s.priceVolume / s.volume) else Last(source)
  }

  // ----- Pivots -----

  datatype PivotKind = PivotHigh | PivotLow

  predicate Beats(center: Num, neighbour: Num, kind: PivotKind) {
    && Usable(center) && Usable(neighbour)
    && if kind == PivotHigh then neighbour.value < center.value else neighbour.value > center.value
  }

  /** The bar `center` is strictly beyond its `left` neighbours before and `right` neighbours after. */
  predicate IsPivot(values: seq<Num>, center: int, left: nat, right: nat, kind: PivotKind)
    requires left <= center < |values| - right
  {
    && Usable(values[center])
    && (forall j | center - left <= j < center :: Beats(values[center], values[j], kind))
    && (forall j | center < j <= center + right :: Beats(values[center], values[j], kind))
  }

  /** The pivot confirmed by the newest bar of h, that is the one `right` bars back. */
  function ConfirmedPivot(h: seq<Num>, left: nat, right: nat, kind: PivotKind): Num {
    var center := |h| - 1 - right;
    if center >= left && IsPivot(h, center, left, right, kind) then h[center] else NaN
  }

  // ----- The loops -----

  lemma {:induction false} SumStep(values: seq<Num>, from: nat, to: nat)
    requires from <= to < |values|
    ensures Sum(values[from..to + 1]) == Add(Sum(values[from..to]), values[to])
  {
    assert Front(values[from..to + 1]) == values[from..to];
  }

  lemma {:induction false} SumNaN(w: seq<Num>, j: nat)
    requires j < |w| && !Usable(w[j])
    ensures Sum(w) == NaN
  {
    if j < |w| - 1 {
      SumNaN(Front(w), j);
    }
  }

  method RollingAverage(values: seq<Num>, length: nat) returns (out: seq<Num>)
    requires length >= 1
    ensures IsHistoryWise(out, values, h => Sma(h, length))
  {
    out := [];
    for i := 0 to |values|
      invariant |out| == i
      invariant forall t | 0 <= t < i :: out[t] == Sma(values[..t + 1], length)
    {
      if i < length - 1 {
        out := out + [NaN];
      } else {
        var start := i - length + 1;
        var sum, ok := ZERO, true;
        var j := start;
        while j <= i && ok
          invariant start <= j <= i + 1
          invariant ok ==> sum == Sum(values[start..j])
          invariant !ok ==> Sum(values[start..i + 1]) == NaN
          decreases i + 1 - j, ok
        {
          if !Usable(values[j]) {
            SumNaN(values[start..i + 1], j - start);
            ok := false;
          } else {
            SumStep(values, start, j);
            sum := Add(sum, values[j]);
            j := j + 1;
          }
        }
        assert values[..i + 1][|values[..i + 1]| - length..] == values[start..i + 1];
        out := out + [if ok then Divide(sum, Fin(length as real)) else NaN];
      }
    }
  }

  function WeightTotal(length: nat, count: nat): real
    requires count <= length
  {
    if count == 0 then 0.0 else WeightTotal(length, count - 1) + (length - count + 1) as real
  }

  lemma {:induction false} WeightTotalClosed(length: nat, count: nat)
    requires count <= length
    ensures 2.0 * WeightTotal(length, count) == count as real * (2.0 * length as real - count as real + 1.0)
  {
    if count > 0 {
      WeightTotalClosed(length, count - 1);
      var c, n := count as real, length as real;
      assert (count - 1) as real == c - 1.0 && (length - count + 1) as real == n - c + 1.0;
      assert (c - 1.0) * (2.0 * n - c + 2.0) + 2.0 * (n - c + 1.0) == c * (2.0 * n - c + 1.0);
    }
  }

  lemma {:induction false} WeightedSumNaN(h: seq<Num>, length: nat, count: nat, j: nat)
    requires count <= length && count <= |h|
    requires 1 <= j <= count && !Usable(h[|h| - j])
    ensures WeightedSum(h, length, count) == NaN
  {
    if j < count {
      WeightedSumNaN(h, length, count - 1, j);
    }
  }

  method WeightedMovingAverage(values: seq<Num>, length: nat) returns (out: seq<Num>)
    requires length >= 1
    ensures IsHistoryWise(out, values, h => Wma(h, length))
  {
    out := [];
    for i := 0 to |values|
      invariant |out| == i
      invariant forall t | 0 <= t < i :: out[t] == Wma(values[..t + 1], length)
    {
      if i < length - 1 {
        out := out + [NaN];
      } else {
        var point := WeightedPoint(values, i, length);
        out := out + [point];
      }
    }
  }

  method WeightedPoint(values: seq<Num>, i: nat, length: nat) returns (point: Num)
    requires length >= 1 && length - 1 <= i < |values|
    ensures point == Wma(values[..i + 1], length)
  {
    ghost var h := values[..i + 1];
    var sum, weightSum, ok := ZERO, 0.0, true;
    var j := 0;
    while j < length && ok
      invariant 0 <= j <= length
      invariant ok ==> sum == WeightedSum(h, length, j)
      invariant ok ==> weightSum == WeightTotal(length, j)
      invariant !ok ==> WeightedSum(h, length, length) == NaN
      decreases length - j, ok
    {
      var weight := (length - j) as real;
      if !Usable(values[i - j]) {
        assert h[|h| - (j + 1)] == values[i - j];
        WeightedSumNaN(h, length, length, j + 1);
        ok := false;
      } else {
        assert h[|h| - (j + 1)] == values[i - j];
        sum := Add(sum, Multiply(values[i - j], Fin(weight)));
        weightSum := weightSum + weight;
        j := j + 1;
      }
    }
    if ok {
      WeightTotalClosed(length, length);
      assert length as real * (2.0 * length as real - length as real + 1.0) == length as real * (length as real + 1.0);
      point := Divide(sum, Fin(weightSum));
    } else {
      point := NaN;
    }
  }

  lemma {:induction false} ProductsStep(values: seq<Num>, volumes: seq<Num>, from: nat, to: nat)
    requires |values| == |volumes| && from <= to < |values|
    ensures Sum(Products(values[from..to + 1], volumes[from..to + 1]))
            == Add(Sum(Products(values[from..to], volumes[from..to])), Multiply(values[to], volumes[to]))
  {
    assert Front(Products(values[from..to + 1], volumes[from..to + 1]))
           == Products(values[from..to], volumes[from..to]);
  }

  method VolumeWeightedMovingAverage(values: seq<Num>, volumes: seq<Num>, length: nat) returns (out: seq<Num>)
    requires length >= 1 && |values| == |volumes|
    ensures |out| == |values|
    ensures forall i | 0 <= i < |values| :: out[i] == Vwma(values[..i + 1], volumes[..i + 1], length)
  {
    out := [];
    for i := 0 to |values|
      invariant |out| == i
      invariant forall t | 0 <= t < i :: out[t] == Vwma(values[..t + 1], volumes[..t + 1], length)
    {
      if i < length - 1 {
        out := out + [NaN];
      } else {
        var point := VolumeWeightedPoint(values, volumes, i, length);
        out := out + [point];
      }
    }
  }

  method VolumeWeightedPoint(values: seq<Num>, volumes: seq<Num>, i: nat, length: nat) returns (point: Num)
    requires length >= 1 && |values| == |volumes| && length - 1 <= i < |values|
    ensures point == Vwma(values[..i + 1], volumes[..i + 1], length)
  {
    var start := i - length + 1;
    var sum, volumeSum, ok := ZERO, ZERO, true;
    var j := start;
    assert values[..i + 1][start..] == values[start..i + 1];
    assert volumes[..i + 1][start..] == volumes[start..i + 1];
    while j <= i && ok
      invariant start <= j <= i + 1
      invariant ok ==> sum == Sum(Products(values[start..j], volumes[start..j]))
      invariant ok ==> volumeSum == Sum(volumes[start..j])
      invariant !ok ==> Sum(Products(values[start..i + 1], volumes[start..i + 1])) == NaN
      decreases i + 1 - j, ok
    {
      if !Usable(values[j]) || !Usable(volumes[j]) {
        ghost var w := Products(values[start..i + 1], volumes[start..i + 1]);
        assert w[j - start] == Multiply(values[j], volumes[j]) == NaN;
        SumNaN(w, j - start);
        ok := false;
      } else {
        ProductsStep(values, volumes, start, j);
        SumStep(volumes, start, j);
        sum := Add(sum, Multiply(values[j], volumes[j]));
        volumeSum := Add(volumeSum, volumes[j]);
        j := j + 1;
      }
    }
    point := if ok then Divide(sum, volumeSum) else NaN;
  }

  lemma {:induction false} HullPointsPrefix(values: seq<Num>, length: nat, i: nat)
    requires length >= 2 && i <= |values|
    ensures HullPoints(values, length)[..i] == HullPoints(values[..i], length)
  {
    forall t | 0 <= t < i
      ensures HullPoints(values, length)[t] == HullPoints(values[..i], length)[t]
    {
      assert values[..i][..t + 1] == values[..t + 1];
    }
  }

  method HullMovingAverage(values: seq<Num>, length: nat) returns (out: seq<Num>)
    requires length >= 1
    ensures IsHistoryWise(out, values, h => Hma(h, length))
  {
    if length <= 1 {
      out := WeightedMovingAverage(values, 1);
      return;
    }
    var half := WeightedMovingAverage(values, length / 2);
    var full := WeightedMovingAverage(values, length);
    var diff: seq<Num> := [];
    for i := 0 to |values|
      invariant |diff| == i
      invariant diff == HullPoints(values, length)[..i]
    {
      if Usable(half[i]) && Usable(full[i]) {
        diff := diff + [Subtract(Multiply(Fin(2.0), half[i]), full[i])];
      } else {
        diff := diff + [NaN];
      }
    }
    assert diff == HullPoints(values, length);
    out := WeightedMovingAverage(diff, RoundedSqrt(length));
    forall i | 0 <= i < |values|
      ensures out[i] == Hma(values[..i + 1], length)
    {
      HullPointsPrefix(values, length, i + 1);
    }
  }

  method SmoothedMovingAverage(kind: Smoothing, values: seq<Num>, length: nat) returns (out: seq<Num>)
    requires length >= 1
    ensures IsHistoryWise(out, values, h => SmoothedAverage(kind, h, length))
  {
    out := seq(|values|, _ => NaN);
    var prev, seen := NaN, 0;
    for i := 0 to |values|
      invariant |out| == |values|
      invariant prev == SmoothState(kind, values[..i], length)
      invariant seen == UsableCount(values[..i])
      invariant forall t | 0 <= t < i :: out[t] == SmoothedAverage(kind, values[..t + 1], length)
      invariant forall t | i <= t < |values| :: out[t] == NaN
    {
      assert Front(values[..i + 1]) == values[..i];
      if Usable(values[i]) {
        seen := seen + 1;
        prev := if Usable(prev) then Smooth(kind, prev, values[i], length) else values[i];
        if seen >= length {
          out := out[i := prev];
        }
      }
    }
  }

  method RsiSeries(values: seq<Num>, length: nat) returns (out: seq<Num>)
    requires length >= 1
    ensures IsHistoryWise(out, values, h => Rsi(h, length))
  {
    out := seq(|values|, _ => NaN);
    if |values| < length + 1 {
      return;
    }
    var gain, loss := ZERO, ZERO;
    for i := 1 to length + 1
      invariant GainLoss(gain, loss) == RsiSeed(values[..i])
    {
      assert Front(values[..i + 1]) == values[..i];
      var change := Subtract(values[i], values[i - 1]);
      if AtLeastZero(change) {
        gain := Add(gain, change);
      } else {
        loss := Subtract(loss, change);
      }
    }
    gain := Divide(gain, Fin(length as real));
    loss := Divide(loss, Fin(length as real));
    out := out[length := RsiOf(GainLoss(gain, loss))];
    hide RsiSeed, RsiOf, RsiState, RsiStep, Rsi;
    for i := length + 1 to |values|
      invariant |out| == |values|
      invariant GainLoss(gain, loss) == RsiState(values[..i], length)
      invariant forall t | 0 <= t < i :: out[t] == Rsi(values[..t + 1], length)
    {
      var change := Subtract(values[i], values[i - 1]);
      RsiNext(values, i, length);
      gain, loss := NextGainLoss(gain, loss, change, length);
      out := out[i := RsiOf(GainLoss(gain, loss))];
    }
  }

  lemma {:induction false} RsiNext(values: seq<Num>, i: nat, length: nat)
    requires length >= 1 && length < i < |values|
    ensures RsiState(values[..i + 1], length)
            == RsiStep(RsiState(values[..i], length), Subtract(values[i], values[i - 1]), length)
    ensures Rsi(values[..i + 1], length) == RsiOf(RsiState(values[..i + 1], length))
  {
    assert Front(values[..i + 1]) == values[..i];
  }

  method NextGainLoss(gain: Num, loss: Num, change: Num, length: nat) returns (gain': Num, loss': Num)
    requires length >= 1
    ensures GainLoss(gain', loss') == RsiStep(GainLoss(gain, loss), change, length)
  {
    var g, l := ZERO, ZERO;
    if Usable(change) && change.value > 0.0 {
      g := change;
    } else {
      l := Negate(change);
    }
    gain' := Divide(Add(Multiply(gain, Fin(length as real - 1.0)), g), Fin(length as real));
    loss' := Divide(Add(Multiply(loss, Fin(length as real - 1.0)), l), Fin(length as real));
  }

  method ChangeSeries(values: seq<Num>, length: nat) returns (out: seq<Num>)
    ensures IsHistoryWise(out, values, h => Change(h, length))
  {
    out := [];
    for i := 0 to |values|
      invariant |out| == i
      invariant forall t | 0 <= t < i :: out[t] == Change(values[..t + 1], length)
    {
      if i - length >= 0 && Usable(values[i]) && Usable(values[i - length]) {
        out := out + [Subtract(values[i], values[i - length])];
      } else {
        out := out + [NaN];
      }
    }
  }

  method CrossSeries(left: seq<Num>, right: seq<Num>, direction: Direction) returns (out: seq<Num>)
    requires |left| == |right|
    ensures |out| == |left|
    ensures forall i | 0 <= i < |left| :: out[i] == Cross(left[..i + 1], right[..i + 1], direction)
  {
    out := seq(|left|, _ => ZERO);
    if |left| > 0 {
      for i := 1 to |left|
        invariant |out| == |left|
        invariant forall t | 0 <= t < i :: out[t] == Cross(left[..t + 1], right[..t + 1], direction)
        invariant forall t | i <= t < |left| :: out[t] == ZERO
      {
        if Usable(left[i]) && Usable(right[i]) && Usable(left[i - 1]) && Usable(right[i - 1]) {
          if direction == Upward && left[i - 1].value <= right[i - 1].value && left[i].value > right[i].value {
            out := out[i := ONE];
          }
          if direction == Downward && left[i - 1].value >= right[i - 1].value && left[i].value < right[i].value {
            out := out[i := ONE];
          }
        }
      }
    }
  }

  method SessionVWAP(source: seq<Num>, candles: seq<Candle>) returns (out: seq<Num>)
    requires |source| == |candles|
    ensures |out| == |candles|
    ensures forall i | 0 <= i < |candles| :: out[i] == Vwap(source[..i + 1], candles[..i + 1])
  {
    out := [];
    var day, priceVolume, volume := -1, 0.0, 0.0;
    for i := 0 to |candles|
      invariant |out| == i
      invariant Session(day, priceVolume, volume) == SessionAfter(source[..i], candles[..i])
      invariant forall t | 0 <= t < i :: out[t] == Vwap(source[..t + 1], candles[..t + 1])
    {
      assert Front(source[..i + 1]) == source[..i] && Front(candles[..i + 1]) == candles[..i];
      var bucket := GoDiv(candles[i].time, 86400);
      if bucket != day {
        day, priceVolume, volume := bucket, 0.0, 0.0;
      }
      if Usable(source[i]) {
        priceVolume := priceVolume + source[i].value * candles[i].volume;
        volume := volume + candles[i].volume;
      }
      out := out + [if volume > 0.0 then Fin(priceVolume / volume) else source[i]];
    }
  }

  datatype Pivot = Pivot(index: nat, confirmation: nat, value: Num)

  method TestPivot(values: seq<Num>, index: nat, left: nat, right: nat, kind: PivotKind) returns (isPivot: bool)
    requires left <= index < |values| - right
    ensures isPivot == IsPivot(values, index, left, right, kind)
  {
    var center := values[index];
    isPivot := Usable(center);
    var offset := 1;
    while isPivot && offset <= left
      invariant 1 <= offset <= left + 1
      invariant isPivot ==> Usable(center) && forall j | index - offset < j < index :: Beats(center, values[j], kind)
      invariant !isPivot ==> !IsPivot(values, index, left, right, kind)
    {
      isPivot := Beats(center, values[index - offset], kind);
      offset := offset + 1;
    }
    offset := 1;
    while isPivot && offset <= right
      invariant 1 <= offset <= right + 1
      invariant isPivot ==> Usable(center) && forall j | index - left <= j < index :: Beats(center, values[j], kind)
      invariant isPivot ==> forall j | index < j < index + offset :: Beats(center, values[j], kind)
      invariant !isPivot ==> !IsPivot(values, index, left, right, kind)
    {
      isPivot := Beats(center, values[index + offset], kind);
      offset := offset + 1;
    }
  }

  predicate Recorded(pivots: seq<Pivot>, index: int) {
    exists k :: 0 <= k < |pivots| && pivots[k].index == index
  }

  lemma {:induction false} RecordedStep(pivots: seq<Pivot>, k: nat, index: int)
    requires k < |pivots|
    ensures Recorded(pivots[..k + 1], index) <==> Recorded(pivots[..k], index) || pivots[k].index == index
  {
    var before, after := pivots[..k], pivots[..k + 1];
    assert after[k] == pivots[k];
    if Recorded(before, index) {
      var m :| 0 <= m < k && before[m].index == index;
      assert after[m].index == index;
    }
    if Recorded(after, index) && pivots[k].index != index {
      var m :| 0 <= m < k + 1 && after[m].index == index;
      assert before[m].index == index;
    }
  }

  /** Each recorded pivot is a pivot that its confirmation bar confirms; none is missed, none repeated. */
  ghost predicate PivotsBelow(pivots: seq<Pivot>, values: seq<Num>, left: nat, right: nat, kind: PivotKind, limit: int)
    requires limit <= |values| - right
  {
    && (forall k | 0 <= k < |pivots| ::
          var p := pivots[k];
          left <= p.index < limit && p.confirmation == p.index + right && p.value == values[p.index]
          && IsPivot(values, p.index, left, right, kind))
    && (forall c | left <= c < limit && IsPivot(values, c, left, right, kind) :: Recorded(pivots, c))
  }

  method DetectRuntimePivots(values: seq<Num>, left: nat, right: nat, kind: PivotKind) returns (pivots: seq<Pivot>)
    requires left >= 1 && right >= 1
    ensures |values| < left + right + 1 ==> pivots == []
    ensures |values| >= left + right + 1 ==> PivotsBelow(pivots, values, left, right, kind, |values| - right)
  {
    pivots := [];
    if |values| < left + right + 1 {
      return;
    }
    for index := left to |values| - right
      invariant PivotsBelow(pivots, values, left, right, kind, index)
    {
      var isPivot := TestPivot(values, index, left, right, kind);
      if isPivot {
        ghost var before := pivots;
        pivots := pivots + [Pivot(index, index + right, values[index])];
        assert pivots[..|before|] == before && pivots[..|pivots|] == pivots;
        forall c | left <= c <= index
          ensures Recorded(pivots, c) <==> Recorded(before, c) || c == index
        {
          RecordedStep(pivots, |before|, c);
        }
      }
    }
  }

  lemma {:induction false} PivotIsLocal(values: seq<Num>, center: int, left: nat, right: nat, kind: PivotKind)
    requires left <= center < |values| - right
    ensures IsPivot(values, center, left, right, kind)
            <==> IsPivot(values[..center + right + 1], center, left, right, kind)
  {
    var h := values[..center + right + 1];
    assert forall j | 0 <= j < |h| :: h[j] == values[j];
  }

  lemma {:induction false} ConfirmedAt(values: seq<Num>, left: nat, right: nat, kind: PivotKind, i: nat)
    requires i < |values|
    ensures ConfirmedPivot(values[..i + 1], left, right, kind)
            == if i - right >= left && IsPivot(values, i - right, left, right, kind) then values[i - right] else NaN
  {
    if i - right >= left {
      PivotIsLocal(values, i - right, left, right, kind);
    }
  }

  /** The published pivots: nothing shows on a bar before the bars it needs exist. */
  method PivotSeries(values: seq<Num>, left: nat, right: nat, kind: PivotKind) returns (out: seq<Num>)
    requires left >= 1 && right >= 1
    ensures IsHistoryWise(out, values, h => ConfirmedPivot(h, left, right, kind))
  {
    out := seq(|values|, _ => NaN);
    var pivots := DetectRuntimePivots(values, left, right, kind);
    for k := 0 to |pivots|
      invariant |out| == |values|
      invariant forall i | 0 <= i < |values| :: out[i] == PublishedAt(values, pivots[..k], i, right)
    {
      forall i | 0 <= i < |values|
        ensures PublishedAt(values, pivots[..k + 1], i, right)
             == if pivots[k].index == i - right then values[i - right] else PublishedAt(values, pivots[..k], i, right)
      {
        RecordedStep(pivots, k, i - right);
      }
      out := out[pivots[k].confirmation := pivots[k].value];
    }
    assert pivots[..|pivots|] == pivots;
    forall i | 0 <= i < |values|
      ensures out[i] == ConfirmedPivot(values[..i + 1], left, right, kind)
    {
      ConfirmedAt(values, left, right, kind, i);
    }
  }

  function PublishedAt(values: seq<Num>, pivots: seq<Pivot>, i: nat, right: nat): Num
    requires i < |values|
  {
    if i - right >= 0 && Recorded(pivots, i - right) then values[i - right] else NaN
  }

  // ----- Facts about the indicators themselves -----

  predicate NonNegative(s: GainLoss) {
    AtLeastZero(s.gain) && AtLeastZero(s.loss)
  }

  predicate AllUsable(h: seq<Num>) {
    forall i | 0 <= i < |h| :: Usable(h[i])
  }

  lemma {:induction false} RsiSeedNonNegative(h: seq<Num>)
    requires |h| >= 1 && AllUsable(h)
    ensures NonNegative(RsiSeed(h))
  {
    if |h| > 1 {
      RsiSeedNonNegative(Front(h));
    }
  }

  lemma {:induction false} RsiStateNonNegative(h: seq<Num>, length: nat)
    requires length >= 1 && |h| >= length + 1 && AllUsable(h)
    ensures NonNegative(RsiState(h, length))
  {
    if |h| == length + 1 {
      RsiSeedNonNegative(h);
      assert RsiSeed(h).gain.value / length as real >= 0.0 && RsiSeed(h).loss.value / length as real >= 0.0;
    } else {
      RsiStateNonNegative(Front(h), length);
    }
  }

  /** On usable prices the RSI is published exactly once it has `length` changes, and lies in [0, 100]. */
  lemma {:induction false} RsiWithinBounds(h: seq<Num>, length: nat)
    requires length >= 1 && AllUsable(h)
    ensures Usable(Rsi(h, length)) <==> |h| > length
    ensures |h| > length ==> 0.0 <= Rsi(h, length).value <= 100.0
  {
    if |h| > length {
      RsiStateNonNegative(h, length);
      var s := RsiState(h, length);
      if s.loss != ZERO {
        var ratio := s.gain.value / s.loss.value;
        assert ratio >= 0.0;
        assert 0.0 <= 100.0 / (1.0 + ratio) <= 100.0;
      }
    }
  }
}
