/** The timelines of request.security(): candles of a wider timeframe, and their values mapped back onto the
    chart's bars.  A timeframe is its number of seconds, 0 for the chart's own, None when its name is not
    understood. */
module RequestSecurity {
  import opened Options
  import opened Sequences
  import opened PineNumbers
  import opened PineValues
  import opened Candles
  import opened CandleAggregation
  import opened PineGrammar
  import opened PineCallTexts

  // ----- The chart's own interval -----

  /** The smallest positive distance between neighbouring candles. */
  function SmallestStep(cs: seq<Candle>): Option<int> {
    if |cs| < 2 then None
    else
      var best, step := SmallestStep(Front(cs)), Last(cs).time - Last(Front(cs)).time;
      if step > 0 && (best.None? || step < best.value) then Some(step) else best
  }

  function CandleInterval(cs: seq<Candle>): int {
    match SmallestStep(cs)
    case Some(step) => step
    case None => 60
  }

  method StatefulCandleInterval(candles: seq<Candle>) returns (interval: int)
    ensures interval == CandleInterval(candles)
  {
    if |candles| < 2 {
      return 60;
    }
    var best: Option<int> := None;
    for index := 1 to |candles|
      invariant best == SmallestStep(candles[..index])
    {
      assert Front(candles[..index + 1]) == candles[..index];
      var step := candles[index].time - candles[index - 1].time;
      if step > 0 && (best.None? || step < best.value) {
        best := Some(step);
      }
    }
    assert candles[..|candles|] == candles;
    return if best.None? then 60 else best.value;
  }

  function Gap(cs: seq<Candle>, i: nat): int
    requires 0 < i < |cs|
  {
    cs[i].time - cs[i - 1].time
  }

  lemma {:induction false} IntervalIsShortest(cs: seq<Candle>)
    requires Ascending(cs) && |cs| >= 2
    ensures forall i | 0 < i < |cs| :: 0 < CandleInterval(cs) <= Gap(cs, i)
    ensures exists i | 0 < i < |cs| :: CandleInterval(cs) == Gap(cs, i)
  {
    var front := Front(cs);
    assert Gap(cs, |cs| - 1) == Last(cs).time - Last(front).time > 0;
    hide Ascending;
    if |cs| == 2 {
      assert SmallestStep(front) == None;
      assert CandleInterval(cs) == Gap(cs, 1);
    }
    if |cs| > 2 {
      IntervalIsShortest(front);
      var k :| 0 < k < |front| && CandleInterval(front) == Gap(front, k);
      assert Gap(cs, k) == Gap(front, k);
      forall i | 0 < i < |cs|
        ensures 0 < CandleInterval(cs) <= Gap(cs, i)
      {
        if i < |front| {
          assert Gap(cs, i) == Gap(front, i);
        }
      }
    }
  }

  // ----- From chart bars to buckets -----

  datatype Mapping = Mapped(buckets: seq<Candle>, toBucket: seq<int>) | Unmapped

  /** The bucket of bar i is the newest one its own past makes. */
  function BucketIndexes(cs: seq<Candle>, seconds: int): (r: seq<int>)
    requires seconds > 0
    ensures |r| == |cs|
  {
    seq(|cs|, i requires 0 <= i < |cs| => |Aggregate(cs[..i + 1], seconds)| - 1)
  }

  function MapCandles(cs: seq<Candle>, seconds: Option<nat>): Mapping {
    if |cs| == 0 then Mapped([], [])
    else if seconds.None? then Unmapped
    else if seconds.value == 0 || seconds.value == CandleInterval(cs) then Mapped(cs, seq(|cs|, i => i))
    else if seconds.value < CandleInterval(cs) then Unmapped
    else Mapped(Aggregate(cs, seconds.value), BucketIndexes(cs, seconds.value))
  }

  /** Later candles change no bucket but the newest, and not its time. */
  lemma {:induction false} AggregateGrows(cs: seq<Candle>, seconds: int, j: nat)
    requires seconds > 0 && j <= |cs|
    ensures var a, b := Aggregate(cs[..j], seconds), Aggregate(cs, seconds);
            && |a| <= |b|
            && (forall k | 0 <= k < |a| :: a[k].time == b[k].time)
            && (forall k | 0 <= k < |a| - 1 :: a[k] == b[k])
    decreases |cs| - j
  {
    if j == |cs| {
      assert cs[..j] == cs;
    } else {
      AggregateGrows(Front(cs), seconds, j);
      assert Front(cs)[..j] == cs[..j];
    }
  }

  lemma {:induction false} BarIsInItsBucket(cs: seq<Candle>, seconds: int, i: nat)
    requires seconds > 0 && i < |cs|
    ensures 0 <= BucketIndexes(cs, seconds)[i] < |Aggregate(cs, seconds)|
    ensures Aggregate(cs, seconds)[BucketIndexes(cs, seconds)[i]].time == BucketTime(cs[i].time, seconds)
  {
    AggregateGrows(cs, seconds, i + 1);
    assert Last(cs[..i + 1]) == cs[i];
  }

  method AggregateCandlesForTimeframe(candles: seq<Candle>, seconds: Option<nat>) returns (m: Mapping)
    requires Ascending(candles)
    ensures m == MapCandles(candles, seconds)
  {
    if |candles| == 0 {
      return Mapped([], []);
    }
    if seconds.None? {
      return Unmapped;
    }
    var width := seconds.value;
    var chart := StatefulCandleInterval(candles);
    if width == 0 || width == chart {
      return Mapped(candles, seq(|candles|, i => i));
    }
    if width < chart {
      return Unmapped;
    }
    assert width > 0 by {
      IntervalPositive(candles);
    }
    var buckets := AggregateRuntimeCandles(candles, width);
    AggregateAscends(candles, width);
    var toBucket := IndexBuckets(candles, buckets, width);
    return Mapped(buckets, toBucket);
  }

  method IndexBuckets(candles: seq<Candle>, buckets: seq<Candle>, width: int) returns (toBucket: seq<int>)
    requires width > 0 && buckets == Aggregate(candles, width) && Ascending(buckets)
    ensures toBucket == BucketIndexes(candles, width)
  {
    hide Aggregate, BucketIndexes;
    var bucketIndex: map<int, int> := map[];
    for index := 0 to |buckets|
      invariant forall k | 0 <= k < index :: buckets[k].time in bucketIndex && bucketIndex[buckets[k].time] == k
    {
      bucketIndex := bucketIndex[buckets[index].time := index];
    }
    toBucket := [];
    for index := 0 to |candles|
      invariant |toBucket| == index
      invariant forall k | 0 <= k < index :: toBucket[k] == BucketIndexes(candles, width)[k]
    {
      var bucketTime := candles[index].time - GoMod(candles[index].time, width);
      BarIsInItsBucket(candles, width, index);
      ghost var k := BucketIndexes(candles, width)[index];
      assert buckets[k].time == bucketTime;
      toBucket := toBucket + [bucketIndex[bucketTime]];
    }
  }

  lemma {:induction false} IntervalPositive(cs: seq<Candle>)
    ensures CandleInterval(cs) > 0
  {
    if |cs| >= 2 {
      IntervalPositive(Front(cs));
    }
  }

  // ----- Which bucket a bar may see -----

  predicate FinalInBucket(toBucket: seq<int>, index: nat)
    requires index < |toBucket|
  {
    index == |toBucket| - 1 || toBucket[index + 1] != toBucket[index]
  }

  /** Its own bucket on the bucket's last bar, the one before it until then. */
  function SecurityVisibleBucket(toBucket: seq<int>, index: nat): int
    requires index < |toBucket|
  {
    if toBucket[index] < 0 then -1
    else if FinalInBucket(toBucket, index) then toBucket[index]
    else toBucket[index] - 1
  }

  lemma {:induction false} NextCandleOpensOrJoins(cs: seq<Candle>, seconds: int, i: nat)
    requires seconds > 0 && i + 1 < |cs|
    ensures var a, b := Aggregate(cs[..i + 1], seconds), Aggregate(cs[..i + 2], seconds);
            |a| > 0 && (|b| == |a| || (|b| == |a| + 1 && b[..|a|] == a))
  {
    assert Front(cs[..i + 2]) == cs[..i + 1];
    assert Aggregate(cs[..i + 1], seconds) != [];
  }

  /** The buckets a bar sees are among those that the candles up to that bar make. */
  lemma {:induction false} VisibleBucketsArePast(cs: seq<Candle>, seconds: int, i: nat)
    requires seconds > 0 && i < |cs|
    ensures var seen := SecurityVisibleBucket(BucketIndexes(cs, seconds), i) + 1;
            && 0 <= seen <= |Aggregate(cs, seconds)|
            && Aggregate(cs, seconds)[..seen] <= Aggregate(cs[..i + 1], seconds)
            && seen == |Aggregate(cs[..i + 1], seconds)| - if FinalInBucket(BucketIndexes(cs, seconds), i) then 0 else 1
  {
    hide Aggregate, Step, BucketTime;
    var past, all := Aggregate(cs[..i + 1], seconds), Aggregate(cs, seconds);
    BarIsInItsBucket(cs, seconds, i);
    AggregateGrows(cs, seconds, i + 1);
    if FinalInBucket(BucketIndexes(cs, seconds), i) {
      if i == |cs| - 1 {
        assert cs[..i + 1] == cs;
      } else {
        NextCandleOpensOrJoins(cs, seconds, i);
        AggregateGrows(cs, seconds, i + 2);
      }
    }
  }

  // ----- Mapping values back -----

  function ExpandColors(colors: seq<string>, toBucket: seq<int>): seq<string> {
    seq(|toBucket|, i requires 0 <= i < |toBucket| =>
      var visible := SecurityVisibleBucket(toBucket, i);
      if 0 <= visible < |colors| then colors[visible] else "")
  }

  function ExpandNumbers(values: seq<Num>, toBucket: seq<int>): seq<Num> {
    seq(|toBucket|, i requires 0 <= i < |toBucket| =>
      var visible := SecurityVisibleBucket(toBucket, i);
      if 0 <= visible < |values| then values[visible] else NaN)
  }

  function Expand(v: Value, toBucket: seq<int>, bucketCount: nat): (r: Value)
    ensures Fits(r, |toBucket|)
  {
    if Colored(v) then ColorSeries(ExpandColors(ToColors(v, bucketCount), toBucket))
    else Series(ExpandNumbers(ToSeries(v, bucketCount), toBucket))
  }

  method ExpandSecurityValue(v: Value, toBucket: seq<int>, bucketCount: nat) returns (r: Value)
    ensures r == Expand(v, toBucket, bucketCount)
  {
    if Colored(v) {
      var colors := ToColors(v, bucketCount);
      var shown: seq<string> := [];
      for i := 0 to |toBucket|
        invariant |shown| == i
        invariant forall j | 0 <= j < i :: shown[j] == ExpandColors(colors, toBucket)[j]
      {
        var visible := SecurityVisibleBucket(toBucket, i);
        shown := shown + [if 0 <= visible < |colors| then colors[visible] else ""];
      }
      return ColorSeries(shown);
    }
    var values := ToSeries(v, bucketCount);
    var out: seq<Num> := [];
    for i := 0 to |toBucket|
      invariant |out| == i
      invariant forall j | 0 <= j < i :: out[j] == ExpandNumbers(values, toBucket)[j]
    {
      var visible := SecurityVisibleBucket(toBucket, i);
      out := out + [if 0 <= visible < |values| then values[visible] else NaN];
    }
    return Series(out);
  }

  // ----- The warm-up of a lagged average: sma(source, length)[1] -----

  /** The place of the last opening bracket. */
  function LastBracket(ts: Tokens): (r: Option<nat>)
    ensures r.Some? ==> r.value < |ts| && ts[r.value] == LBracket
  {
    if |ts| == 0 then None
    else if Last(ts) == LBracket then Some(|ts| - 1)
    else LastBracket(Front(ts))
  }

  /** What a text that ends in [1] puts in front of it. */
  function BeforeLag(ts: Tokens): (r: Option<Tokens>)
    ensures r.Some? ==> |r.value| < |ts| && forall t <- r.value :: t in ts
  {
    var open := LastBracket(ts);
    if open.None? || open.value + 3 != |ts| || Last(ts) != RBracket then None
    else if !ts[open.value + 1].NumberTok? || RoundAtLeast(ts[open.value + 1].r, 0) != 1 then None
    else Some(ts[..open.value])
  }

  datatype Pattern = NoPattern | LaggedAverage(source: Tokens, length: Tokens)

  function WarmupPattern(ts: Tokens): (p: Pattern)
    ensures p.LaggedAverage? ==> |p.source| < |ts| && |p.length| < |ts|
    ensures p.LaggedAverage? && Eof !in ts ==> Eof !in p.source && Eof !in p.length
  {
    var base := BeforeLag(ts);
    if base.None? then NoPattern
    else
      var body := if CallBody(base.value, "ta.sma").Some? then CallBody(base.value, "ta.sma")
          else CallBody(base.value, "sma");
      if body.None? then NoPattern
      else
        ArgumentWithin(body.value, "source", 0);
        ArgumentWithin(body.value, "length", 1);
        var source, length := RawArg(Arguments(body.value), "source", 0), RawArg(Arguments(body.value), "length", 1);
        if source == [] || length == [] then NoPattern else LaggedAverage(source, length)
  }

  datatype Tally = Tally(sum: real, count: nat)

  function UsableTally(w: seq<Num>): Tally {
    if |w| == 0 then Tally(0.0, 0)
    else
      var t := UsableTally(w[..|w| - 1]);
      var x := w[|w| - 1];
      if Usable(x) then Tally(t.sum + x.value, t.count + 1) else t
  }

  /** The mean of the usable values among the newest `length` of h. */
  function UsableMean(h: seq<Num>, length: nat): Num {
    var t := UsableTally(if |h| > length then h[|h| - length..] else h);
    if t.count > 0 then Fin(t.sum / t.count as real) else NaN
  }

  function WarmupSeries(values: seq<Num>, length: nat): (out: seq<Num>)
    ensures |out| == |values|
  {
    seq(|values|, i requires 0 <= i < |values| => UsableMean(values[..i], length))
  }

  method AverageCompletedBuckets(values: seq<Num>, length: nat) returns (out: seq<Num>)
    requires length >= 1
    ensures out == WarmupSeries(values, length)
  {
    hide UsableMean;
    out := [];
    for i := 0 to |values|
      invariant |out| == i
      invariant forall k | 0 <= k < i :: out[k] == UsableMean(values[..k], length)
    {
      var point := AverageBefore(values, i, length);
      out := out + [point];
    }
  }

  method AverageBefore(values: seq<Num>, i: nat, length: nat) returns (point: Num)
    requires length >= 1 && i < |values|
    ensures point == UsableMean(values[..i], length)
  {
    var start := if i - length < 0 then 0 else i - length;
    assert values[start..i] == if i > length then values[..i][i - length..] else values[..i];
    if start >= i {
      return NaN;
    }
    var sum, count := 0.0, 0;
    for j := start to i
      invariant Tally(sum, count) == UsableTally(values[start..j])
    {
      assert values[start..j + 1][..j - start] == values[start..j];
      if Usable(values[j]) {
        sum := sum + values[j].value;
        count := count + 1;
      }
    }
    return if count > 0 then Fin(sum / count as real) else NaN;
  }

  function FillMissing(primary: Value, fallback: Value, n: nat): Value
    requires Fits(primary, n) && Fits(fallback, n)
  {
    if !primary.Number? && !primary.Series? then primary
    else
      var values, others := ToSeries(primary, n), ToSeries(fallback, n);
      Series(seq(n, i requires 0 <= i < n => if Usable(values[i]) then values[i] else others[i]))
  }

  method FillMissingSecurityValue(primary: Value, fallback: Value, n: nat) returns (r: Value)
    requires Fits(primary, n) && Fits(fallback, n)
    ensures r == FillMissing(primary, fallback, n)
  {
    if !primary.Number? && !primary.Series? {
      return primary;
    }
    var values, others := ToSeries(primary, n), ToSeries(fallback, n);
    var out: seq<Num> := [];
    for i := 0 to n
      invariant |out| == i
      invariant forall j | 0 <= j < i :: out[j] == if Usable(values[j]) then values[j] else others[j]
    {
      var point := values[i];
      if !Usable(point) {
        point := others[i];
      }
      out := out + [point];
    }
    return Series(out);
  }

  // ----- What a run that ends earlier sees -----

  predicate SameTimes(a: seq<Candle>, b: seq<Candle>) {
    |a| == |b| && forall i | 0 <= i < |a| :: a[i].time == b[i].time
  }

  /** b has the bars that a starts with. */
  predicate StartsAs(b: seq<Candle>, a: seq<Candle>) {
    |b| <= |a| && SameTimes(b, a[..|b|])
  }

  lemma {:induction false} SameTimesAggregate(a: seq<Candle>, b: seq<Candle>, seconds: int)
    requires seconds > 0 && SameTimes(a, b)
    ensures SameTimes(Aggregate(a, seconds), Aggregate(b, seconds))
  {
    if |a| > 0 {
      SameTimesAggregate(Front(a), Front(b), seconds);
    }
  }

  lemma {:induction false} SameTimesInterval(a: seq<Candle>, b: seq<Candle>)
    requires SameTimes(a, b)
    ensures CandleInterval(a) == CandleInterval(b)
  {
    SameTimesStep(a, b);
  }

  lemma {:induction false} SameTimesStep(a: seq<Candle>, b: seq<Candle>)
    requires SameTimes(a, b)
    ensures SmallestStep(a) == SmallestStep(b)
  {
    if |a| >= 2 {
      SameTimesStep(Front(a), Front(b));
    }
  }

  lemma {:induction false} StartAggregates(a: seq<Candle>, b: seq<Candle>, seconds: int)
    requires seconds > 0 && StartsAs(b, a)
    ensures StartsAs(Aggregate(b, seconds), Aggregate(a, seconds))
    ensures BucketIndexes(b, seconds) == BucketIndexes(a, seconds)[..|b|]
  {
    hide Aggregate;
    AggregateGrows(a, seconds, |b|);
    SameTimesAggregate(b, a[..|b|], seconds);
    forall j | 0 <= j < |b|
      ensures BucketIndexes(b, seconds)[j] == BucketIndexes(a, seconds)[j]
    {
      assert a[..|b|][..j + 1] == a[..j + 1];
      SameTimesAggregate(b[..j + 1], a[..j + 1], seconds);
    }
  }

  /** A later bar sees no fewer buckets. */
  lemma {:induction false} VisibleGrows(cs: seq<Candle>, seconds: int, i: nat, j: nat)
    requires seconds > 0 && i <= j < |cs|
    ensures SecurityVisibleBucket(BucketIndexes(cs, seconds), i) <= SecurityVisibleBucket(BucketIndexes(cs, seconds), j)
    ensures BucketIndexes(cs, seconds)[i] <= BucketIndexes(cs, seconds)[j]
    decreases j
  {
    hide Aggregate;
    if i < j {
      VisibleGrows(cs, seconds, i, j - 1);
      NextCandleOpensOrJoins(cs, seconds, j - 1);
    }
  }

  /** The buckets a bar sees. */
  function Seen(toBucket: seq<int>, i: nat): int
    requires i < |toBucket|
  {
    SecurityVisibleBucket(toBucket, i) + 1
  }

  /** Bars before s map alike and see the same buckets. */
  ghost predicate SeeAlike(m: Mapping, w: Mapping, k: nat, s: nat) {
    && m.Mapped? && w.Mapped? && 1 <= s <= k <= |m.toBucket| && w.toBucket == m.toBucket[..k]
    && StartsAs(w.buckets, m.buckets) && |w.buckets| == m.toBucket[k - 1] + 1
    && (forall i | 0 <= i < s :: 0 <= Seen(w.toBucket, i) == Seen(m.toBucket, i) <= Seen(m.toBucket, s - 1))
    && Seen(m.toBucket, s - 1) <= |w.buckets|
    && w.buckets[..Seen(m.toBucket, s - 1)] == m.buckets[..Seen(m.toBucket, s - 1)]
  }

  lemma {:induction false} WideViewsAgree(a: seq<Candle>, b: seq<Candle>, seconds: int, s: nat)
    requires seconds > 0 && StartsAs(b, a) && 1 <= s <= |b| && a[..s] == b[..s]
    requires s < |b| || FinalInBucket(BucketIndexes(a, seconds), s - 1)
    ensures SeeAlike(Mapped(Aggregate(a, seconds), BucketIndexes(a, seconds)),
                     Mapped(Aggregate(b, seconds), BucketIndexes(b, seconds)), |b|, s)
  {
    hide Aggregate;
    var t1, t2 := BucketIndexes(a, seconds), BucketIndexes(b, seconds);
    StartAggregates(a, b, seconds);
    forall i | 0 <= i < s
      ensures 0 <= Seen(t2, i) == Seen(t1, i) <= Seen(t1, s - 1)
    {
      VisibleGrows(a, seconds, i, s - 1);
      VisibleBucketsArePast(a, seconds, i);
    }
    VisibleBucketsArePast(a, seconds, s - 1);
    VisibleBucketsArePast(b, seconds, s - 1);
    LastBucket(a, b, seconds);
  }

  lemma {:induction false} LastBucket(a: seq<Candle>, b: seq<Candle>, seconds: int)
    requires seconds > 0 && StartsAs(b, a) && |b| > 0
    ensures |Aggregate(b, seconds)| == BucketIndexes(a, seconds)[|b| - 1] + 1
  {
    hide Aggregate;
    SameTimesAggregate(b, a[..|b|], seconds);
  }

  /** The whole run's mapping has a mapping of the cut run beside it. */
  lemma {:induction false} ViewsAgree(a: seq<Candle>, b: seq<Candle>, seconds: Option<nat>, s: nat)
    requires StartsAs(b, a) && 1 <= s <= |b| && a[..s] == b[..s] && CandleInterval(b) == CandleInterval(a)
    requires var m := MapCandles(a, seconds); m.Mapped? ==> s < |b| || FinalInBucket(m.toBucket, s - 1)
    ensures MapCandles(a, seconds).Unmapped? == MapCandles(b, seconds).Unmapped?
    ensures MapCandles(a, seconds).Mapped? ==> SeeAlike(MapCandles(a, seconds), MapCandles(b, seconds), |b|, s)
  {
    hide Aggregate, BucketIndexes, CandleInterval;
    IntervalPositive(a);
    if seconds.Some? && seconds.value > CandleInterval(a) {
      WideViewsAgree(a, b, seconds.value, s);
    }
  }

  /** The places in a mapping that a cut after k bars of which s are shared depends on. */
  lemma {:induction false} ViewBounds(cs: seq<Candle>, seconds: Option<nat>, k: nat, s: nat)
    requires 1 <= s <= k <= |cs|
    ensures var m := MapCandles(cs, seconds);
            m.Mapped? ==>
              && |m.toBucket| == |cs| && 0 <= m.toBucket[k - 1] < |m.buckets|
              && 0 <= Seen(m.toBucket, s - 1) <= m.toBucket[k - 1] + 1
  {
    hide Aggregate, CandleInterval;
    IntervalPositive(cs);
    if seconds.Some? && seconds.value > CandleInterval(cs) {
      VisibleGrows(cs, seconds.value, s - 1, k - 1);
      BarIsInItsBucket(cs, seconds.value, k - 1);
      VisibleBucketsArePast(cs, seconds.value, s - 1);
    }
  }

  /** Bars of an unfinished bucket see the same buckets. */
  lemma {:induction false} SeenStays(cs: seq<Candle>, seconds: Option<nat>, i: nat)
    requires 0 < i < |cs|
    ensures var m := MapCandles(cs, seconds);
            m.Mapped? && !FinalInBucket(m.toBucket, i) ==>
              Seen(m.toBucket, i - 1) == Seen(m.toBucket, i) == m.toBucket[i]
  {
    hide Aggregate, CandleInterval;
    IntervalPositive(cs);
    if seconds.Some? && seconds.value > CandleInterval(cs) {
      NextCandleOpensOrJoins(cs, seconds.value, i - 1);
      BarIsInItsBucket(cs, seconds.value, i - 1);
    }
  }

  /** The last bar is in the last bucket. */
  lemma {:induction false} LastBucketIsLast(cs: seq<Candle>, seconds: Option<nat>)
    requires |cs| > 0
    ensures var m := MapCandles(cs, seconds);
            m.Mapped? ==> |m.toBucket| == |cs| && m.toBucket[|cs| - 1] == |m.buckets| - 1
  {
    hide Aggregate, CandleInterval;
    IntervalPositive(cs);
    assert cs[..|cs|] == cs;
  }

  /** A run that ends earlier accepts the same timeframes exactly when it has the same shortest step. */
  lemma {:induction false} TimeframesKeptWhen(cs: seq<Candle>, k: nat)
    requires 1 <= k <= |cs|
    ensures (forall seconds :: MapCandles(cs[..k], seconds).Unmapped? == MapCandles(cs, seconds).Unmapped?)
            <==> CandleInterval(cs[..k]) == CandleInterval(cs)
  {
    hide CandleInterval, Aggregate, BucketIndexes;
    var cut := cs[..k];
    IntervalPositive(cs);
    IntervalPositive(cut);
    if CandleInterval(cut) != CandleInterval(cs) {
      var shorter := Some(if CandleInterval(cut) < CandleInterval(cs) then CandleInterval(cut) else CandleInterval(cs));
      assert MapCandles(cut, shorter).Unmapped? != MapCandles(cs, shorter).Unmapped?;
    }
  }
}
