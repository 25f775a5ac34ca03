/** Candles of a wider timeframe, built from the candles of a narrower one. */
module CandleAggregation {
  import opened Reals
  import opened Sequences
  import opened Candles

  /** The start of the bucket a time falls in. */
  function BucketTime(time: int, seconds: int): int
    requires seconds > 0
  {
    time - GoMod(time, seconds)
  }

  function Merge(current: Candle, c: Candle): Candle {
    Candle(current.time, current.open, Larger(current.high, c.high), Smaller(current.low, c.low), c.close,
           current.volume + c.volume)
  }

  /** One more candle: it joins the newest bucket or opens the next one. */
  function Step(buckets: seq<Candle>, c: Candle, seconds: int): seq<Candle>
    requires seconds > 0
  {
    var time := BucketTime(c.time, seconds);
    if buckets == [] || Last(buckets).time != time then buckets + [c.(time := time)]
    else Front(buckets) + [Merge(Last(buckets), c)]
  }

  function Aggregate(cs: seq<Candle>, seconds: int): seq<Candle>
    requires seconds > 0
  {
    if |cs| == 0 then [] else Step(Aggregate(Front(cs), seconds), Last(cs), seconds)
  }

  method AggregateRuntimeCandles(candles: seq<Candle>, seconds: int) returns (out: seq<Candle>)
    ensures out == if seconds <= 0 then candles else Aggregate(candles, seconds)
  {
    if seconds <= 0 || |candles| == 0 {
      return candles;
    }
    out := [];
    for i := 0 to |candles|
      invariant out == Aggregate(candles[..i], seconds)
    {
      assert Front(candles[..i + 1]) == candles[..i];
      var candle := candles[i];
      var bucket := candle.time - GoMod(candle.time, seconds);
      if |out| == 0 || out[|out| - 1].time != bucket {
        out := out + [candle.(time := bucket)];
      } else {
        var current := out[|out| - 1];
        if candle.high > current.high {
          current := current.(high := candle.high);
        }
        if candle.low < current.low {
          current := current.(low := candle.low);
        }
        current := current.(close := candle.close, volume := current.volume + candle.volume);
        out := out[|out| - 1 := current];
      }
    }
    assert candles[..|candles|] == candles;
  }

  // ----- Arithmetic of bucket times -----

  lemma {:induction false} MulDifference(b: int, p: int, q: int)
    ensures b * q - b * p == b * (q - p)
  {
  }

  lemma {:induction false} MulAtLeast(b: int, d: int)
    requires b > 0 && d >= 1
    ensures b * d >= b
  {
  }

  lemma {:induction false} MultiplesApart(b: int, p: int, q: int)
    requires b > 0
    ensures p < q ==> b * p + b <= b * q
  {
    if p < q {
      MulDifference(b, p, q);
      MulAtLeast(b, q - p);
    }
  }

  lemma {:induction false} DivBounds(a: int, b: int)
    requires a >= 0 && b > 0
    ensures a / b >= 0 && b * (a / b) <= a < b * (a / b) + b
  {
  }

  lemma {:induction false} DivUnique(a: int, b: int, q: int)
    requires a >= 0 && b > 0 && b * q <= a < b * q + b
    ensures a / b == q
  {
    DivBounds(a, b);
    MultiplesApart(b, a / b, q);
    MultiplesApart(b, q, a / b);
  }

  /** Bucket times are multiples of the width, and times before zero round up to zero. */
  lemma {:induction false} BucketIsMultiple(t: int, seconds: int)
    requires seconds > 0
    ensures BucketTime(t, seconds) == seconds * GoDiv(t, seconds)
    ensures t >= 0 ==> BucketTime(t, seconds) == seconds * (t / seconds)
    ensures t < 0 ==> BucketTime(t, seconds) == -(seconds * (-t / seconds))
  {
  }

  lemma {:induction false} DivMonotone(a: int, c: int, b: int)
    requires 0 <= a <= c && b > 0
    ensures b * (a / b) <= b * (c / b)
  {
    DivBounds(a, b);
    DivBounds(c, b);
    MultiplesApart(b, c / b, a / b);
    if a / b != c / b {
      MultiplesApart(b, a / b, c / b);
    }
  }

  lemma {:induction false} BucketMonotone(s: int, t: int, seconds: int)
    requires seconds > 0 && s <= t
    ensures BucketTime(s, seconds) <= BucketTime(t, seconds)
  {
    BucketIsMultiple(s, seconds);
    BucketIsMultiple(t, seconds);
    if s >= 0 {
      DivMonotone(s, t, seconds);
    } else if t < 0 {
      DivMonotone(-t, -s, seconds);
    } else {
      NonNegative(t, seconds);
      NonNegative(-s, seconds);
    }
  }

  lemma {:induction false} NonNegative(a: int, b: int)
    requires a >= 0 && b > 0
    ensures 0 <= b * (a / b) <= a
  {
  }

  lemma {:induction false} MulAssociates(k: int, m: int, q: int)
    ensures k * m * q == m * (k * q)
  {
  }

  /** Rounding down to a multiple of m and then of k * m is rounding down to a multiple of k * m. */
  lemma {:induction false} RoundTwice(a: int, m: int, k: int)
    requires a >= 0 && m > 0 && k * m > 0
    ensures m * (a / m) >= 0 && m * (a / m) / (k * m) == a / (k * m)
  {
    var n, p, q := k * m, a / m, a / (k * m);
    NonNegative(a, m);
    DivBounds(a, m);
    DivBounds(a, n);
    MulAssociates(k, m, q);
    assert m * (k * q) <= m * p by {
      if p < k * q {
        MultiplesApart(m, p, k * q);
      }  else if p > k * q {
        MultiplesApart(m, k * q, p);
      }
    }
    DivUnique(m * p, n, q);
  }

  /** A bucket of m seconds lies inside one bucket of k * m seconds. */
  lemma {:induction false} BucketOfBucket(t: int, m: int, k: int)
    requires m > 0 && k * m > 0
    ensures BucketTime(BucketTime(t, m), k * m) == BucketTime(t, k * m)
  {
    BucketIsMultiple(t, m);
    BucketIsMultiple(t, k * m);
    BucketIsMultiple(BucketTime(t, m), k * m);
    RoundTwice(if t >= 0 then t else -t, m, k);
  }

  // ----- What aggregation keeps -----

  function TotalVolume(cs: seq<Candle>): real {
    if |cs| == 0 then 0.0 else TotalVolume(Front(cs)) + Last(cs).volume
  }

  lemma {:induction false} VolumeConserved(cs: seq<Candle>, seconds: int)
    requires seconds > 0
    ensures TotalVolume(Aggregate(cs, seconds)) == TotalVolume(cs)
  {
    if |cs| > 0 {
      VolumeConserved(Front(cs), seconds);
      var before, c := Aggregate(Front(cs), seconds), Last(cs);
      var after := Aggregate(cs, seconds);
      if before != [] && Last(before).time == BucketTime(c.time, seconds) {
        assert Front(after) == Front(before);
      } else {
        assert Front(after) == before;
      }
    }
  }

  lemma {:induction false} StepAscends(buckets: seq<Candle>, c: Candle, seconds: int)
    requires seconds > 0 && Ascending(buckets)
    requires buckets != [] ==> Last(buckets).time <= BucketTime(c.time, seconds)
    ensures Ascending(Step(buckets, c, seconds))
    ensures Step(buckets, c, seconds) != [] && Last(Step(buckets, c, seconds)).time == BucketTime(c.time, seconds)
  {
  }

  lemma {:induction false} AggregateAscends(cs: seq<Candle>, seconds: int)
    requires seconds > 0 && Ascending(cs)
    ensures Ascending(Aggregate(cs, seconds))
    ensures |cs| > 0 ==>
              Aggregate(cs, seconds) != [] && Last(Aggregate(cs, seconds)).time == BucketTime(Last(cs).time, seconds)
  {
    hide BucketTime, Step;
    if |cs| > 0 {
      var front, c := Front(cs), Last(cs);
      AggregateAscends(front, seconds);
      if |front| > 0 {
        assert Last(front).time < c.time;
        BucketMonotone(Last(front).time, c.time, seconds);
      }
      StepAscends(Aggregate(front, seconds), c, seconds);
    }
  }

  /** Every bucket time is a multiple of the width. */
  lemma {:induction false} BucketsAreMultiples(cs: seq<Candle>, seconds: int, b: Candle)
    requires seconds > 0 && b in Aggregate(cs, seconds)
    ensures GoMod(b.time, seconds) == 0
  {
    hide GoMod;
    var before, after := Aggregate(Front(cs), seconds), Aggregate(cs, seconds);
    if b == Last(after) {
      BucketOfBucket(Last(cs).time, seconds, 1);
    } else if b in before {
      BucketsAreMultiples(Front(cs), seconds, b);
    }
  }

  /** The candles of a bucket, in order. */
  function Members(cs: seq<Candle>, time: int, seconds: int): seq<Candle>
    requires seconds > 0
  {
    if |cs| == 0 then []
    else Members(Front(cs), time, seconds) + if BucketTime(Last(cs).time, seconds) == time then [Last(cs)] else []
  }

  function Highest(cs: seq<Candle>): real
    requires |cs| > 0
  {
    if |cs| == 1 then cs[0].high else Larger(Highest(Front(cs)), Last(cs).high)
  }

  function Lowest(cs: seq<Candle>): real
    requires |cs| > 0
  {
    if |cs| == 1 then cs[0].low else Smaller(Lowest(Front(cs)), Last(cs).low)
  }

  /** One candle for many: first open, extreme high and low, last close, total volume. */
  function Summary(cs: seq<Candle>, time: int): Candle
    requires |cs| > 0
  {
    Candle(time, cs[0].open, Highest(cs), Lowest(cs), Last(cs).close, TotalVolume(cs))
  }

  lemma {:induction false} SummarySnoc(cs: seq<Candle>, c: Candle, time: int)
    requires |cs| > 0
    ensures Summary(cs + [c], time) == Merge(Summary(cs, time), c)
  {
  }

  lemma {:induction false} NoMembers(cs: seq<Candle>, time: int, seconds: int)
    requires seconds > 0 && Ascending(cs)
    requires |cs| > 0 ==> BucketTime(Last(cs).time, seconds) < time
    ensures Members(cs, time, seconds) == []
  {
    if |cs| > 1 {
      BucketMonotone(Last(Front(cs)).time, Last(cs).time, seconds);
    }
    if |cs| > 0 {
      NoMembers(Front(cs), time, seconds);
    }
  }

  /** The bucket at position k is the summary of its candles. */
  ghost predicate Summarises(b: Candle, cs: seq<Candle>, seconds: int)
    requires seconds > 0
  {
    Members(cs, b.time, seconds) != [] && b == Summary(Members(cs, b.time, seconds), b.time)
  }

  lemma {:induction false} OlderBucketSummarises(cs: seq<Candle>, seconds: int, b: Candle)
    requires seconds > 0 && |cs| > 0 && Summarises(b, Front(cs), seconds)
    requires b.time != BucketTime(Last(cs).time, seconds)
    ensures Summarises(b, cs, seconds)
  {
    hide BucketTime, Summary;
    assert Members(cs, b.time, seconds) == Members(Front(cs), b.time, seconds);
  }

  lemma {:induction false} NewestBucketSummarises(cs: seq<Candle>, seconds: int)
    requires seconds > 0 && Ascending(cs) && |cs| > 0
    requires forall b <- Aggregate(Front(cs), seconds) :: Summarises(b, Front(cs), seconds)
    ensures Aggregate(cs, seconds) != [] && Summarises(Last(Aggregate(cs, seconds)), cs, seconds)
  {
    hide BucketTime, Summary, Ascending;
    var front, c := Front(cs), Last(cs);
    var before, time := Aggregate(front, seconds), BucketTime(c.time, seconds);
    FrontAscends(cs);
    if before != [] && Last(before).time == time {
      assert Summarises(Last(before), front, seconds);
      SummarySnoc(Members(front, time, seconds), c, time);
    } else {
      AggregateAscends(front, seconds);
      if |front| > 0 {
        BucketMonotone(Last(front).time, c.time, seconds);
      }
      NoMembers(front, time, seconds);
      assert Members(cs, time, seconds) == [c];
      SummaryOfOne(c, time);
    }
  }

  lemma {:induction false} SummaryOfOne(c: Candle, time: int)
    ensures Summary([c], time) == c.(time := time)
  {
    assert TotalVolume(Front([c])) == 0.0;
  }

  lemma {:induction false} FrontAscends(cs: seq<Candle>)
    requires |cs| > 0 && Ascending(cs)
    ensures Ascending(Front(cs)) && (|cs| > 1 ==> Last(Front(cs)).time < Last(cs).time)
  {
  }

  /** Every bucket summarises exactly its candles, and every candle has its bucket. */
  lemma {:induction false} BucketsSummarise(cs: seq<Candle>, seconds: int)
    requires seconds > 0 && Ascending(cs)
    ensures forall b <- Aggregate(cs, seconds) :: Summarises(b, cs, seconds)
    ensures forall c <- cs :: exists b <- Aggregate(cs, seconds) :: b.time == BucketTime(c.time, seconds)
  {
    hide BucketTime, Summarises, Merge;
    if |cs| > 0 {
      FrontAscends(cs);
      BucketsSummarise(Front(cs), seconds);
      NewestBucketSummarises(cs, seconds);
      AggregateAscends(cs, seconds);
      var before, after := Aggregate(Front(cs), seconds), Aggregate(cs, seconds);
      forall b | b in after
        ensures Summarises(b, cs, seconds)
      {
        if b != Last(after) {
          var k :| 0 <= k < |after| && after[k] == b;
          assert after[k].time < Last(after).time;
          assert before[k] == b && b in before;
          OlderBucketSummarises(cs, seconds, b);
        }
      }
      EveryCandleHasItsBucket(cs, seconds);
    }
  }

  lemma {:induction false} EveryCandleHasItsBucket(cs: seq<Candle>, seconds: int)
    requires seconds > 0 && Ascending(cs) && |cs| > 0
    requires forall c <- Front(cs) :: exists b <- Aggregate(Front(cs), seconds) :: b.time == BucketTime(c.time, seconds)
    ensures forall c <- cs :: exists b <- Aggregate(cs, seconds) :: b.time == BucketTime(c.time, seconds)
  {
    var before, after := Aggregate(Front(cs), seconds), Aggregate(cs, seconds);
    AggregateAscends(cs, seconds);
    forall c | c in cs
      ensures exists b <- after :: b.time == BucketTime(c.time, seconds)
    {
      if c == Last(cs) {
        assert Last(after) in after;
      } else {
        var b :| b in before && b.time == BucketTime(c.time, seconds);
        var k :| 0 <= k < |before| && before[k] == b;
        assert after[k].time == b.time && after[k] in after;
      }
    }
  }

  // ----- Composition -----

  lemma {:induction false} StepOfMerge(buckets: seq<Candle>, current: Candle, c: Candle, seconds: int)
    requires seconds > 0 && BucketTime(current.time, seconds) == BucketTime(c.time, seconds)
    ensures Step(buckets, Merge(current, c), seconds) == Step(Step(buckets, current, seconds), c, seconds)
  {
    var time := BucketTime(c.time, seconds);
    var once := Step(buckets, current, seconds);
    assert Last(once).time == time;
    if buckets != [] && Last(buckets).time == time {
      assert Front(once) == Front(buckets);
      assert Merge(Merge(Last(buckets), current), c) == Merge(Last(buckets), Merge(current, c));
    } else {
      assert Front(once) == buckets;
    }
  }

  lemma {:induction false} StepOfBucket(buckets: seq<Candle>, c: Candle, m: int, k: int)
    requires m > 0 && k * m > 0
    ensures Step(buckets, c.(time := BucketTime(c.time, m)), k * m) == Step(buckets, c, k * m)
  {
    BucketOfBucket(c.time, m, k);
  }

  /** Aggregating to m seconds and then to k * m gives what aggregating to k * m does. */
  lemma {:induction false} AggregationComposes(cs: seq<Candle>, m: int, k: int)
    requires m > 0 && k * m > 0
    ensures Aggregate(Aggregate(cs, m), k * m) == Aggregate(cs, k * m)
  {
    if |cs| > 0 {
      var front, c := Front(cs), Last(cs);
      AggregationComposes(front, m, k);
      var narrow, after := Aggregate(front, m), Aggregate(cs, m);
      var time := BucketTime(c.time, m);
      if narrow == [] || Last(narrow).time != time {
        assert Front(after) == narrow && Last(after) == c.(time := time);
        StepOfBucket(Aggregate(narrow, k * m), c, m, k);
      } else {
        assert Front(after) == Front(narrow) && Last(after) == Merge(Last(narrow), c);
        BucketOfBucket(c.time, m, k);
        StepOfMerge(Aggregate(Front(narrow), k * m), Last(narrow), c, k * m);
      }
    }
  }
}
