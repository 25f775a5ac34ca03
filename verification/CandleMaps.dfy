/** Candle lists as maps from time to candle: later candles replace earlier ones of the same time. */
module CandleMaps {
  import opened Sets
  import opened Candles

  function ByTime(cs: seq<Candle>): (m: map<int, Candle>)
    ensures forall t <- m :: m[t].time == t && m[t] in cs
    ensures forall c <- cs :: c.time in m
  {
    if |cs| == 0 then map[] else ByTime(cs[..|cs| - 1])[cs[|cs| - 1].time := cs[|cs| - 1]]
  }

  lemma {:induction false} ByTimeOfAscending(cs: seq<Candle>)
    requires Ascending(cs)
    ensures forall i | 0 <= i < |cs| :: ByTime(cs)[cs[i].time] == cs[i]
  {
    if |cs| > 0 {
      var front := cs[..|cs| - 1];
      ByTimeOfAscending(front);
      forall i | 0 <= i < |cs|
        ensures ByTime(cs)[cs[i].time] == cs[i]
      {
        if i < |front| {
          assert front[i] == cs[i];
        }
      }
    }
  }

  lemma {:induction false} FrontIsBefore(cs: seq<Candle>)
    requires |cs| > 0 && Ascending(cs)
    ensures Ascending(cs[..|cs| - 1])
    ensures forall c <- cs[..|cs| - 1] :: c.time < cs[|cs| - 1].time
    ensures cs[|cs| - 1].time !in ByTime(cs[..|cs| - 1])
  {
  }

  lemma {:induction false} ByTimeSize(cs: seq<Candle>)
    requires Ascending(cs)
    ensures |ByTime(cs)| == |cs|
  {
    if |cs| > 0 {
      FrontIsBefore(cs);
      ByTimeSize(cs[..|cs| - 1]);
    }
  }

  lemma {:induction false} ByTimeSnoc(cs: seq<Candle>, c: Candle)
    ensures ByTime(cs + [c]) == ByTime(cs)[c.time := c]
  {
  }

  lemma {:induction false} NoCandles()
    ensures ByTime([]) == map[]
  {
  }

  lemma {:induction false} UpdateOfUnion(m: map<int, Candle>, w: map<int, Candle>, c: Candle)
    ensures m + w[c.time := c] == (m + w)[c.time := c]
  {
  }

  lemma {:induction false} ByTimeAppend(a: seq<Candle>, b: seq<Candle>)
    ensures ByTime(a + b) == ByTime(a) + ByTime(b)
  {
    hide ByTime;
    if |b| == 0 {
      NoCandles();
      assert a + b == a;
    } else {
      var front, c := b[..|b| - 1], b[|b| - 1];
      ByTimeAppend(a, front);
      ByTimeSnoc(a + front, c);
      ByTimeSnoc(front, c);
      UpdateOfUnion(ByTime(a), ByTime(front), c);
      assert a + b == (a + front) + [c];
      assert b == front + [c];
    }
  }

  lemma {:induction false} ByTimeFront(cs: seq<Candle>)
    requires |cs| > 0 && Ascending(cs)
    ensures ByTime(cs[..|cs| - 1]) == ByTime(cs) - {cs[|cs| - 1].time}
  {
    FrontIsBefore(cs);
  }

  lemma {:induction false} LastIsNewest(cs: seq<Candle>, t: int)
    requires |cs| > 0 && Ascending(cs) && t in ByTime(cs)
    ensures t <= cs[|cs| - 1].time
  {
  }

  /** An ascending list is determined by its map. */
  lemma {:induction false} TimelineUnique(a: seq<Candle>, b: seq<Candle>)
    requires Ascending(a) && Ascending(b) && ByTime(a) == ByTime(b)
    ensures a == b
    decreases |a|
  {
    hide ByTime, Ascending;
    ByTimeSize(a);
    ByTimeSize(b);
    if |a| > 0 {
      var n := |a| - 1;
      ByTimeOfAscending(a);
      ByTimeOfAscending(b);
      LastIsNewest(a, b[n].time);
      LastIsNewest(b, a[n].time);
      assert a[n] == b[n];
      ByTimeFront(a);
      ByTimeFront(b);
      FrontIsBefore(a);
      FrontIsBefore(b);
      TimelineUnique(a[..n], b[..n]);
      assert a == a[..n] + [a[n]] && b == b[..n] + [b[n]];
    }
  }

  // ----- Rebuilding an ascending list from a map -----

  predicate AscendingTimes(times: seq<int>) {
    forall i, j | 0 <= i < j < |times| :: times[i] < times[j]
  }

  predicate Below(times: seq<int>, rest: set<int>) {
    forall t, u | t in times && u in rest :: t < u
  }

  predicate Least(t: int, keys: set<int>) {
    t in keys && forall u <- keys :: t <= u
  }

  /** sort.Slice over distinct keys. */
  method SortedTimes(keys: set<int>) returns (times: seq<int>)
    ensures AscendingTimes(times) && forall t :: t in times <==> t in keys
  {
    times := [];
    var rest := keys;
    while rest != {}
      invariant AscendingTimes(times) && Below(times, rest)
      invariant forall t :: t in keys <==> t in times || t in rest
      decreases |rest|
    {
      SmallestExists(rest);
      var least :| least in rest && Least(least, rest);
      SmallestGoesLast(times, rest, least);
      times := times + [least];
      rest := rest - {least};
    }
  }

  lemma {:induction false} SmallestGoesLast(times: seq<int>, rest: set<int>, least: int)
    requires AscendingTimes(times) && Below(times, rest) && Least(least, rest)
    ensures AscendingTimes(times + [least]) && Below(times + [least], rest - {least})
    ensures forall t :: t in times + [least] <==> t in times || t == least
  {
    assert forall i | 0 <= i < |times| :: times[i] in times;
  }

  lemma {:induction false} SmallestExists(keys: set<int>)
    requires keys != {}
    ensures exists least :: Least(least, keys)
  {
    var k := SomeMember(keys);
    var rest := keys - {k};
    assert keys == rest + {k};
    if rest == {} {
      assert Least(k, keys);
    } else {
      SmallestExists(rest);
      var least :| Least(least, rest);
      assert Least(if k < least then k else least, keys);
    }
  }

  method Timeline(byTime: map<int, Candle>) returns (out: seq<Candle>)
    requires forall t <- byTime :: byTime[t].time == t
    ensures Ascending(out) && ByTime(out) == byTime
  {
    hide ByTime;
    var times := SortedTimes(byTime.Keys);
    out := [];
    for i := 0 to |times|
      invariant |out| == i
      invariant forall j | 0 <= j < i :: times[j] in byTime && out[j] == byTime[times[j]]
    {
      assert times[i] in times;
      out := out + [byTime[times[i]]];
    }
    RebuiltMap(times, byTime, out);
  }

  lemma {:induction false} RebuiltMap(times: seq<int>, byTime: map<int, Candle>, out: seq<Candle>)
    requires forall t <- byTime :: byTime[t].time == t
    requires AscendingTimes(times) && forall t :: t in times <==> t in byTime
    requires |out| == |times| && forall j | 0 <= j < |out| :: times[j] in byTime && out[j] == byTime[times[j]]
    ensures Ascending(out) && ByTime(out) == byTime
  {
    hide ByTime;
    assert forall j | 0 <= j < |out| :: out[j].time == times[j];
    ByTimeOfAscending(out);
    forall t | t in byTime
      ensures t in ByTime(out) && ByTime(out)[t] == byTime[t]
    {
      assert t in times;
      var j :| 0 <= j < |times| && times[j] == t;
      assert out[j] in out;
    }
    forall t | t in ByTime(out)
      ensures t in byTime
    {
      var j :| 0 <= j < |out| && out[j] == ByTime(out)[t];
      assert times[j] == t;
    }
  }
}
