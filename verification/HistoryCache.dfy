/** The candle cache of the stream service: merging windows, and the cursor pages cut from it. */
module HistoryCache {
  import opened Sequences
  import opened Sets
  import opened Options
  import opened Candles
  import opened CandleMaps

  /** The answer of the bridge.  `series` is its symbol and timeframe, empty when one of them is. */
  datatype HistoryMessage = HistoryMessage(
    requestId: string,
    series: string,
    candles: seq<Candle>,
    failed: bool,
    stale: Option<bool>,
    freshnessKnown: Option<bool>,
    lastBarTime: int,
    minimumFreshBarTime: int,
    refreshExhausted: bool,
    hasMore: Option<bool>)

  // ----- Merging -----

  /** Every candle put in the map under its time, in order. */
  method Overlay(start: map<int, Candle>, candles: seq<Candle>) returns (byTime: map<int, Candle>)
    ensures byTime == start + ByTime(candles)
  {
    hide ByTime;
    byTime := start;
    NoCandles();
    assert candles[..0] == [];
    for i := 0 to |candles|
      invariant byTime == start + ByTime(candles[..i])
    {
      assert candles[..i + 1] == candles[..i] + [candles[i]];
      ByTimeSnoc(candles[..i], candles[i]);
      UpdateOfUnion(start, ByTime(candles[..i]), candles[i]);
      byTime := byTime[candles[i].time := candles[i]];
    }
    assert candles[..|candles|] == candles;
  }

  method NormalizeCandles(candles: seq<Candle>) returns (out: seq<Candle>)
    ensures Ascending(out) && ByTime(out) == ByTime(candles)
  {
    if |candles| == 0 {
      return [];
    }
    var byTime := Overlay(map[], candles);
    assert byTime == ByTime(candles);
    out := Timeline(byTime);
  }

  /** Incoming candles replace cached ones of the same time. */
  method MergeCandles(existing: seq<Candle>, incoming: seq<Candle>) returns (out: seq<Candle>)
    ensures Ascending(out) && ByTime(out) == ByTime(existing) + ByTime(incoming)
  {
    hide ByTime;
    NoCandles();
    if |existing| == 0 {
      out := NormalizeCandles(incoming);
      assert map[] + ByTime(incoming) == ByTime(incoming);
      return;
    }
    if |incoming| == 0 {
      out := NormalizeCandles(existing);
      return;
    }
    var byTime := Overlay(map[], existing);
    assert byTime == ByTime(existing);
    byTime := Overlay(byTime, incoming);
    out := Timeline(byTime);
  }

  /** The candles whose times are not among `times`. */
  function Unseen(cs: seq<Candle>, times: set<int>): seq<Candle> {
    if |cs| == 0 then []
    else
      var c := cs[|cs| - 1];
      Unseen(cs[..|cs| - 1], times) + if c.time in times then [] else [c]
  }

  lemma {:induction false} UpdateOfRest(m: map<int, Candle>, times: set<int>, c: Candle)
    ensures m[c.time := c] - times == if c.time in times then m - times else (m - times)[c.time := c]
  {
  }

  lemma {:induction false} UnseenByTime(cs: seq<Candle>, times: set<int>)
    ensures ByTime(Unseen(cs, times)) == ByTime(cs) - times
  {
    hide ByTime;
    NoCandles();
    if |cs| > 0 {
      var front, c := cs[..|cs| - 1], cs[|cs| - 1];
      assert cs == front + [c];
      UnseenByTime(front, times);
      ByTimeSnoc(front, c);
      UpdateOfRest(ByTime(front), times, c);
      ByTimeSnoc(Unseen(front, times), c);
      assert Unseen(front, times) + [] == Unseen(front, times);
    }
  }

  method CandleTimes(candles: seq<Candle>) returns (times: set<int>)
    ensures times == ByTime(candles).Keys
  {
    hide ByTime;
    times := {};
    NoCandles();
    assert candles[..0] == [];
    for i := 0 to |candles|
      invariant times == ByTime(candles[..i]).Keys
    {
      assert candles[..i + 1] == candles[..i] + [candles[i]];
      ByTimeSnoc(candles[..i], candles[i]);
      times := times + {candles[i].time};
    }
    assert candles[..|candles|] == candles;
  }

  /** Cached candles stay; only new times are taken from the incoming ones. */
  method MergeHistoryPreservingExisting(existing: seq<Candle>, incoming: seq<Candle>) returns (out: seq<Candle>)
    ensures Ascending(out) && ByTime(out) == ByTime(incoming) + ByTime(existing)
  {
    hide ByTime;
    NoCandles();
    if |existing| == 0 {
      out := NormalizeCandles(incoming);
      return;
    }
    if |incoming| == 0 {
      out := NormalizeCandles(existing);
      assert map[] + ByTime(existing) == ByTime(existing);
      return;
    }
    var existingTimes := CandleTimes(existing);
    var newCandles: seq<Candle> := [];
    for i := 0 to |incoming|
      invariant newCandles == Unseen(incoming[..i], existingTimes)
    {
      assert incoming[..i + 1][..i] == incoming[..i];
      if incoming[i].time !in existingTimes {
        newCandles := newCandles + [incoming[i]];
      }
    }
    assert incoming[..|incoming|] == incoming;
    UnseenByTime(incoming, existingTimes);
    out := MergeCandles(existing, newCandles);
    UnionPreservingLeft(ByTime(existing), ByTime(incoming));
  }

  lemma {:induction false} UnionPreservingLeft(m: map<int, Candle>, w: map<int, Candle>)
    ensures m + (w - m.Keys) == w + m
  {
  }

  function LatestTime(cs: seq<Candle>): (t: int)
    ensures t >= 0 && forall c <- cs :: c.time <= t
    ensures t > 0 ==> exists c <- cs :: c.time == t
  {
    if |cs| == 0 then 0
    else
      var t, c := LatestTime(cs[..|cs| - 1]), cs[|cs| - 1];
      assert cs == cs[..|cs| - 1] + [c];
      assert c in cs;
      if c.time > t then c.time else t
  }

  predicate ReachesFreshBar(m: HistoryMessage) {
    (if m.lastBarTime == 0 then LatestTime(m.candles) else m.lastBarTime) >= m.minimumFreshBarTime
  }

  /** An answer is taken at its word unless something says that it may be old. */
  predicate Conservative(m: HistoryMessage) {
    || m.refreshExhausted
    || m.stale == Some(true)
    || m.freshnessKnown == Some(false)
    || (m.freshnessKnown == Some(true) && (m.minimumFreshBarTime <= 0 || !ReachesFreshBar(m)))
  }

  method HistoryResponseNeedsConservativeMerge(m: HistoryMessage) returns (conservative: bool)
    ensures conservative == Conservative(m)
  {
    if m.refreshExhausted || (m.stale.Some? && m.stale.value) {
      return true;
    }
    if m.freshnessKnown.Some? && !m.freshnessKnown.value {
      return true;
    }
    if m.freshnessKnown.Some? && m.freshnessKnown.value {
      if m.minimumFreshBarTime <= 0 {
        return true;
      }
      var lastBar := m.lastBarTime;
      if lastBar == 0 {
        for i := 0 to |m.candles|
          invariant lastBar == LatestTime(m.candles[..i])
        {
          assert m.candles[..i + 1][..i] == m.candles[..i];
          if m.candles[i].time > lastBar {
            lastBar := m.candles[i].time;
          }
        }
        assert m.candles[..|m.candles|] == m.candles;
      }
      return lastBar < m.minimumFreshBarTime;
    }
    return false;
  }

  /** What one message makes of a cache, as a map. */
  function Merged(m: map<int, Candle>, message: HistoryMessage): map<int, Candle> {
    if Conservative(message) then ByTime(message.candles) + m else m + ByTime(message.candles)
  }

  method MergeMessage(cached: seq<Candle>, message: HistoryMessage) returns (out: seq<Candle>)
    ensures Ascending(out) && ByTime(out) == Merged(ByTime(cached), message)
  {
    hide ByTime;
    var conservative := HistoryResponseNeedsConservativeMerge(message);
    if conservative {
      out := MergeHistoryPreservingExisting(cached, message.candles);
    } else {
      out := MergeCandles(cached, message.candles);
    }
  }

  // ----- Windows and pages -----

  function ClampLimit(limit: int): (r: nat)
    ensures 1 <= r <= 5000 && (1 <= limit <= 5000 ==> r == limit)
  {
    if limit <= 0 then 1500 else if limit > 5000 then 5000 else limit
  }

  predicate Within(c: Candle, first: int, last: int) {
    first <= c.time <= last
  }

  function Between(cs: seq<Candle>, first: int, last: int): seq<Candle> {
    if |cs| == 0 then []
    else
      var c := cs[|cs| - 1];
      Between(cs[..|cs| - 1], first, last) + if Within(c, first, last) then [c] else []
  }

  lemma {:induction false} BetweenMembers(cs: seq<Candle>, first: int, last: int)
    ensures forall c :: c in Between(cs, first, last) <==> c in cs && Within(c, first, last)
  {
    if |cs| > 0 {
      BetweenMembers(cs[..|cs| - 1], first, last);
      assert cs == cs[..|cs| - 1] + [cs[|cs| - 1]];
    }
  }

  lemma {:induction false} BetweenAscends(cs: seq<Candle>, first: int, last: int)
    requires Ascending(cs)
    ensures Ascending(Between(cs, first, last))
  {
    if |cs| > 0 {
      var front := cs[..|cs| - 1];
      BetweenAscends(front, first, last);
      BetweenMembers(front, first, last);
      forall i | 0 <= i < |Between(front, first, last)|
        ensures Between(front, first, last)[i].time < cs[|cs| - 1].time
      {
        assert Between(front, first, last)[i] in front;
      }
    }
  }

  /** Coverage of one cursor: the page that MT5 answered it with. */
  datatype Coverage = Coverage(limit: nat, hasMore: Option<bool>, firstTime: int, lastTime: int)

  datatype Page = Page(candles: seq<Candle>, hasMore: Option<bool>)

  /** The newest `limit` cached candles of the covered range. */
  function PageOf(cached: seq<Candle>, coverage: Coverage, limit: int): Page {
    var covered, requested := Between(cached, coverage.firstTime, coverage.lastTime), ClampLimit(limit);
    Page(Newest(covered, requested), if |covered| > requested then Some(true) else coverage.hasMore)
  }

  method CachedHistoryPageCandles(cached: seq<Candle>, coverage: Coverage, limit: int) returns (page: Page)
    ensures page == PageOf(cached, coverage, limit)
  {
    var requested := ClampLimit(limit);
    var candles: seq<Candle> := [];
    for i := 0 to |cached|
      invariant candles == Between(cached[..i], coverage.firstTime, coverage.lastTime)
    {
      assert cached[..i + 1][..i] == cached[..i];
      if cached[i].time >= coverage.firstTime && cached[i].time <= coverage.lastTime {
        candles := candles + [cached[i]];
      }
    }
    assert cached[..|cached|] == cached;
    var hasMore := coverage.hasMore;
    if |candles| > requested {
      hasMore := Some(true);
      candles := candles[|candles| - requested..];
    }
    return Page(candles, hasMore);
  }

  function Before(cs: seq<Candle>, before: int): seq<Candle> {
    if |cs| == 0 then []
    else
      var c := cs[|cs| - 1];
      Before(cs[..|cs| - 1], before) + if before > 0 && c.time >= before then [] else [c]
  }

  lemma {:induction false} BeforeNext(cs: seq<Candle>, i: nat, before: int)
    requires i < |cs|
    ensures Before(cs[..i + 1], before) == Before(cs[..i], before) + if before > 0
            && cs[i].time >= before then [] else [cs[i]]
  {
    assert cs[..i + 1][..i] == cs[..i];
  }

  /** The newest `limit` candles before the cursor, or of all when there is none. */
  method LimitCandles(candles: seq<Candle>, limit: nat, before: int)
    returns (out: seq<Candle>, ghost normalized: seq<Candle>)
    ensures Ascending(normalized) && ByTime(normalized) == ByTime(candles)
    ensures out == Newest(Before(normalized, before), limit)
  {
    hide ByTime, Ascending, Before;
    var sorted := NormalizeCandles(candles);
    normalized := sorted;
    NothingBefore(before);
    if |candles| == 0 {
      NothingCached(sorted);
      return [], sorted;
    }
    out := [];
    assert sorted[..0] == [];
    for i := 0 to |sorted|
      invariant out == Before(sorted[..i], before)
    {
      BeforeNext(sorted, i, before);
      if !(before > 0 && sorted[i].time >= before) {
        out := out + [sorted[i]];
      }
    }
    assert sorted[..|sorted|] == sorted;
    if |out| > limit {
      out := out[|out| - limit..];
    }
  }

  lemma {:induction false} NothingBefore(before: int)
    ensures Before([], before) == []
  {
  }

  lemma {:induction false} NothingCached(cs: seq<Candle>)
    requires Ascending(cs) && ByTime(cs) == ByTime([])
    ensures cs == []
  {
  }

  const MAX_PAGES := 256

  type Pages = map<int, Coverage>

  lemma {:induction false} LeastExists(keys: set<int>)
    requires exists k :: k in keys
    ensures exists r :: r in keys && forall k <- keys :: r <= k
  {
    SmallestExists(keys);
    var r :| Least(r, keys);
  }

  function LeastOf(keys: set<int>): (r: int)
    requires exists k :: k in keys
    ensures r in keys && forall k <- keys :: r <= k
  {
    LeastExists(keys);
    var r :| r in keys && forall k <- keys :: r <= k;
    r
  }

  function WithoutLeast(pages: Pages): Pages {
    if exists k :: k in pages.Keys then pages - {LeastOf(pages.Keys)} else pages
  }

  /** A full table gives up its smallest cursor for a new one. */
  function Evicted(pages: Pages, before: int): Pages {
    if before !in pages && |pages| >= MAX_PAGES then WithoutLeast(pages) else pages
  }

  function CoverageOf(cs: seq<Candle>, limit: int, hasMore: Option<bool>): Coverage
    requires |cs| > 0
  {
    Coverage(ClampLimit(limit), hasMore, cs[0].time, cs[|cs| - 1].time)
  }

  /** What a page of ascending candles, loaded for a cursor, adds to the table. */
  function Recorded(pages: Pages, before: int, limit: int, cs: seq<Candle>, hasMore: Option<bool>): Pages {
    if before <= 0 || |cs| == 0 || cs[|cs| - 1].time >= before then pages
    else if before in pages && pages[before].limit > ClampLimit(limit) then pages
    else Evicted(pages, before)[before := CoverageOf(cs, limit, hasMore)]
  }

  method FarthestLeft(pages: Pages) returns (oldest: int, first: bool)
    ensures first == (pages.Keys == {})
    ensures !first ==> oldest in pages && forall cursor <- pages :: oldest <= cursor
  {
    oldest, first := 0, true;
    var rest := pages.Keys;
    while rest != {}
      invariant rest <= pages.Keys
      invariant first ==> rest == pages.Keys
      invariant !first ==> oldest in pages && forall cursor | cursor in pages && cursor !in rest :: oldest <= cursor
      decreases |rest|
    {
      ghost var some := SomeMember(rest);
      var cursor :| cursor in rest;
      if first || cursor < oldest {
        oldest, first := cursor, false;
      }
      rest := rest - {cursor};
    }
  }

  method EvictFarthestLeft(pages: Pages) returns (r: Pages)
    ensures r == WithoutLeast(pages)
  {
    var oldest, first := FarthestLeft(pages);
    if !first {
      ghost var some := SomeMember(pages.Keys);
    }
    r := if first then pages else pages - {oldest};
  }

  method RecordHistoryPage(pages: Pages, before: int, limit: int, candles: seq<Candle>, hasMore: Option<bool>)
    returns (r: Pages, ghost normalized: seq<Candle>)
    ensures Ascending(normalized) && ByTime(normalized) == ByTime(candles)
    ensures r == Recorded(pages, before, limit, normalized, hasMore)
  {
    hide ByTime, Ascending, WithoutLeast;
    var sorted := NormalizeCandles(candles);
    normalized := sorted;
    if before <= 0 || |sorted| == 0 || sorted[|sorted| - 1].time >= before {
      return pages, sorted;
    }
    var coverage := Coverage(ClampLimit(limit), hasMore, sorted[0].time, sorted[|sorted| - 1].time);
    if before in pages && pages[before].limit > coverage.limit {
      return pages, sorted;
    }
    r := pages;
    if before !in pages && |pages| >= MAX_PAGES {
      r := EvictFarthestLeft(pages);
    }
    r := r[before := coverage];
  }

  lemma {:induction false} PagesBounded(pages: Pages, before: int, limit: int, cs: seq<Candle>, hasMore: Option<bool>)
    requires |pages| <= MAX_PAGES
    ensures |Recorded(pages, before, limit, cs, hasMore)| <= MAX_PAGES
  {
    if pages.Keys != {} {
      var some := SomeMember(pages.Keys);
    }
  }

  /** A page for the cursor `before` covers exactly the cached candles from the first to the last time it was
      loaded with: they are served newest first cut, ascending, all before the cursor, and "more" is said
      whenever a cached candle of the range was cut off. */
  lemma {:induction false} ServedPage(cached: seq<Candle>, coverage: Coverage, before: int, limit: int)
    requires Ascending(cached) && coverage.lastTime < before
    ensures var page := PageOf(cached, coverage, limit);
            && Ascending(page.candles) && |page.candles| <= ClampLimit(limit)
            && (forall c <- page.candles :: c in cached && c.time < before)
            && (forall c <- cached :: Within(c, coverage.firstTime, coverage.lastTime) && c !in page.candles ==>
                  page.hasMore == Some(true) && |page.candles| == ClampLimit(limit) && forall d <- page.candles ::
                    c.time < d.time)
  {
    hide Between, Newest, Ascending;
    var covered, requested := Between(cached, coverage.firstTime, coverage.lastTime), ClampLimit(limit);
    BetweenAscends(cached, coverage.firstTime, coverage.lastTime);
    BetweenMembers(cached, coverage.firstTime, coverage.lastTime);
    NewestOf(covered, requested);
    forall c | c in cached && Within(c, coverage.firstTime, coverage.lastTime) && c !in Newest(covered, requested)
      ensures |covered| > requested && forall d <- Newest(covered, requested) :: c.time < d.time
    {
      CutOffIsOlder(covered, requested, c);
    }
  }

  lemma {:induction false} NewestOf(cs: seq<Candle>, limit: nat)
    requires Ascending(cs)
    ensures Ascending(Newest(cs, limit)) && |Newest(cs, limit)| == (if |cs| > limit then limit else |cs|)
    ensures forall c <- Newest(cs, limit) :: c in cs
  {
  }

  lemma {:induction false} CutOffIsOlder(cs: seq<Candle>, limit: nat, c: Candle)
    requires Ascending(cs) && c in cs && c !in Newest(cs, limit)
    ensures |cs| > limit && forall d <- Newest(cs, limit) :: c.time < d.time
  {
  }
}
