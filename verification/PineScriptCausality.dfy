/** What two runs show alike when one sees candles the other does not have yet, or has otherwise: texts with
    requests of wider timeframes in them. */
module PineScriptCausality {
  import opened Options
  import opened Sequences
  import opened PineNumbers
  import opened PineValues
  import opened Candles
  import opened PineExpressions
  import opened PineCausality
  import opened PineGrammar
  import opened PineCallTexts
  import opened PineAssignments
  import opened RequestSecurity
  import opened Timeframes
  import opened PineScripts

  /** The second run has the bars that the first starts with, and the first s of them in full. */
  ghost predicate Follows(c1: Context, c2: Context, s: nat) {
    c1.Valid() && c2.Valid() && SharePast(c1, c2, s) && StartsAs(c2.candles, c1.candles)
  }

  // ----- Texts whose value does not depend on what comes after -----

  /** Cut after k bars, of which s are shared, the mapping keeps what those s bars see: something is visible
      to the last of them, it ends its bucket unless more bars follow it, and the cut does not leave a single
      wider candle, which the runtime treats apart. */
  predicate CutsCleanly(m: Mapping, k: nat, s: nat)
    requires m.Mapped? && 1 <= s <= k <= |m.toBucket|
  {
    && Seen(m.toBucket, s - 1) >= 1
    && (s < k || FinalInBucket(m.toBucket, s - 1))
    && (m.toBucket[k - 1] == 0 ==> |m.buckets| == 1)
  }

  /** A text whose values on the first s bars are the same in a run that ends after k bars. */
  ghost predicate Steady(ts: Tokens, earlier: seq<Assignment>, ctx: Context, k: nat, s: nat)
    requires ctx.Valid() && 1 <= s <= k <= ctx.Bars()
    decreases |earlier|, |ts|, 0
  {
    match CallBody(ts, SECURITY)
    case None => Read(ts).Some? ==> PerBar(Read(ts).value, ctx)
    case Some(body) => SteadyRequest(body, earlier, ctx, k, s)
  }

  ghost predicate SteadyRequest(body: Tokens, earlier: seq<Assignment>, ctx: Context, k: nat, s: nat)
    requires ctx.Valid() && 1 <= s <= k <= ctx.Bars()
    decreases |earlier|, |body|, 2
  {
    match ReadRequest(body)
    case BadRequest => true
    case RequestText(timeframe, expression) =>
      ViewBounds(ctx.candles, RequestedSeconds(timeframe), k, s);
      var m := MapCandles(ctx.candles, RequestedSeconds(timeframe));
      && CandleInterval(ctx.candles[..k]) == CandleInterval(ctx.candles)
      && (m.Mapped? ==>
            && CutsCleanly(m, k, s)
            && SteadyWide(expression, earlier, SecurityContext(ctx, earlier, m.buckets), m.toBucket[k - 1] + 1,
                          Seen(m.toBucket, s - 1)))
  }

  ghost predicate SteadyWide(expression: Tokens, earlier: seq<Assignment>, base: Context, k: nat, s: nat)
    requires base.Valid() && 1 <= s <= k <= base.Bars()
    decreases |earlier|, |expression|, 1
  {
    && SteadyAssignments(earlier, base, k, s)
    && var wide := Reassign(earlier, base);
       wide.Some? ==>
         && Steady(expression, earlier, wide.value, k, s)
         && var p := WarmupPattern(expression);
            p.LaggedAverage? ==>
              Steady(p.source, earlier, wide.value, k, s) && Steady(p.length, earlier, wide.value, k, s)
  }

  ghost predicate SteadyAssignments(earlier: seq<Assignment>, base: Context, k: nat, s: nat)
    requires base.Valid() && 1 <= s <= k <= base.Bars()
    decreases |earlier|, 0, 0
  {
    |earlier| > 0 ==>
      && SteadyAssignments(Front(earlier), base, k, s)
      && var before, a := Reassign(Front(earlier), base), Last(earlier);
         before.Some? ==> SteadyAssignment(a.name, a.text, Front(earlier), before.value, k, s)
  }

  /** A self-referential text needs nothing: it is evaluated one bar at a time. */
  ghost predicate SteadyAssignment(name: string, ts: Tokens, earlier: seq<Assignment>, ctx: Context, k: nat, s: nat)
    requires ctx.Valid() && 1 <= s <= k <= ctx.Bars()
    decreases |earlier|, |ts|, 4
  {
    if IsInput(ts) then InputDefault(ts) != [] ==> Steady(InputDefault(ts), earlier, ctx, k, s)
    else
      && (SelfOffsets(ts, name) == {} ==> Steady(ts, earlier, ctx, k, s))
      && var average := RecursiveAverage(ts, name);
         average.Average? ==> Steady(average.source, earlier, ctx, k, s) && Steady(average.length, earlier, ctx, k, s)
  }

  // ----- The theorem -----

  lemma {:induction false} ParsedAgree(ts: Tokens, c1: Context, c2: Context, s: nat)
    requires SharePast(c1, c2, s) && (Read(ts).Some? ==> PerBar(Read(ts).value, c1))
    ensures EvalText(ts, c1).Some? == EvalText(ts, c2).Some?
    ensures EvalText(ts, c1).Some? ==> Agree(EvalText(ts, c1).value, EvalText(ts, c2).value, s)
  {
    hide Eval, Read, PerBar, Agree;
    if Read(ts).Some? {
      NoLookAhead(Read(ts).value, c1, c2, s);
    }
  }

  /** Runs that share their first s bars show the same on them for every steady text. */
  lemma {:induction false} TextsAgree(ts: Tokens, earlier: seq<Assignment>, c1: Context, c2: Context, s: nat)
    requires Follows(c1, c2, s) && Steady(ts, earlier, c1, c2.Bars(), s)
    ensures TextValue(ts, earlier, c1).Some? == TextValue(ts, earlier, c2).Some?
    ensures TextValue(ts, earlier, c1).Some?
            ==> Agree(TextValue(ts, earlier, c1).value, TextValue(ts, earlier, c2).value, s)
    decreases |earlier|, |ts|, 0
  {
    hide EvalText, Request, SteadyRequest, SharePast, PerBar, Read, Agree;
    match CallBody(ts, SECURITY)
    case None => ParsedAgree(ts, c1, c2, s);
    case Some(body) => RequestsAgree(body, earlier, c1, c2, s);
  }

  lemma {:induction false} RequestsAgree(body: Tokens, earlier: seq<Assignment>, c1: Context, c2: Context, s: nat)
    requires Follows(c1, c2, s) && SteadyRequest(body, earlier, c1, c2.Bars(), s)
    ensures Request(body, earlier, c1).Some? == Request(body, earlier, c2).Some?
    ensures Request(body, earlier, c1).Some?
            ==> Agree(Request(body, earlier, c1).value, Request(body, earlier, c2).value, s)
    decreases |earlier|, |body|, 2
  {
    hide MapCandles, CandleInterval, WideValue, SteadyWide, Expand, ReadRequest, SecurityContext, Agree;
    var text := ReadRequest(body);
    if text.RequestText? {
      var seconds, k := RequestedSeconds(text.timeframe), c2.Bars();
      SameTimesInterval(c2.candles, c1.candles[..k]);
      ViewBounds(c1.candles, seconds, k, s);
      ViewsAgree(c1.candles, c2.candles, seconds, s);
      var m, w := MapCandles(c1.candles, seconds), MapCandles(c2.candles, seconds);
      if m.Mapped? {
        var b1, b2 := SecurityContext(c1, earlier, m.buckets), SecurityContext(c2, earlier, w.buckets);
        var seen := Seen(m.toBucket, s - 1);
        SharedValuesAreFixed(c1, c2, s);
        SecurityContextsShare(c1, c2, earlier, m.buckets, w.buckets, seen);
        WideValuesAgree(text.expression, earlier, b1, b2, seen);
        if WideValue(text.expression, earlier, b1).Some? {
          ExpandsAgree(WideValue(text.expression, earlier, b1).value, WideValue(text.expression, earlier, b2).value, m,
                       w, k, s);
        }
      }
    }
  }

  /** The values that carry over to another timeframe are the same. */
  ghost predicate SameFixedValues(c1: Context, c2: Context) {
    && c1.constants == c2.constants && c1.print_ == c2.print_
    && c1.variables.Keys == c2.variables.Keys
    && forall name <- c1.variables :: Varies(c1.variables[name]) == Varies(c2.variables[name])
         && (!Varies(c1.variables[name]) ==> c1.variables[name] == c2.variables[name])
  }

  lemma {:induction false} SharedValuesAreFixed(c1: Context, c2: Context, s: nat)
    requires SharePast(c1, c2, s)
    ensures SameFixedValues(c1, c2)
  {
  }

  lemma {:induction false} SecurityContextsShare(c1: Context, c2: Context, earlier: seq<Assignment>, b1: seq<Candle>,
          b2: seq<Candle>, seen: nat)
    requires c1.Valid() && c2.Valid() && SameFixedValues(c1, c2) && StartsAs(b2, b1)
    requires 1 <= seen <= |b2| && b1[..seen] == b2[..seen] && (|b2| == 1 ==> |b1| == 1)
    ensures Follows(SecurityContext(c1, earlier, b1), SecurityContext(c2, earlier, b2), seen)
  {
    var d1, d2 := SecurityContext(c1, earlier, b1), SecurityContext(c2, earlier, b2);
    forall name
      ensures name in d1.variables <==> name in d2.variables
      ensures name in d1.variables ==> Agree(d1.variables[name], d2.variables[name], seen)
    {
    }
    assert d1.variables.Keys == d2.variables.Keys;
  }

  lemma {:induction false} ExpandsAgree(v1: Value, v2: Value, m: Mapping, w: Mapping, k: nat, s: nat)
    requires SeeAlike(m, w, k, s) && Seen(m.toBucket, s - 1) >= 1
    requires Fits(v1, |m.buckets|) && Fits(v2, |w.buckets|) && Agree(v1, v2, Seen(m.toBucket, s - 1))
    ensures Agree(Expand(v1, m.toBucket, |m.buckets|), Expand(v2, w.toBucket, |w.buckets|), s)
  {
    var seen, r1, r2 := Seen(m.toBucket, s - 1), Expand(v1, m.toBucket, |m.buckets|),
        Expand(v2, w.toBucket, |w.buckets|);
    AgreePoints(v1, v2, seen);
    if Colored(v1) {
      forall i | 0 <= i < s
        ensures r1.colors[i] == r2.colors[i]
      {
        assert Seen(w.toBucket, i) == Seen(m.toBucket, i) <= seen;
      }
      assert r1.colors[..s] == r2.colors[..s];
    } else {
      forall i | 0 <= i < s
        ensures r1.series[i] == r2.series[i]
      {
        assert Seen(w.toBucket, i) == Seen(m.toBucket, i) <= seen;
      }
      SeriesAgree(r1.series, r2.series, s);
    }
  }

  lemma {:induction false} WideValuesAgree(expression: Tokens, earlier: seq<Assignment>, b1: Context, b2: Context,
          s: nat)
    requires Follows(b1, b2, s) && SteadyWide(expression, earlier, b1, b2.Bars(), s)
    ensures WideValue(expression, earlier, b1).Some? == WideValue(expression, earlier, b2).Some?
    ensures WideValue(expression, earlier, b1).Some?
            ==> Agree(WideValue(expression, earlier, b1).value, WideValue(expression, earlier, b2).value, s)
    decreases |earlier|, |expression|, 1
  {
    hide TextValue, Steady, SteadyAssignments, Reassign, WarmupPattern, Filled, Agree, SharePast, StartsAs;
    DependenciesAgree(earlier, b1, b2, s);
    if Reassign(earlier, b1).Some? {
      var d1, d2 := Reassign(earlier, b1).value, Reassign(earlier, b2).value;
      TextsAgree(expression, earlier, d1, d2, s);
      var p := WarmupPattern(expression);
      if p.LaggedAverage? {
        TextsAgree(p.source, earlier, d1, d2, s);
        TextsAgree(p.length, earlier, d1, d2, s);
        var v1, s1, l1 := TextValue(expression, earlier, d1), TextValue(p.source, earlier, d1),
            TextValue(p.length, earlier, d1);
        if v1.Some? && s1.Some? && l1.Some? {
          SharedBounds(b1, b2, s);
          FilledAgree(v1.value, TextValue(expression, earlier, d2).value, s1.value,
                      TextValue(p.source, earlier, d2).value,
                      l1.value, TextValue(p.length, earlier, d2).value, s, b1.Bars(), b2.Bars());
        }
      }
    }
  }

  lemma {:induction false} SharedBounds(c1: Context, c2: Context, s: nat)
    requires SharePast(c1, c2, s)
    ensures 1 <= s <= c1.Bars() && s <= c2.Bars()
  {
  }

  lemma {:induction false} FilledAgree(v1: Value, v2: Value, s1: Value, s2: Value, l1: Value, l2: Value, s: nat,
          n1: nat, n2: nat)
    requires 1 <= s <= n1 && s <= n2
    requires Fits(v1, n1) && Fits(v2, n2) && Fits(s1, n1) && Fits(s2, n2)
    requires Agree(v1, v2, s) && Agree(s1, s2, s) && Agree(l1, l2, s)
    ensures Agree(Filled(v1, s1, l1, n1), Filled(v2, s2, l2, n2), s)
  {
    PeriodAgree(l1, l2, s);
    ToSeriesAgree(s1, s2, s, n1, n2);
    var f, g := WarmupSeries(ToSeries(s1, n1), Period(l1)), WarmupSeries(ToSeries(s2, n2), Period(l2));
    WarmupAgree(ToSeries(s1, n1), ToSeries(s2, n2), Period(l1), s);
    FillAgree(v1, v2, f, g, s, n1, n2);
  }

  lemma {:induction false} WarmupAgree(a: seq<Num>, b: seq<Num>, length: nat, s: nat)
    requires s <= |a| && s <= |b| && a[..s] == b[..s]
    ensures WarmupSeries(a, length)[..s] == WarmupSeries(b, length)[..s]
  {
    forall i | 0 <= i < s
      ensures WarmupSeries(a, length)[i] == WarmupSeries(b, length)[i]
    {
      assert a[..i] == a[..s][..i] == b[..s][..i] == b[..i];
    }
  }

  lemma {:induction false} FillAgree(v: Value, w: Value, f: seq<Num>, g: seq<Num>, s: nat, n1: nat, n2: nat)
    requires Fits(v, n1) && Fits(w, n2) && |f| == n1 && |g| == n2 && s <= n1 && s <= n2
    requires Agree(v, w, s) && f[..s] == g[..s]
    ensures Agree(FillMissing(v, Series(f), n1), FillMissing(w, Series(g), n2), s)
  {
    if v.Number? || v.Series? {
      ToSeriesAgree(v, w, s, n1, n2);
      var r, q := FillMissing(v, Series(f), n1).series, FillMissing(w, Series(g), n2).series;
      forall i | 0 <= i < s
        ensures r[i] == q[i]
      {
        assert ToSeries(v, n1)[..s][i] == ToSeries(w, n2)[..s][i];
        assert f[..s][i] == g[..s][i];
      }
      SeriesAgree(r, q, s);
    }
  }

  lemma {:induction false} DependenciesAgree(earlier: seq<Assignment>, b1: Context, b2: Context, s: nat)
    requires Follows(b1, b2, s) && SteadyAssignments(earlier, b1, b2.Bars(), s)
    ensures Reassign(earlier, b1).Some? == Reassign(earlier, b2).Some?
    ensures Reassign(earlier, b1).Some? ==> Follows(Reassign(earlier, b1).value, Reassign(earlier, b2).value, s)
    decreases |earlier|, 0, 0
  {
    hide AssignmentValue, SteadyAssignment, Agree, SharePast, StartsAs;
    if |earlier| > 0 {
      var a := Last(earlier);
      DependenciesAgree(Front(earlier), b1, b2, s);
      if Reassign(Front(earlier), b1).Some? {
        var d1, d2 := Reassign(Front(earlier), b1).value, Reassign(Front(earlier), b2).value;
        AssignmentsAgree(a.name, a.text, Front(earlier), d1, d2, s);
        if AssignmentValue(a.name, a.text, Front(earlier), d1).Some? {
          AssignedFollows(d1, d2, a.name, AssignmentValue(a.name, a.text, Front(earlier), d1).value,
                          AssignmentValue(a.name, a.text, Front(earlier), d2).value, s);
        }
      }
    }
  }

  lemma {:induction false} AssignedFollows(c1: Context, c2: Context, name: string, v1: Value, v2: Value, s: nat)
    requires Follows(c1, c2, s) && Fits(v1, c1.Bars()) && Fits(v2, c2.Bars()) && Agree(v1, v2, s)
    ensures Follows(Assign(c1, name, v1), Assign(c2, name, v2), s)
  {
  }

  /** A self-referential series never looks ahead, whatever names it reads. */
  lemma {:induction false} SelfSeriesAgree(ts: Tokens, name: string, c1: Context, c2: Context, n: nat, s: nat)
    requires SharePast(c1, c2, s) && n <= s
    ensures SelfSeries(ts, name, c1, n) == SelfSeries(ts, name, c2, n)
  {
    hide TextValue, BarContext;
    if n > 0 {
      SelfSeriesAgree(ts, name, c1, c2, n - 1, s);
      BarContextsEqual(name, SelfOffsets(ts, name), c1, c2, SelfSeries(ts, name, c1, n - 1), n - 1, s);
    }
  }

  lemma {:induction false} SelfSeriesPrefix(ts: Tokens, name: string, ctx: Context, n: nat, s: nat)
    requires ctx.Valid() && s <= n <= ctx.Bars()
    ensures SelfSeries(ts, name, ctx, n)[..s] == SelfSeries(ts, name, ctx, s)
  {
    hide SelfSeries, SelfPoint;
    if s < n {
      SelfSeriesSolves(ts, name, ctx, n, s);
    } else {
      assert SelfSeries(ts, name, ctx, n)[..n] == SelfSeries(ts, name, ctx, n);
    }
  }

  lemma {:induction false} PlainValuesAgree(name: string, ts: Tokens, earlier: seq<Assignment>, c1: Context,
          c2: Context, s: nat)
    requires Follows(c1, c2, s) && (SelfOffsets(ts, name) == {} ==> Steady(ts, earlier, c1, c2.Bars(), s))
    ensures PlainValue(name, ts, earlier, c1).Some? == PlainValue(name, ts, earlier, c2).Some?
    ensures PlainValue(name, ts, earlier, c1).Some?
            ==> Agree(PlainValue(name, ts, earlier, c1).value, PlainValue(name, ts, earlier, c2).value, s)
    decreases |earlier|, |ts|, 3
  {
    hide TextValue, Steady, SelfSeries, SelfOffsets;
    if SelfOffsets(ts, name) == {} {
      TextsAgree(ts, earlier, c1, c2, s);
    } else {
      SelfSeriesAgree(ts, name, c1, c2, s, s);
      SelfSeriesPrefix(ts, name, c1, c1.Bars(), s);
      SelfSeriesPrefix(ts, name, c2, c2.Bars(), s);
    }
  }

  lemma {:induction false} AssignmentsAgree(name: string, ts: Tokens, earlier: seq<Assignment>, c1: Context,
          c2: Context, s: nat)
    requires Follows(c1, c2, s) && SteadyAssignment(name, ts, earlier, c1, c2.Bars(), s)
    ensures AssignmentValue(name, ts, earlier, c1).Some? == AssignmentValue(name, ts, earlier, c2).Some?
    ensures AssignmentValue(name, ts, earlier, c1).Some? ==>
              Agree(AssignmentValue(name, ts, earlier, c1).value, AssignmentValue(name, ts, earlier, c2).value, s)
    decreases |earlier|, |ts|, 4
  {
    hide TextValue, Steady, PlainValue, AverageSeries, RecursiveAverage, SelfOffsets, Agree, SharePast, StartsAs,
         Period, ToSeries, IsInput;
    if IsInput(ts) {
      if InputDefault(ts) != [] {
        TextsAgree(InputDefault(ts), earlier, c1, c2, s);
      } else {
        SameNumber(Number(ZERO), s);
      }
    } else {
      PlainValuesAgree(name, ts, earlier, c1, c2, s);
      var average := RecursiveAverage(ts, name);
      if average.Average? {
        TextsAgree(average.source, earlier, c1, c2, s);
        TextsAgree(average.length, earlier, c1, c2, s);
        var v1, l1 := TextValue(average.source, earlier, c1), TextValue(average.length, earlier, c1);
        if v1.Some? && l1.Some? {
          SharedBounds(c1, c2, s);
          AveragesAgree(v1.value, TextValue(average.source, earlier, c2).value, l1.value,
                        TextValue(average.length, earlier, c2).value,
                        s, c1.Bars(), c2.Bars());
        }
      }
    }
  }

  lemma {:induction false} SameNumber(v: Value, s: nat)
    requires v.Number?
    ensures Agree(v, v, s)
  {
  }

  lemma {:induction false} AveragesAgree(v1: Value, v2: Value, l1: Value, l2: Value, s: nat, n1: nat, n2: nat)
    requires 1 <= s <= n1 && s <= n2 && Fits(v1, n1) && Fits(v2, n2) && Agree(v1, v2, s) && Agree(l1, l2, s)
    ensures Agree(Series(AverageSeries(ToSeries(v1, n1), Period(l1))),
                  Series(AverageSeries(ToSeries(v2, n2), Period(l2))), s)
  {
    PeriodAgree(l1, l2, s);
    ToSeriesAgree(v1, v2, s, n1, n2);
    var length := Period(l1);
    HistoryWiseAgree(ToSeries(v1, n1), ToSeries(v2, n2), h => AveragePoint(h, length), s);
  }

  // ----- No future prices -----

  /** Over the wider candles, everything is steady for what bar i sees. */
  ghost predicate SteadyVisible(expression: Tokens, seconds: Option<nat>, earlier: seq<Assignment>, ctx: Context,
          k: nat, i: nat)
    requires ctx.Valid() && i < k <= ctx.Bars()
  {
    ViewBounds(ctx.candles, seconds, k, i + 1);
    var m := MapCandles(ctx.candles, seconds);
    m.Mapped? && Seen(m.toBucket, i) >= 1 ==>
      SteadyWide(expression, earlier, SecurityContext(ctx, earlier, m.buckets), m.toBucket[k - 1] + 1,
                 Seen(m.toBucket, i))
  }

  /** Inside the request, everything is steady for what bar i sees. */
  ghost predicate SteadyInside(body: Tokens, earlier: seq<Assignment>, ctx: Context, k: nat, i: nat)
    requires ctx.Valid() && i < k <= ctx.Bars()
  {
    match ReadRequest(body)
    case BadRequest => true
    case RequestText(timeframe, expression) => SteadyVisible(expression, RequestedSeconds(timeframe), earlier, ctx, k,
        i)
  }

  /** The bucket that bar i sees, if its request is understood. */
  function VisibleTo(body: Tokens, ctx: Context, i: nat): int
    requires ctx.Valid() && i < ctx.Bars()
  {
    match ReadRequest(body)
    case BadRequest => -1
    case RequestText(timeframe, _) =>
      ViewBounds(ctx.candles, RequestedSeconds(timeframe), i + 1, i + 1);
      match MapCandles(ctx.candles, RequestedSeconds(timeframe))
      case Unmapped => -1
      case Mapped(_, toBucket) => SecurityVisibleBucket(toBucket, i)
  }

  /** What a request shows at bar i does not depend on any price or volume after bar i. */
  lemma {:induction false} SecurityReadsNoFuture(body: Tokens, earlier: seq<Assignment>, c1: Context, c2: Context,
          i: nat)
    requires c1.Valid() && c2.Valid() && SameFixedValues(c1, c2)
    requires SameTimes(c1.candles, c2.candles) && i < c1.Bars() && c1.candles[..i + 1] == c2.candles[..i + 1]
    requires SteadyInside(body, earlier, c1, c1.Bars(), i)
    ensures var r1, r2 := Request(body, earlier, c1), Request(body, earlier, c2);
            r1.Some? && r2.Some? ==>
              GetAt(r1.value, i) == GetAt(r2.value, i) && ColorAt(r1.value, i) == ColorAt(r2.value, i)
    ensures VisibleTo(body, c1, i) >= 0 ==> Request(body, earlier, c1).Some? == Request(body, earlier, c2).Some?
  {
    hide MapCandles, CandleInterval, WideValue, SteadyWide, Expand, ReadRequest, SecurityContext, Agree;
    var text := ReadRequest(body);
    if text.RequestText? {
      var seconds, n := RequestedSeconds(text.timeframe), c1.Bars();
      SameTimesInterval(c1.candles, c2.candles);
      assert c1.candles[..n] == c1.candles;
      ViewBounds(c1.candles, seconds, n, i + 1);
      ViewsAgree(c1.candles, c2.candles, seconds, i + 1);
      var m, w := MapCandles(c1.candles, seconds), MapCandles(c2.candles, seconds);
      if m.Mapped? {
        var b1, b2 := SecurityContext(c1, earlier, m.buckets), SecurityContext(c2, earlier, w.buckets);
        var seen := Seen(m.toBucket, i);
        if seen >= 1 {
          LastBucketIsLast(c1.candles, seconds);
          SecurityContextsShare(c1, c2, earlier, m.buckets, w.buckets, seen);
          WideValuesAgree(text.expression, earlier, b1, b2, seen);
        }
        var v1, v2 := WideValue(text.expression, earlier, b1), WideValue(text.expression, earlier, b2);
        if v1.Some? && v2.Some? {
          ShownAgrees(v1.value, v2.value, m, w, i);
        }
      }
    }
  }

  lemma {:induction false} ShownAgrees(v1: Value, v2: Value, m: Mapping, w: Mapping, i: nat)
    requires m.Mapped? && w.Mapped? && i < |m.toBucket| && i < |w.toBucket|
             && 0 <= Seen(m.toBucket, i) == Seen(w.toBucket, i)
    requires Seen(m.toBucket, i) <= |m.buckets| && Seen(m.toBucket, i) <= |w.buckets|
    requires Fits(v1, |m.buckets|) && Fits(v2, |w.buckets|)
    requires Seen(m.toBucket, i) >= 1 ==> Agree(v1, v2, Seen(m.toBucket, i))
    ensures GetAt(Expand(v1, m.toBucket, |m.buckets|), i) == GetAt(Expand(v2, w.toBucket, |w.buckets|), i)
    ensures ColorAt(Expand(v1, m.toBucket, |m.buckets|), i) == ColorAt(Expand(v2, w.toBucket, |w.buckets|), i)
  {
    if Seen(m.toBucket, i) >= 1 {
      AgreePoint(v1, v2, Seen(m.toBucket, i), Seen(m.toBucket, i) - 1);
    }
  }

  // ----- A run that ends earlier -----

  /** A request in a run that ends after k bars: its bars before the last show what the full run shows, and the
      last one, which sees its own bucket as far as it goes, does so exactly when that bucket ends there or the
      bucket before it shows the same. */
  lemma {:induction false} RequestOfCutWhen(body: Tokens, earlier: seq<Assignment>, ctx: Context, k: nat, m: Mapping,
          w: Mapping)
    requires ctx.Valid() && 2 <= k <= ctx.Bars() && ReadRequest(body).RequestText?
    requires CandleInterval(ctx.candles[..k]) == CandleInterval(ctx.candles)
    requires m == MapCandles(ctx.candles, RequestedSeconds(ReadRequest(body).timeframe)) && m.Mapped?
    requires w == MapCandles(ctx.candles[..k], RequestedSeconds(ReadRequest(body).timeframe)) && w.Mapped?
    requires |m.toBucket| == ctx.Bars() && Seen(m.toBucket, k - 1) >= 1 && (m.toBucket[k - 1] == 0 ==> |m.buckets| == 1)
    requires SteadyInside(body, earlier, ctx, k, k - 1)
    ensures var cut := CutContext(ctx, k);
            var r1, r2 := Request(body, earlier, ctx), Request(body, earlier, cut);
            var v1 := WideValue(ReadRequest(body).expression, earlier, SecurityContext(ctx, earlier, m.buckets));
            var v2 := WideValue(ReadRequest(body).expression, earlier, SecurityContext(cut, earlier, w.buckets));
            && r1.Some? == r2.Some? == v1.Some? == v2.Some?
            && (r1.Some? ==>
                  && (forall i | 0 <= i < k - 1 ::
                      GetAt(r1.value, i) == GetAt(r2.value, i) && ColorAt(r1.value, i) == ColorAt(r2.value, i))
                  && (GetAt(r1.value, k - 1) == GetAt(r2.value, k - 1) <==>
                        FinalInBucket(m.toBucket, k - 1)
                        || GetAt(v1.value, m.toBucket[k - 1] - 1) == GetAt(v2.value, m.toBucket[k - 1]))
                  && (ColorAt(r1.value, k - 1) == ColorAt(r2.value, k - 1) <==>
                        FinalInBucket(m.toBucket, k - 1)
                        || ColorAt(v1.value, m.toBucket[k - 1] - 1) == ColorAt(v2.value, m.toBucket[k - 1])))
  {
    hide MapCandles, CandleInterval, WideValue, SteadyWide, ReadRequest, SecurityContext, Expand, Agree;
    var cut, text := CutContext(ctx, k), ReadRequest(body);
    var seconds, s := RequestedSeconds(text.timeframe), if FinalInBucket(m.toBucket, k - 1) then k else k - 1;
    CutFollows(ctx, k, s);
    SeenStays(ctx.candles, seconds, k - 1);
    assert SteadyRequest(body, earlier, ctx, k, s);
    RequestsAgree(body, earlier, ctx, cut, s);
    LastBucketIsLast(cut.candles, seconds);
    ViewsAgree(ctx.candles, cut.candles, seconds, s);
    var r1, r2 := Request(body, earlier, ctx), Request(body, earlier, cut);
    if r1.Some? {
      AgreePoints(r1.value, r2.value, s);
      var v1 := WideValue(text.expression, earlier, SecurityContext(ctx, earlier, m.buckets)).value;
      var v2 := WideValue(text.expression, earlier, SecurityContext(cut, earlier, w.buckets)).value;
      ShownIs(v1, m, k - 1);
      ShownIs(v2, w, k - 1);
    }
  }

  lemma {:induction false} CutFollows(ctx: Context, k: nat, s: nat)
    requires ctx.Valid() && 2 <= k <= ctx.Bars() && 1 <= s <= k
    ensures Follows(ctx, CutContext(ctx, k), s)
  {
  }

  lemma {:induction false} ShownIs(v: Value, m: Mapping, i: nat)
    requires m.Mapped? && i < |m.toBucket| && 1 <= Seen(m.toBucket, i) <= |m.buckets| && Fits(v, |m.buckets|)
    ensures GetAt(Expand(v, m.toBucket, |m.buckets|), i) == GetAt(v, Seen(m.toBucket, i) - 1)
    ensures ColorAt(Expand(v, m.toBucket, |m.buckets|), i) == ColorAt(v, Seen(m.toBucket, i) - 1)
  {
  }

  const TIME: Tokens := [IdentTok("time")]

  lemma {:induction false} TimeReads()
    ensures Read(TIME) == Some(Name("time")) && CallBody(TIME, SECURITY) == None && WarmupPattern(TIME) == NoPattern
  {
    NameReads("time");
    assert BeforeLag(TIME) == None;
  }

  lemma {:induction false} TimeOfBars(ctx: Context)
    requires ctx.Valid() && "time" !in ctx.variables && "time" !in ctx.constants
    ensures PerBar(Name("time"), ctx) && Eval(Name("time"), ctx) == Some(Series(SourceSeries(ctx.candles, Time)))
  {
    hide Apply, FunctionName;
  }

  lemma {:induction false} TimeIsSteady(base: Context, k: nat, s: nat)
    requires base.Valid() && 1 <= s <= k <= base.Bars()
    requires "time" !in base.variables && "time" !in base.constants
    ensures SteadyWide(TIME, [], base, k, s)
    ensures WideValue(TIME, [], base) == Some(Series(SourceSeries(base.candles, Time)))
  {
    hide Read, Eval, CallBody, WarmupPattern, PerBar;
    TimeReads();
    TimeOfBars(base);
    assert Reassign([], base) == Some(base);
  }

  /** Nothing less than the end of its bucket will do for a request of `time`. */
  lemma {:induction false} TimeRequestOfCutWhen(body: Tokens, ctx: Context, k: nat, m: Mapping, w: Mapping)
    requires ctx.Valid() && Ascending(ctx.candles) && 2 <= k <= ctx.Bars()
    requires "time" !in ctx.variables && "time" !in ctx.constants
    requires ReadRequest(body).RequestText? && ReadRequest(body).expression == TIME
    requires CandleInterval(ctx.candles[..k]) == CandleInterval(ctx.candles)
    requires m == MapCandles(ctx.candles, RequestedSeconds(ReadRequest(body).timeframe)) && m.Mapped?
    requires w == MapCandles(ctx.candles[..k], RequestedSeconds(ReadRequest(body).timeframe)) && w.Mapped?
    requires |m.toBucket| == ctx.Bars() && Seen(m.toBucket, k - 1) >= 1 && (m.toBucket[k - 1] == 0 ==> |m.buckets| == 1)
    ensures var r1, r2 := Request(body, [], ctx), Request(body, [], CutContext(ctx, k));
            && r1.Some? && r2.Some?
            && (GetAt(r1.value, k - 1) == GetAt(r2.value, k - 1) <==> FinalInBucket(m.toBucket, k - 1))
  {
    hide MapCandles, CandleInterval, WideValue, SteadyWide, ReadRequest, Expand, Request;
    var cut, seconds := CutContext(ctx, k), RequestedSeconds(ReadRequest(body).timeframe);
    var b1, b2 := SecurityContext(ctx, [], m.buckets), SecurityContext(cut, [], w.buckets);
    ViewBounds(ctx.candles, seconds, k, k);
    LastBucketIsLast(cut.candles, seconds);
    TimeIsSteady(b1, m.toBucket[k - 1] + 1, Seen(m.toBucket, k - 1));
    SeenStays(ctx.candles, seconds, k - 1);
    ViewsAgree(ctx.candles, cut.candles, seconds, k - 1);
    TimeIsSteady(b2, |w.buckets|, 1);
    RequestOfCutWhen(body, [], ctx, k, m, w);
    BucketsAscend(ctx.candles, seconds);
    var b := m.toBucket[k - 1];
    if !FinalInBucket(m.toBucket, k - 1) {
      assert m.buckets[b - 1].time < m.buckets[b].time == w.buckets[b].time;
    }
  }
}
