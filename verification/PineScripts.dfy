/** The value of a text in a script.  A text that is wholly a request.security() call is not parsed: its third
    argument is run over candles of another timeframe, where everything assigned so far is evaluated again.
    Every other text is read by the parser. */
module PineScripts {
  import opened Options
  import opened Sequences
  import opened PineNumbers
  import opened PineValues
  import opened Candles
  import opened PineExpressions
  import opened PineGrammar
  import opened PineCallTexts
  import opened PineAssignments
  import opened RequestSecurity
  import opened Timeframes
  import opened CandleAggregation
  import PineParser

  predicate Assigned(earlier: seq<Assignment>, name: string) {
    exists a <- earlier :: a.name == name
  }

  /** Fixed values carry over to another timeframe; everything assigned is evaluated again there. */
  function SecurityContext(ctx: Context, earlier: seq<Assignment>, buckets: seq<Candle>): (c: Context)
    requires ctx.Valid()
    ensures c.Valid() && c.candles == buckets
  {
    ctx.(candles := buckets,
         variables := map name | name in ctx.variables && !Assigned(earlier, name) && !Varies(ctx.variables[name]) ::
           ctx.variables[name])
  }

  function Assign(ctx: Context, name: string, v: Value): (c: Context)
    requires ctx.Valid() && Fits(v, ctx.Bars())
    ensures c.Valid() && c.candles == ctx.candles
  {
    ctx.(variables := ctx.variables[name := v])
  }

  // ----- The texts of a request and of an input -----

  const SECURITY := "request.security"

  datatype RequestText = BadRequest | RequestText(timeframe: Tokens, expression: Tokens)

  /** All three arguments must be there; the symbol is the chart's own. */
  function ReadRequest(body: Tokens): (r: RequestText)
    ensures r.RequestText? ==> |r.expression| <= |body| && (Eof !in body ==> Eof !in r.expression)
  {
    ArgumentWithin(body, "expression", 2);
    var args := Arguments(body);
    var timeframe, expression := RawArg(args, "timeframe", 1), RawArg(args, "expression", 2);
    if RawArg(args, "symbol", 0) == [] || timeframe == [] || expression == [] then BadRequest
    else RequestText(timeframe, expression)
  }

  predicate IsInputName(name: string) {
    name == "input" || ("input." < name && forall c <- name[6..] :: 'a' <= c <= 'z' || 'A' <= c <= 'Z' || c == '_')
  }

  /** A text that starts as a call of input() or one of its kinds. */
  predicate IsInput(ts: Tokens) {
    |ts| >= 2 && ts[0].IdentTok? && IsInputName(ts[0].text) && ts[1] == LParen
  }

  /** The default of an input call that is the whole text; empty when there is none. */
  function InputDefault(ts: Tokens): (r: Tokens)
    requires IsInput(ts)
    ensures |r| < |ts| && (Eof !in ts ==> Eof !in r)
  {
    match CallBody(ts, ts[0].text)
    case None => []
    case Some(body) =>
      ArgumentWithin(body, "defval", 0);
      RawArg(Arguments(body), "defval", 0)
  }

  // ----- Values -----

  function TextValue(ts: Tokens, earlier: seq<Assignment>, ctx: Context): (r: Option<Value>)
    requires ctx.Valid()
    ensures r.Some? ==> Fits(r.value, ctx.Bars())
    decreases |earlier|, |ts|, 0
  {
    match CallBody(ts, SECURITY)
    case None => EvalText(ts, ctx)
    case Some(body) => Request(body, earlier, ctx)
  }

  function Request(body: Tokens, earlier: seq<Assignment>, ctx: Context): (r: Option<Value>)
    requires ctx.Valid()
    ensures r.Some? ==> Fits(r.value, ctx.Bars())
    decreases |earlier|, |body|, 2
  {
    match ReadRequest(body)
    case BadRequest => None
    case RequestText(timeframe, expression) =>
      match MapCandles(ctx.candles, RequestedSeconds(timeframe))
      case Unmapped => None
      case Mapped(buckets, toBucket) =>
        if |buckets| == 0 then Some(Series(seq(|ctx.candles|, i => NaN)))
        else
          var v := WideValue(expression, earlier, SecurityContext(ctx, earlier, buckets));
          if v.None? then None else Some(Expand(v.value, toBucket, |buckets|))
  }

  /** The requested expression over the wider candles, once everything assigned has its value there. */
  function WideValue(expression: Tokens, earlier: seq<Assignment>, base: Context): (r: Option<Value>)
    requires base.Valid()
    ensures r.Some? ==> Fits(r.value, base.Bars())
    decreases |earlier|, |expression|, 1
  {
    var wide := Reassign(earlier, base);
    if wide.None? then None
    else
      var v := TextValue(expression, earlier, wide.value);
      match WarmupPattern(expression)
      case NoPattern => v
      case LaggedAverage(source, length) =>
        var s, l := TextValue(source, earlier, wide.value), TextValue(length, earlier, wide.value);
        if v.None? || s.None? || l.None? then None else Some(Filled(v.value, s.value, l.value, base.Bars()))
  }

  /** Missing values of a lagged average, taken from the completed buckets there are. */
  function Filled(v: Value, source: Value, length: Value, n: nat): (r: Value)
    requires Fits(v, n) && Fits(source, n)
    ensures Fits(r, n)
  {
    FillMissing(v, Series(WarmupSeries(ToSeries(source, n), Period(length))), n)
  }

  /** The assignments, evaluated one after the other. */
  function Reassign(earlier: seq<Assignment>, base: Context): (r: Option<Context>)
    requires base.Valid()
    ensures r.Some? ==> r.value.Valid() && r.value.candles == base.candles
    decreases |earlier|, 0, 0
  {
    if |earlier| == 0 then Some(base)
    else
      var before, a := Reassign(Front(earlier), base), Last(earlier);
      if before.None? then None
      else
        var v := AssignmentValue(a.name, a.text, Front(earlier), before.value);
        if v.None? then None else Some(Assign(before.value, a.name, v.value))
  }

  function SelfPoint(ts: Tokens, name: string, ctx: Context, out: seq<Num>, i: nat): Num
    requires ctx.Valid() && i < ctx.Bars()
    decreases 0, |ts|, 1
  {
    var v := TextValue(Substitute(ts, name), [], BarContext(name, SelfOffsets(ts, name), ctx, out, i));
    if v.None? then NaN else GetAt(v.value, 0)
  }

  function SelfSeries(ts: Tokens, name: string, ctx: Context, n: nat): (out: seq<Num>)
    requires ctx.Valid() && n <= ctx.Bars()
    ensures |out| == n
    decreases 0, |ts|, 2, n
  {
    if n == 0 then []
    else
      var out := SelfSeries(ts, name, ctx, n - 1);
      out + [SelfPoint(ts, name, ctx, out, n - 1)]
  }

  /** Every right-hand side but an input. */
  function PlainValue(name: string, ts: Tokens, earlier: seq<Assignment>, ctx: Context): (r: Option<Value>)
    requires ctx.Valid()
    ensures r.Some? ==> Fits(r.value, ctx.Bars())
    decreases |earlier|, |ts|, 3
  {
    if SelfOffsets(ts, name) == {} then TextValue(ts, earlier, ctx)
    else Some(Series(SelfSeries(ts, name, ctx, ctx.Bars())))
  }

  function AssignmentValue(name: string, ts: Tokens, earlier: seq<Assignment>, ctx: Context): (r: Option<Value>)
    requires ctx.Valid()
    ensures r.Some? ==> Fits(r.value, ctx.Bars())
    decreases |earlier|, |ts|, 4
  {
    if IsInput(ts) then
      if InputDefault(ts) == [] then Some(Number(ZERO)) else TextValue(InputDefault(ts), earlier, ctx)
    else
      match RecursiveAverage(ts, name)
      case NotAnAverage => PlainValue(name, ts, earlier, ctx)
      case Average(source, length) =>
        var s, l := TextValue(source, earlier, ctx), TextValue(length, earlier, ctx);
        if s.None? || l.None? then PlainValue(name, ts, earlier, ctx)
        else Some(Series(AverageSeries(ToSeries(s.value, ctx.Bars()), Period(l.value))))
  }

  // ----- The evaluation methods -----

  predicate AllProper(earlier: seq<Assignment>) {
    forall a <- earlier :: Proper(a.text)
  }

  lemma {:induction false} BucketsAscend(cs: seq<Candle>, seconds: Option<nat>)
    requires Ascending(cs)
    ensures MapCandles(cs, seconds).Mapped? ==> Ascending(MapCandles(cs, seconds).buckets)
  {
    if |cs| > 0 && seconds.Some? && seconds.value > 0 {
      AggregateAscends(cs, seconds.value);
    }
  }

  method EvaluateExpression(ts: Tokens, earlier: seq<Assignment>, ctx: Context) returns (r: Option<Value>)
    requires ctx.Valid() && Ascending(ctx.candles) && Proper(ts) && AllProper(earlier)
    ensures r == TextValue(ts, earlier, ctx)
    decreases |earlier|, |ts|, 0
  {
    hide Request, EvalText, Ascending;
    var body := FindCallBody(ts, SECURITY);
    if body.Some? {
      r := EvaluateRequestSecurity(body.value, earlier, ctx);
    } else {
      r := PineParser.EvaluateParsed(ts, ctx);
    }
  }

  method EvaluateRequestSecurity(body: Tokens, earlier: seq<Assignment>, ctx: Context) returns (r: Option<Value>)
    requires ctx.Valid() && Ascending(ctx.candles) && Proper(body) && AllProper(earlier)
    ensures r == Request(body, earlier, ctx)
    decreases |earlier|, |body|, 2
  {
    hide WideValue, MapCandles, Expand, Ascending, RawArg;
    var args := ParseCallArguments(body);
    var timeframe, expression := RawArg(args, "timeframe", 1), RawArg(args, "expression", 2);
    if RawArg(args, "symbol", 0) == [] || timeframe == [] || expression == [] {
      return None;
    }
    ghost var text := ReadRequest(body);
    assert text == RequestText(timeframe, expression);
    var m := AggregateCandlesForTimeframe(ctx.candles, RequestedSeconds(timeframe));
    if m.Unmapped? {
      return None;
    }
    BucketsAscend(ctx.candles, RequestedSeconds(timeframe));
    var n := |m.buckets|;
    if n == 0 {
      return Some(Series(seq(|ctx.candles|, i => NaN)));
    }
    var value := EvaluateWide(expression, earlier, SecurityContext(ctx, earlier, m.buckets));
    if value.None? {
      return None;
    }
    var out := ExpandSecurityValue(value.value, m.toBucket, n);
    return Some(out);
  }

  method EvaluateWide(expression: Tokens, earlier: seq<Assignment>, base: Context) returns (r: Option<Value>)
    requires base.Valid() && Ascending(base.candles) && Proper(expression) && AllProper(earlier)
    ensures r == WideValue(expression, earlier, base)
    decreases |earlier|, |expression|, 1
  {
    hide TextValue, FillMissing, WarmupSeries, WarmupPattern, Reassign, Ascending, Period;
    var wide := EvaluateDependencies(earlier, base);
    if wide.None? {
      return None;
    }
    var requested := EvaluateExpression(expression, earlier, wide.value);
    if requested.None? {
      return None;
    }
    var pattern := WarmupPattern(expression);
    if pattern.NoPattern? {
      return requested;
    }
    var source := EvaluateExpression(pattern.source, earlier, wide.value);
    if source.None? {
      return None;
    }
    var length := EvaluateExpression(pattern.length, earlier, wide.value);
    if length.None? {
      return None;
    }
    var n := |base.candles|;
    var fallback := AverageCompletedBuckets(ToSeries(source.value, n), Period(length.value));
    var value := FillMissingSecurityValue(requested.value, Series(fallback), n);
    return Some(value);
  }

  method EvaluateDependencies(earlier: seq<Assignment>, base: Context) returns (r: Option<Context>)
    requires base.Valid() && Ascending(base.candles) && AllProper(earlier)
    ensures r == Reassign(earlier, base)
    decreases |earlier|, 0, 0
  {
    hide AssignmentValue, Ascending;
    var wide := base;
    for i := 0 to |earlier|
      invariant wide.Valid() && wide.candles == base.candles
      invariant Reassign(earlier[..i], base) == Some(wide)
    {
      assert Front(earlier[..i + 1]) == earlier[..i];
      var value := EvaluateAssignmentValue(earlier[i].name, earlier[i].text, earlier[..i], wide);
      if value.None? {
        ReassignStops(earlier, i + 1, base);
        return None;
      }
      wide := Assign(wide, earlier[i].name, value.value);
    }
    assert earlier[..|earlier|] == earlier;
    return Some(wide);
  }

  /** One assignment that fails fails the request. */
  lemma {:induction false} ReassignStops(earlier: seq<Assignment>, i: nat, base: Context)
    requires base.Valid() && i <= |earlier| && Reassign(earlier[..i], base).None?
    ensures Reassign(earlier, base).None?
    decreases |earlier| - i
  {
    hide AssignmentValue;
    if i == |earlier| {
      assert earlier[..i] == earlier;
    } else {
      assert Front(earlier[..i + 1]) == earlier[..i];
      ReassignStops(earlier, i + 1, base);
    }
  }

  method EvaluateSelfReferentialAssignment(name: string, ts: Tokens, ctx: Context) returns (r: Option<Value>)
    requires ctx.Valid() && Proper(ts)
    ensures r == if SelfOffsets(ts, name) == {} then None else Some(Series(SelfSeries(ts, name, ctx, ctx.Bars())))
    decreases 0, |ts|, 2
  {
    hide TextValue, SelfOffsets, Substitute, BarContext, PlaceholderValues;
    var offsets, scalarExpression := FindSelfReferences(ts, name);
    if offsets == {} {
      return None;
    }
    var out: seq<Num> := [];
    for i := 0 to |ctx.candles|
      invariant out == SelfSeries(ts, name, ctx, i)
    {
      var evaluated := EvaluateExpression(scalarExpression, [], BarContext(name, offsets, ctx, out, i));
      if evaluated.None? {
        out := out + [NaN];
      } else {
        var point := GetAt(evaluated.value, 0);
        out := out + [if Usable(point) then point else NaN];
      }
    }
    return Some(Series(out));
  }

  method EvaluateAssignmentValue(name: string, ts: Tokens, earlier: seq<Assignment>, ctx: Context)
    returns (r: Option<Value>)
    requires ctx.Valid() && Ascending(ctx.candles) && Proper(ts) && AllProper(earlier)
    ensures r == AssignmentValue(name, ts, earlier, ctx)
    decreases |earlier|, |ts|, 4
  {
    hide TextValue, SelfSeries, AverageSeries, RecursiveAverage, Ascending, Period;
    if IsInput(ts) {
      var byDefault := InputDefault(ts);
      if byDefault == [] {
        return Some(Number(ZERO));
      }
      r := EvaluateExpression(byDefault, earlier, ctx);
      return;
    }
    var average := RecursiveAverage(ts, name);
    if average.Average? {
      var source := EvaluateExpression(average.source, earlier, ctx);
      var length := EvaluateExpression(average.length, earlier, ctx);
      if source.Some? && length.Some? {
        var out := RecursiveAverageSeries(ToSeries(source.value, |ctx.candles|), Period(length.value));
        return Some(Series(out));
      }
    }
    var self := EvaluateSelfReferentialAssignment(name, ts, ctx);
    if self.Some? {
      return self;
    }
    r := EvaluateExpression(ts, earlier, ctx);
  }

  // ----- What an assignment means -----

  /** A self-referential series solves its own recurrence: bar i is the text at bar i over the values before it. */
  lemma {:induction false} SelfSeriesSolves(ts: Tokens, name: string, ctx: Context, n: nat, i: nat)
    requires ctx.Valid() && i < n <= ctx.Bars()
    ensures SelfSeries(ts, name, ctx, n)[..i] == SelfSeries(ts, name, ctx, i)
    ensures SelfSeries(ts, name, ctx, n)[i] == SelfPoint(ts, name, ctx, SelfSeries(ts, name, ctx, n)[..i], i)
    decreases n
  {
    hide SelfPoint;
    if i < n - 1 {
      SelfSeriesSolves(ts, name, ctx, n - 1, i);
      var out := SelfSeries(ts, name, ctx, n - 1);
      assert (out + [SelfPoint(ts, name, ctx, out, n - 1)])[..i] == out[..i];
    }
  }
}
