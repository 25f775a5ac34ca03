/** Replay: a script is run again on the candles up to a cutoff, and its points are clipped there. */
module ReplayCutoff {
  import opened Options
  import opened Reals
  import opened PineNumbers
  import opened PineValues
  import opened Candles
  import opened PineExpressions
  import opened PineCausality
  import opened PineGrammar
  import opened PineBlocks
  import opened PineReading
  import opened RequestSecurity
  import opened PineScripts
  import opened PineScriptCausality
  import opened CandleMaps

  // ----- The candles of a run -----

  /** A candle as received: any field may be unusable. */
  datatype RawCandle = RawCandle(time: int, open: Num, high: Num, low: Num, close: Num, volume: Num)

  predicate Acceptable(c: RawCandle) {
    c.time > 0 && Usable(c.open) && Usable(c.high) && Usable(c.low) && Usable(c.close) && Usable(c.volume)
  }

  function ToCandle(c: RawCandle): Candle
    requires Acceptable(c)
  {
    Candle(c.time, c.open.value, c.high.value, c.low.value, c.close.value, c.volume.value)
  }

  function Accepted(raw: seq<RawCandle>): seq<Candle> {
    if |raw| == 0 then []
    else
      var c := raw[|raw| - 1];
      Accepted(raw[..|raw| - 1]) + if Acceptable(c) then [ToCandle(c)] else []
  }

  /** Ascending by time, the last acceptable candle of each time. */
  method NormalizeRuntimeCandles(candles: seq<RawCandle>) returns (out: seq<Candle>)
    ensures Ascending(out) && ByTime(out) == ByTime(Accepted(candles))
  {
    hide ByTime, ToCandle, Acceptable;
    var byTime: map<int, Candle> := map[];
    NoCandles();
    for i := 0 to |candles|
      invariant byTime == ByTime(Accepted(candles[..i]))
    {
      assert candles[..i + 1][..i] == candles[..i];
      assert Accepted(candles[..i]) + [] == Accepted(candles[..i]);
      if Acceptable(candles[i]) {
        var c := ToCandle(candles[i]);
        ByTimeSnoc(Accepted(candles[..i]), c);
        byTime := byTime[c.time := c];
      }
    }
    assert candles[..|candles|] == candles;
    out := Timeline(byTime);
  }

  function Through(cs: seq<Candle>, cutoff: int): seq<Candle> {
    if |cs| == 0 then []
    else Through(cs[..|cs| - 1], cutoff) + if cs[|cs| - 1].time <= cutoff then [cs[|cs| - 1]] else []
  }

  lemma {:induction false} ThroughIsPrefix(cs: seq<Candle>, cutoff: int, m: nat)
    requires Ascending(cs) && m <= |cs|
    requires forall i | 0 <= i < m :: cs[i].time <= cutoff
    requires forall i | m <= i < |cs| :: cs[i].time > cutoff
    ensures Through(cs, cutoff) == cs[..m]
    decreases |cs|
  {
    if |cs| > 0 {
      ThroughIsPrefix(cs[..|cs| - 1], cutoff, if m == |cs| then m - 1 else m);
    }
  }

  /** The binary search of sort.Search, for the first candle after the cutoff. */
  method CandlesThroughReplayCutoff(candles: seq<Candle>, cutoff: int) returns (out: seq<Candle>)
    requires Ascending(candles)
    ensures out == Through(candles, cutoff)
    ensures out <= candles
  {
    if |candles| == 0 {
      return [];
    }
    var low, high := 0, |candles|;
    while low < high
      invariant 0 <= low <= high <= |candles|
      invariant forall i | 0 <= i < low :: candles[i].time <= cutoff
      invariant forall i | high <= i < |candles| :: candles[i].time > cutoff
    {
      var middle := (low + high) / 2;
      if candles[middle].time <= cutoff {
        low := middle + 1;
      } else {
        high := middle;
      }
    }
    ThroughIsPrefix(candles, cutoff, low);
    return if low == |candles| then candles else candles[..low];
  }

  function UpTo(m: map<int, Candle>, cutoff: int): map<int, Candle> {
    map t | t in m && t <= cutoff :: m[t]
  }

  lemma {:induction false} NothingUpTo(cutoff: int)
    ensures UpTo(map[], cutoff) == map[]
  {
  }

  lemma {:induction false} UpToUpdate(m: map<int, Candle>, c: Candle, cutoff: int)
    ensures UpTo(m[c.time := c], cutoff) == if c.time <= cutoff then UpTo(m, cutoff)[c.time := c] else UpTo(m, cutoff)
  {
  }

  lemma {:induction false} ThroughByTime(cs: seq<Candle>, cutoff: int)
    ensures ByTime(Through(cs, cutoff)) == UpTo(ByTime(cs), cutoff)
  {
    hide ByTime, UpTo;
    if |cs| == 0 {
      NoCandles();
      NothingUpTo(cutoff);
    } else {
      var front, c := cs[..|cs| - 1], cs[|cs| - 1];
      assert cs == front + [c];
      ThroughByTime(front, cutoff);
      ByTimeSnoc(front, c);
      UpToUpdate(ByTime(front), c, cutoff);
      ByTimeSnoc(Through(front, cutoff), c);
      assert Through(front, cutoff) + [] == Through(front, cutoff);
    }
  }

  lemma {:induction false} CutPlace(cs: seq<Candle>, cutoff: int) returns (m: nat)
    requires Ascending(cs)
    ensures m <= |cs|
    ensures forall i | 0 <= i < m :: cs[i].time <= cutoff
    ensures forall i | m <= i < |cs| :: cs[i].time > cutoff
  {
    m := 0;
    while m < |cs| && cs[m].time <= cutoff
      invariant m <= |cs| && forall i | 0 <= i < m :: cs[i].time <= cutoff
    {
      m := m + 1;
    }
  }

  lemma {:induction false} ThroughAscends(cs: seq<Candle>, cutoff: int)
    requires Ascending(cs)
    ensures Through(cs, cutoff) <= cs
    ensures Ascending(Through(cs, cutoff)) && forall c <- Through(cs, cutoff) :: c.time <= cutoff
    ensures forall i | |Through(cs, cutoff)| <= i < |cs| :: cs[i].time > cutoff
  {
    hide Through;
    var m := CutPlace(cs, cutoff);
    ThroughIsPrefix(cs, cutoff, m);
  }

  /** Cutting normalized candles gives what normalizing a feed that ends at the cutoff would. */
  lemma {:induction false} CutIsAFeedThatEnds(whole: seq<Candle>, ended: seq<Candle>, raw: seq<RawCandle>, cutoff: int)
    requires Ascending(whole) && ByTime(whole) == ByTime(Accepted(raw))
    requires Ascending(ended) && ByTime(ended) == ByTime(Through(Accepted(raw), cutoff))
    ensures Through(whole, cutoff) == ended
  {
    hide ByTime, Ascending;
    ThroughByTime(whole, cutoff);
    ThroughByTime(Accepted(raw), cutoff);
    ThroughAscends(whole, cutoff);
    TimelineUnique(Through(whole, cutoff), ended);
  }

  const MAX_COMPILE_CANDLES := 5000

  /** Only the newest candles are compiled. */
  function Window(cs: seq<Candle>): seq<Candle> {
    if |cs| > MAX_COMPILE_CANDLES then cs[|cs| - MAX_COMPILE_CANDLES..] else cs
  }

  lemma {:induction false} WindowOfPrefix(cs: seq<Candle>, m: nat)
    requires m <= |cs|
    ensures Window(cs[..m]) == cs[if m > MAX_COMPILE_CANDLES then m - MAX_COMPILE_CANDLES else 0..m]
  {
  }

  lemma {:induction false} CutOfWindow(cs: seq<Candle>, cutoff: int, dropped: nat)
    requires Ascending(cs) && dropped <= |cs|
    ensures var m := |Through(cs, cutoff)|;
            Through(cs[dropped..], cutoff) == if m > dropped && m <= |cs| then cs[dropped..m] else []
  {
    hide Through;
    ThroughAscends(cs, cutoff);
    var m := |Through(cs, cutoff)|;
    forall i | 0 <= i < m
      ensures cs[i].time <= cutoff
    {
      assert cs[i] == Through(cs, cutoff)[i];
    }
    ThroughIsPrefix(cs[dropped..], cutoff, if m > dropped then m - dropped else 0);
  }

  /** The replay window is the full window cut at the cutoff exactly when nothing had to be dropped, or nothing
      is cut, or nothing is left. */
  lemma {:induction false} ReplayWindowIsCutWindowWhen(cs: seq<Candle>, cutoff: int)
    requires Ascending(cs)
    ensures Window(Through(cs, cutoff)) == Through(Window(cs), cutoff)
            <==> |cs| <= MAX_COMPILE_CANDLES || Through(cs, cutoff) == cs || Through(cs, cutoff) == []
  {
    hide Through, Ascending;
    ThroughAscends(cs, cutoff);
    var m := |Through(cs, cutoff)|;
    assert Through(cs, cutoff) == cs[..m];
    WindowOfPrefix(cs, m);
    if |cs| > MAX_COMPILE_CANDLES {
      var dropped := |cs| - MAX_COMPILE_CANDLES;
      CutOfWindow(cs, cutoff, dropped);
      assert m == |cs| ==> cs[..m] == cs;
      if 0 < m < |cs| {
        var replay, cut := Window(Through(cs, cutoff)), Through(Window(cs), cutoff);
        assert |replay| == if m > MAX_COMPILE_CANDLES then MAX_COMPILE_CANDLES else m;
        assert |cut| == if m > dropped then m - dropped else 0;
      }
    }
  }

  // ----- Points -----

  datatype Point = Point(time: int, value: real, color: Option<string>)

  predicate Shown(points: seq<Point>, time: int) {
    exists p <- points :: p.time == time
  }

  function ColorOf(colors: seq<string>, i: nat): Option<string> {
    if i < |colors| && colors[i] != "" then Some(colors[i]) else None
  }

  /** The points of the first n values: usable ones, one for each time. */
  function PointsOf(values: seq<Num>, cs: seq<Candle>, colors: seq<string>, n: nat): seq<Point>
    requires n <= |values|
  {
    if n == 0 then []
    else
      var out, i := PointsOf(values, cs, colors, n - 1), n - 1;
      if i >= |cs| || !Usable(values[i]) || Shown(out, cs[i].time) then out
      else out + [Point(cs[i].time, values[i].value, ColorOf(colors, i))]
  }

  method SeriesToLinePoints(values: seq<Num>, candles: seq<Candle>, colors: seq<string>) returns (out: seq<Point>)
    ensures out == PointsOf(values, candles, colors, |values|)
  {
    out := [];
    var seen: set<int> := {};
    for i := 0 to |values|
      invariant out == PointsOf(values, candles, colors, i)
      invariant forall t :: t in seen <==> Shown(out, t)
    {
      if i < |candles| && Usable(values[i]) && candles[i].time !in seen {
        var p := Point(candles[i].time, values[i].value, ColorOf(colors, i));
        assert forall t :: Shown(out + [p], t) <==> Shown(out, t) || t == p.time by {
          assert p in out + [p];
          assert forall q :: q in out + [p] <==> q in out || q == p;
        }
        seen := seen + {candles[i].time};
        out := out + [p];
      }
    }
  }

  function Keep(points: seq<Point>, cutoff: int): seq<Point> {
    if |points| == 0 then []
    else Keep(points[..|points| - 1], cutoff) + if points[|points| - 1].time
      <= cutoff then [points[|points| - 1]] else []
  }

  predicate Sorted(points: seq<Point>) {
    forall i, j | 0 <= i < j < |points| :: points[i].time <= points[j].time
  }

  lemma {:induction false} PointsBounded(values: seq<Num>, cs: seq<Candle>, colors: seq<string>, n: nat)
    requires n <= |values| && Ascending(cs)
    ensures Sorted(PointsOf(values, cs, colors, n))
    ensures forall p <- PointsOf(values, cs, colors, n) :: exists i | 0 <= i < n && i < |cs| :: p.time == cs[i].time
  {
    if n > 0 {
      PointsBounded(values, cs, colors, n - 1);
    }
  }

  /** The n-th value adds no point, or one at the n-th candle's time. */
  lemma {:induction false} NextPoint(values: seq<Num>, cs: seq<Candle>, colors: seq<string>, n: nat, cutoff: int)
    requires n < |values| && n < |cs|
    ensures var now, next := PointsOf(values, cs, colors, n), PointsOf(values, cs, colors, n + 1);
            && (cs[n].time > cutoff ==> Keep(next, cutoff) == Keep(now, cutoff))
            && (cs[n].time <= cutoff && Keep(now, cutoff) == now ==> Keep(next, cutoff) == next)
  {
  }

  lemma {:induction false} PointsBeforeCut(values: seq<Num>, cs: seq<Candle>, colors: seq<string>, cutoff: int, n: nat)
    requires n <= |values| && n <= |cs| && forall i | 0 <= i < n :: cs[i].time <= cutoff
    ensures Keep(PointsOf(values, cs, colors, n), cutoff) == PointsOf(values, cs, colors, n)
  {
    hide Keep;
    if n > 0 {
      PointsBeforeCut(values, cs, colors, cutoff, n - 1);
      NextPoint(values, cs, colors, n - 1, cutoff);
    } else {
      NoPoints(cutoff);
    }
  }

  lemma {:induction false} NoPoints(cutoff: int)
    ensures Keep([], cutoff) == []
  {
  }

  lemma {:induction false} PointsAfterCut(values: seq<Num>, cs: seq<Candle>, colors: seq<string>, cutoff: int, m: nat,
          n: nat)
    requires m <= n <= |values| && n <= |cs| && forall i | m <= i < n :: cs[i].time > cutoff
    ensures Keep(PointsOf(values, cs, colors, n), cutoff) == Keep(PointsOf(values, cs, colors, m), cutoff)
    decreases n
  {
    hide Keep, PointsOf;
    if m < n {
      PointsAfterCut(values, cs, colors, cutoff, m, n - 1);
      NextPoint(values, cs, colors, n - 1, cutoff);
    }
  }

  lemma {:induction false} PointsOfPrefix(values: seq<Num>, cs: seq<Candle>, colors: seq<string>,
          cutColors: seq<string>, m: nat, n: nat)
    requires n <= m <= |values| && m <= |cs|
    requires forall i | 0 <= i < m :: ColorOf(colors, i) == ColorOf(cutColors, i)
    ensures PointsOf(values[..m], cs[..m], cutColors, n) == PointsOf(values, cs, colors, n)
    decreases n
  {
    hide ColorOf, Shown;
    if n > 0 {
      PointsOfPrefix(values, cs, colors, cutColors, m, n - 1);
    }
  }

  /** Points of a cut run are the points of the full run up to the cutoff. */
  lemma {:induction false} PointsOfCut(values: seq<Num>, cut: seq<Num>, cs: seq<Candle>, colors: seq<string>,
          cutColors: seq<string>, cutoff: int)
    requires Ascending(cs) && |values| == |cs|
    requires var m := |Through(cs, cutoff)|;
             && m <= |cs| && cut == values[..m]
             && forall i | 0 <= i < m :: ColorOf(colors, i) == ColorOf(cutColors, i)
    ensures var m := |Through(cs, cutoff)|;
            Keep(PointsOf(values, cs, colors, |cs|), cutoff) == PointsOf(cut, Through(cs, cutoff), cutColors, m)
  {
    hide PointsOf, Keep, Through, ColorOf;
    ThroughAscends(cs, cutoff);
    var m := |Through(cs, cutoff)|;
    forall i | 0 <= i < m
      ensures cs[i].time <= cutoff
    {
      assert cs[i] == Through(cs, cutoff)[i];
    }
    assert Through(cs, cutoff) == cs[..m];
    PointsAfterCut(values, cs, colors, cutoff, m, |cs|);
    PointsBeforeCut(values, cs, colors, cutoff, m);
    PointsOfPrefix(values, cs, colors, cutColors, m, m);
  }

  // ----- A script: assignments, then a plot -----

  /** A run over candles: what has its value, and the assignments that gave it one. */
  datatype Run = Run(ctx: Context, earlier: seq<Assignment>)

  /** An assignment that does not evaluate is reported and skipped. */
  function RunStatement(a: Assignment, run: Run): (r: Run)
    requires run.ctx.Valid()
    ensures r.ctx.Valid() && r.ctx.candles == run.ctx.candles
  {
    var v := AssignmentValue(a.name, a.text, run.earlier, run.ctx);
    if v.None? then run else Run(PineScripts.Assign(run.ctx, a.name, v.value), run.earlier + [a])
  }

  function RunScript(script: seq<Assignment>, run: Run): (r: Run)
    requires run.ctx.Valid()
    ensures r.ctx.Valid() && r.ctx.candles == run.ctx.candles
    decreases |script|
  {
    if |script| == 0 then run else RunScript(script[1..], RunStatement(script[0], run))
  }

  /** Each turn reads the line it is at and evaluates the assignment it finds there. */
  method ReadAssignments(lines: seq<Line>, ctx: Context) returns (r: Run)
    requires ctx.Valid() && Ascending(ctx.candles) && ProperLines(lines)
    ensures r == RunScript(Statements(lines), Run(ctx, []))
  {
    hide AssignmentValue, Ascending, ReadLine, Proper;
    r := Run(ctx, []);
    var index := 0;
    assert lines[index..] == lines;
    StatementsProper(lines);
    while index < |lines|
      invariant index <= |lines| && r.ctx.Valid() && r.ctx.candles == ctx.candles && AllProper(r.earlier)
      invariant AllProper(Statements(lines[index..]))
      invariant RunScript(Statements(lines[index..]), r) == RunScript(Statements(lines), Run(ctx, []))
      decreases |lines| - index
    {
      var assignment, next := ReadStatement(lines, index);
      ghost var later := Statements(lines[next..]);
      if assignment.Some? {
        var a := assignment.value;
        assert Statements(lines[index..])[0] == a && Statements(lines[index..])[1..] == later;
        var value := EvaluateAssignmentValue(a.name, a.text, r.earlier, r.ctx);
        if value.Some? {
          r := Run(PineScripts.Assign(r.ctx, a.name, value.value), r.earlier + [a]);
        }
      } else {
        assert Statements(lines[index..]) == later;
      }
      index := next;
    }
  }

  /** An if that is a statement does not hold back an assignment under it: a name that had a value before shows
      what "the new value where the condition holds, the old one elsewhere" shows exactly on the bars where the
      condition holds or both values are the same. */
  lemma {:induction false} ConditionalAssignmentKeptWhen(indent: nat, condition: Tokens, tight: bool, deeper: nat,
          name: string, value: Tokens, run: Run, i: nat)
    requires run.ctx.Valid() && i < run.ctx.Bars() && name in run.ctx.variables
    requires FunctionText([IF] + condition).None? && AssignmentOf([IF] + condition).None?
    requires IsPlainName(name) && value != [] && !StartsIf(value) && !IsCallOf(value, OUTPUTS + DRAWINGS)
    requires AssignmentValue(name, value, run.earlier, run.ctx).Some?
    ensures var block :=
            [Line(indent, [IF] + condition, tight), Line(deeper, [IdentTok(name), Colon, Equals] + value, false)];
            var before, v := run.ctx.variables[name], AssignmentValue(name, value, run.earlier, run.ctx).value;
            var after := RunScript(Statements(block), run).ctx.variables;
            && name in after
            && (GetAt(after[name], i) == (if HoldsAt(condition, run.ctx, i) then GetAt(v, i) else GetAt(before, i))
                <==> HoldsAt(condition, run.ctx, i) || GetAt(v, i) == GetAt(before, i))
  {
    hide AssignmentValue, AssignmentOf, FunctionText, HoldsAt, Statements;
    ConditionIsPassedOver(indent, condition, tight, deeper, name, value, []);
    var block := [Line(indent, [IF] + condition, tight), Line(deeper, [IdentTok(name), Colon, Equals] + value, false)];
    assert block + [] == block;
    var a := Assignment(name, value);
    assert Statements(block) == [a] by {
      NoLinesReadNothing();
    }
    assert [a][1..] == [];
    assert RunScript([a], run) == RunScript([], RunStatement(a, run));
  }

  lemma {:induction false} NoLinesReadNothing()
    ensures Statements([]) == []
  {
  }

  /** The colours of the bars; an empty text asks for none. */
  function PlotColors(color: Tokens, run: Run): seq<string>
    requires run.ctx.Valid()
  {
    if color == [] then []
    else
      var v := TextValue(color, run.earlier, run.ctx);
      if v.Some? && v.value.ColorSeries? then v.value.colors else []
  }

  function PlotPoints(value: Tokens, color: Tokens, run: Run): Option<seq<Point>>
    requires run.ctx.Valid()
  {
    var v, n := TextValue(value, run.earlier, run.ctx), run.ctx.Bars();
    if v.None? then None else Some(PointsOf(ToSeries(v.value, n), run.ctx.candles, PlotColors(color, run), n))
  }

  /** Every text of the script is steady where it is evaluated. */
  ghost predicate SteadyScript(script: seq<Assignment>, value: Tokens, color: Tokens, run: Run, k: nat, s: nat)
    requires run.ctx.Valid() && 1 <= s <= k <= run.ctx.Bars()
    decreases |script|
  {
    if |script| == 0 then
      Steady(value, run.earlier, run.ctx, k, s) && (color != [] ==> Steady(color, run.earlier, run.ctx, k, s))
    else
      && SteadyAssignment(script[0].name, script[0].text, run.earlier, run.ctx, k, s)
      && SteadyScript(script[1..], value, color, RunStatement(script[0], run), k, s)
  }

  ghost predicate RunFollows(r1: Run, r2: Run, s: nat) {
    r1.ctx.Valid() && r2.ctx.Valid() && Follows(r1.ctx, r2.ctx, s) && r1.earlier == r2.earlier
  }

  lemma {:induction false} StatementFollows(a: Assignment, r1: Run, r2: Run, s: nat)
    requires RunFollows(r1, r2, s) && SharedBars(r1, r2, s)
    requires SteadyAssignment(a.name, a.text, r1.earlier, r1.ctx, r2.ctx.Bars(), s)
    ensures RunFollows(RunStatement(a, r1), RunStatement(a, r2), s)
  {
    hide AssignmentValue, SteadyAssignment, SharePast, Agree, StartsAs;
    AssignmentsAgree(a.name, a.text, r1.earlier, r1.ctx, r2.ctx, s);
    var v1, v2 := AssignmentValue(a.name, a.text, r1.earlier, r1.ctx),
        AssignmentValue(a.name, a.text, r2.earlier, r2.ctx);
    if v1.Some? {
      AssignedFollows(r1.ctx, r2.ctx, a.name, v1.value, v2.value, s);
    }
  }

  predicate SharedBars(r1: Run, r2: Run, s: nat) {
    1 <= s <= r2.ctx.Bars() <= r1.ctx.Bars()
  }

  lemma {:induction false} ScriptFollows(script: seq<Assignment>, value: Tokens, color: Tokens, r1: Run, r2: Run,
          s: nat)
    requires RunFollows(r1, r2, s) && SharedBars(r1, r2, s)
    requires SteadyScript(script, value, color, r1, r2.ctx.Bars(), s)
    ensures RunFollows(RunScript(script, r1), RunScript(script, r2), s)
    ensures SteadyScript([], value, color, RunScript(script, r1), r2.ctx.Bars(), s)
    decreases |script|
  {
    hide RunStatement, SteadyAssignment, Steady, Follows;
    if |script| > 0 {
      StatementFollows(script[0], r1, r2, s);
      ScriptFollows(script[1..], value, color, RunStatement(script[0], r1), RunStatement(script[0], r2), s);
    }
  }

  lemma {:induction false} ColorsAgree(color: Tokens, r1: Run, r2: Run, s: nat)
    requires RunFollows(r1, r2, s) && SharedBars(r1, r2, s)
    requires color != [] ==> Steady(color, r1.earlier, r1.ctx, r2.ctx.Bars(), s)
    ensures forall i | 0 <= i < s :: ColorOf(PlotColors(color, r1), i) == ColorOf(PlotColors(color, r2), i)
  {
    hide TextValue, Steady, SharePast, StartsAs;
    if color != [] {
      TextsAgree(color, r1.earlier, r1.ctx, r2.ctx, s);
      var v1 := TextValue(color, r1.earlier, r1.ctx);
      if v1.Some? && v1.value.ColorSeries? {
        var a, b := PlotColors(color, r1), PlotColors(color, r2);
        forall i | 0 <= i < s
          ensures ColorOf(a, i) == ColorOf(b, i)
        {
          assert a[..s][i] == b[..s][i];
        }
      }
    }
  }

  /** A run starts with inputs only, none of which varies from bar to bar. */
  predicate Fresh(ctx: Context) {
    ctx.Valid() && forall name <- ctx.variables :: !Varies(ctx.variables[name])
  }

  /** The replay of a run: the same inputs over the candles up to the cutoff. */
  function Replay(ctx: Context, cutoff: int): (c: Context)
    requires Fresh(ctx)
    ensures Fresh(c)
  {
    ctx.(candles := Through(ctx.candles, cutoff))
  }

  /** Of two runs that share their first s bars, the plots share their points up to the last of them. */
  lemma {:induction false} PlotsAgree(value: Tokens, color: Tokens, r1: Run, r2: Run, s: nat)
    requires RunFollows(r1, r2, s) && SharedBars(r1, r2, s)
    requires SteadyScript([], value, color, r1, r2.ctx.Bars(), s)
    requires Ascending(r1.ctx.candles) && Ascending(r2.ctx.candles)
    ensures PlotPoints(value, color, r1).Some? == PlotPoints(value, color, r2).Some?
    ensures PlotPoints(value, color, r1).Some? ==>
              var last := r2.ctx.candles[s - 1].time;
              Keep(PlotPoints(value, color, r1).value, last) == Keep(PlotPoints(value, color, r2).value, last)
  {
    hide TextValue, Steady, SharePast, StartsAs, PlotColors, Keep, PointsOf, ToSeries, Ascending, Agree;
    TextsAgree(value, r1.earlier, r1.ctx, r2.ctx, s);
    ColorsAgree(color, r1, r2, s);
    var v1, v2 := TextValue(value, r1.earlier, r1.ctx), TextValue(value, r2.earlier, r2.ctx);
    if v1.Some? {
      var n1, n2 := r1.ctx.Bars(), r2.ctx.Bars();
      ToSeriesAgree(v1.value, v2.value, s, n1, n2);
      SeriesLength(v1.value, n1);
      SeriesLength(v2.value, n2);
      SharedCandles(r1, r2, s);
      PointsOfStart(ToSeries(v1.value, n1), r1.ctx.candles, PlotColors(color, r1), PlotColors(color, r2), s);
      PointsOfStart(ToSeries(v2.value, n2), r2.ctx.candles, PlotColors(color, r2), PlotColors(color, r2), s);
    }
  }

  lemma {:induction false} SharedCandles(r1: Run, r2: Run, s: nat)
    requires RunFollows(r1, r2, s) && SharedBars(r1, r2, s)
    ensures r1.ctx.candles[..s] == r2.ctx.candles[..s] && r1.ctx.candles[s - 1] == r2.ctx.candles[s - 1]
  {
    assert r1.ctx.candles[..s][s - 1] == r2.ctx.candles[..s][s - 1];
  }

  /** The points up to the s-th bar come from the first s bars. */
  lemma {:induction false} PointsOfStart(values: seq<Num>, cs: seq<Candle>, colors: seq<string>, others: seq<string>,
          s: nat)
    requires Ascending(cs) && |values| == |cs| && 1 <= s <= |cs|
    requires forall i | 0 <= i < s :: ColorOf(colors, i) == ColorOf(others, i)
    ensures Keep(PointsOf(values, cs, colors, |cs|), cs[s - 1].time) == PointsOf(values[..s], cs[..s], others, s)
  {
    hide PointsOf, Keep, ColorOf;
    ThroughIsPrefix(cs, cs[s - 1].time, s);
    PointsOfCut(values, values[..s], cs, colors, others, cs[s - 1].time);
  }

  /** Cutting at the cutoff and running the script plots what the full run plots: up to the last bar s for which
      the script is steady, and so all of it when that is the last bar before the cutoff. */
  lemma {:induction false} ReplayCommutes(script: seq<Assignment>, value: Tokens, color: Tokens, ctx: Context,
          cutoff: int, s: nat)
    requires Fresh(ctx) && Ascending(ctx.candles) && 2 <= |Through(ctx.candles, cutoff)| <= ctx.Bars()
    requires 1 <= s <= |Through(ctx.candles, cutoff)|
    requires SteadyScript(script, value, color, Run(ctx, []), |Through(ctx.candles, cutoff)|, s)
    ensures var full := PlotPoints(value, color, RunScript(script, Run(ctx, [])));
            var cut := PlotPoints(value, color, RunScript(script, Run(Replay(ctx, cutoff), [])));
            && full.Some? == cut.Some?
            && (full.Some? ==> Keep(cut.value, ctx.candles[s - 1].time) == Keep(full.value, ctx.candles[s - 1].time))
            && (full.Some? && s == |Through(ctx.candles, cutoff)| ==> cut.value == Keep(full.value, cutoff))
  {
    hide SteadyScript, RunScript, PlotPoints, Through, Ascending, Keep;
    var cs, replay := ctx.candles, Replay(ctx, cutoff);
    var k := |Through(cs, cutoff)|;
    ThroughAscends(cs, cutoff);
    assert Through(cs, cutoff) == cs[..k];
    CutRunFollows(ctx, k, s);
    var r1, r2 := RunScript(script, Run(ctx, [])), RunScript(script, Run(replay, []));
    ScriptFollows(script, value, color, Run(ctx, []), Run(replay, []), s);
    PlotsAgree(value, color, r1, r2, s);
    if PlotPoints(value, color, r1).Some? && s == k {
      assert replay.candles[..k] == replay.candles;
      ThroughIsPrefix(replay.candles, cutoff, k);
      KeptUpToCutoff(value, color, r1, cutoff);
      KeptUpToCutoff(value, color, r2, cutoff);
    }
  }

  /** Cutting points at the cutoff is cutting them at the last bar before it. */
  lemma {:induction false} KeptUpToCutoff(value: Tokens, color: Tokens, run: Run, cutoff: int)
    requires run.ctx.Valid() && Ascending(run.ctx.candles) && 1 <= |Through(run.ctx.candles, cutoff)| <= run.ctx.Bars()
    requires PlotPoints(value, color, run).Some?
    ensures var points, k := PlotPoints(value, color, run).value, |Through(run.ctx.candles, cutoff)|;
            && Keep(points, run.ctx.candles[k - 1].time) == Keep(points, cutoff)
            && (k == run.ctx.Bars() ==> Keep(points, cutoff) == points)
  {
    hide TextValue, PlotColors, Keep, PointsOf, Through, ToSeries;
    var cs, n := run.ctx.candles, run.ctx.Bars();
    var v, k := TextValue(value, run.earlier, run.ctx).value, |Through(cs, cutoff)|;
    var values, colors := ToSeries(v, n), PlotColors(color, run);
    SeriesLength(v, n);
    ThroughAscends(cs, cutoff);
    assert Through(cs, cutoff) == cs[..k];
    PointsOfCut(values, values[..k], cs, colors, colors, cutoff);
    PointsOfStart(values, cs, colors, colors, k);
    if k == n {
      assert values[..n] == values && cs[..n] == cs;
    }
  }

  lemma {:induction false} SeriesLength(v: Value, n: nat)
    requires Fits(v, n)
    ensures |ToSeries(v, n)| == n
  {
  }

  lemma {:induction false} CutRunFollows(ctx: Context, k: nat, s: nat)
    requires Fresh(ctx) && 2 <= k <= ctx.Bars() && 1 <= s <= k
    ensures RunFollows(Run(ctx, []), Run(ctx.(candles := ctx.candles[..k]), []), s)
  {
  }

  // ----- Clipping -----

  function InsertByTime(sorted: seq<Point>, p: Point): seq<Point> {
    if |sorted| == 0 || sorted[|sorted| - 1].time <= p.time then sorted + [p]
    else InsertByTime(sorted[..|sorted| - 1], p) + [sorted[|sorted| - 1]]
  }

  /** sort.SliceStable by time. */
  function SortStable(data: seq<Point>): seq<Point> {
    if |data| == 0 then [] else InsertByTime(SortStable(data[..|data| - 1]), data[|data| - 1])
  }

  function AtTime(points: seq<Point>, time: int): seq<Point> {
    if |points| == 0 then []
    else AtTime(points[..|points| - 1], time) + if points[|points| - 1].time == time then [points[|points| - 1]] else []
  }

  lemma {:induction false} InsertSorts(sorted: seq<Point>, p: Point)
    requires Sorted(sorted)
    ensures Sorted(InsertByTime(sorted, p))
    ensures forall q <- InsertByTime(sorted, p) :: q in sorted || q == p
  {
    if |sorted| > 0 && sorted[|sorted| - 1].time > p.time {
      var front, last := sorted[..|sorted| - 1], sorted[|sorted| - 1];
      InsertSorts(front, p);
      var inner := InsertByTime(front, p);
      forall i | 0 <= i < |inner|
        ensures inner[i].time <= last.time
      {
        assert inner[i] in inner;
      }
      assert sorted == front + [last];
    }
  }

  lemma {:induction false} InsertHolds(sorted: seq<Point>, p: Point)
    ensures p in InsertByTime(sorted, p)
    ensures forall q <- sorted :: q in InsertByTime(sorted, p)
  {
    if |sorted| > 0 && sorted[|sorted| - 1].time > p.time {
      InsertHolds(sorted[..|sorted| - 1], p);
    }
  }

  lemma {:induction false} AtTimeSnoc(points: seq<Point>, p: Point, time: int)
    ensures AtTime(points + [p], time) == AtTime(points, time) + if p.time == time then [p] else []
  {
  }

  lemma {:induction false} InsertGoesLast(sorted: seq<Point>, p: Point, time: int)
    ensures AtTime(InsertByTime(sorted, p), time) == AtTime(sorted, time) + if p.time == time then [p] else []
  {
    if |sorted| == 0 || sorted[|sorted| - 1].time <= p.time {
      AtTimeSnoc(sorted, p, time);
    } else {
      var front, last := sorted[..|sorted| - 1], sorted[|sorted| - 1];
      InsertGoesLast(front, p, time);
      AtTimeSnoc(InsertByTime(front, p), last, time);
      AtTimeSnoc(front, last, time);
      assert sorted == front + [last];
    }
  }

  /** Sorted, and the points of each time are those of the input in their order. */
  lemma {:induction false} SortIsStable(data: seq<Point>, time: int)
    ensures Sorted(SortStable(data))
    ensures forall q :: q in SortStable(data) <==> q in data
    ensures AtTime(SortStable(data), time) == AtTime(data, time)
  {
    if |data| > 0 {
      SortIsStable(data[..|data| - 1], time);
      var before, p := SortStable(data[..|data| - 1]), data[|data| - 1];
      InsertSorts(before, p);
      InsertHolds(before, p);
      InsertGoesLast(before, p, time);
    }
  }

  lemma {:induction false} SortOfSorted(data: seq<Point>)
    requires Sorted(data)
    ensures SortStable(data) == data
  {
    if |data| > 0 {
      SortOfSorted(data[..|data| - 1]);
    }
  }

  function BoundaryValue(previous: Point, next: Point, cutoff: int): real {
    if next.time == previous.time then previous.value
    else
      var ratio := (cutoff - previous.time) as real / (next.time - previous.time) as real;
      var clamped := if ratio < 0.0 then 0.0 else if ratio > 1.0 then 1.0 else ratio;
      previous.value + (next.value - previous.value) * clamped
  }

  /** The point where the segment from previous to next crosses the cutoff. */
  function ReplayBoundaryPoint(previous: Point, next: Point, cutoff: int): Point {
    Point(cutoff, BoundaryValue(previous, next, cutoff), if previous.color.Some? then previous.color else next.color)
  }

  lemma {:induction false} RatioInside(part: real, whole: real)
    requires 0.0 <= part <= whole && whole > 0.0
    ensures 0.0 <= part / whole <= 1.0 && part / whole * whole == part
  {
  }

  /** The boundary value lies on the segment: between its ends, at the cutoff's share of the way. */
  lemma {:induction false} BoundaryOnSegment(previous: Point, next: Point, cutoff: int)
    requires previous.time <= cutoff <= next.time && previous.time < next.time
    ensures var v := BoundaryValue(previous, next, cutoff);
            && (previous.value <= v <= next.value || next.value <= v <= previous.value)
            && (v - previous.value) * (next.time - previous.time) as real
               == (next.value - previous.value) * (cutoff - previous.time) as real
  {
    var part, whole := (cutoff - previous.time) as real, (next.time - previous.time) as real;
    var d, r := next.value - previous.value, part / whole;
    RatioInside(part, whole);
    ScaleBetween(d, r);
    assert BoundaryValue(previous, next, cutoff) - previous.value == d * r;
    assert d * r * whole == d * (r * whole);
  }

  function Clip(data: seq<Point>, cutoff: int, interpolate: bool): seq<Point> {
    var points := SortStable(data);
    var kept := Keep(points, cutoff);
    if interpolate && 0 < |kept| < |points| && kept[|kept| - 1].time < cutoff then
      kept + [ReplayBoundaryPoint(kept[|kept| - 1], points[|kept|], cutoff)]
    else kept
  }

  lemma {:induction false} KeepIsPrefix(points: seq<Point>, cutoff: int, m: nat)
    requires m <= |points|
    requires forall i | 0 <= i < m :: points[i].time <= cutoff
    requires forall i | m <= i < |points| :: points[i].time > cutoff
    ensures Keep(points, cutoff) == points[..m]
    decreases |points|
  {
    if |points| > 0 {
      KeepIsPrefix(points[..|points| - 1], cutoff, if m == |points| then m - 1 else m);
    }
  }

  method ClipLinePointsToReplay(data: seq<Point>, cutoff: int, interpolate: bool) returns (out: seq<Point>)
    ensures out == Clip(data, cutoff, interpolate)
  {
    hide SortStable, Keep;
    var points := SortStable(data);
    SortIsStable(data, 0);
    if |data| == 0 {
      NothingToClip(data, cutoff);
      return [];
    }
    out := [];
    var i := 0;
    while i < |points| && points[i].time <= cutoff
      invariant 0 <= i <= |points| && out == points[..i]
      invariant forall j | 0 <= j < i :: points[j].time <= cutoff
    {
      out := out + [points[i]];
      i := i + 1;
    }
    KeepIsPrefix(points, cutoff, i);
    if i < |points| && interpolate && |out| > 0 && out[|out| - 1].time < cutoff {
      out := out + [ReplayBoundaryPoint(out[|out| - 1], points[i], cutoff)];
    }
  }

  lemma {:induction false} NothingToClip(data: seq<Point>, cutoff: int)
    requires |data| == 0
    ensures SortStable(data) == [] && Keep([], cutoff) == []
  {
  }

  lemma {:induction false} KeepWithin(points: seq<Point>, cutoff: int)
    ensures forall p <- Keep(points, cutoff) :: p.time <= cutoff
    ensures (forall p <- points :: p.time <= cutoff) ==> Keep(points, cutoff) == points
  {
    if forall p <- points :: p.time <= cutoff {
      KeepIsPrefix(points, cutoff, |points|);
    }
    if |points| > 0 {
      KeepWithin(points[..|points| - 1], cutoff);
    }
  }

  lemma {:induction false} KeepOfSorted(points: seq<Point>, cutoff: int)
    requires Sorted(points)
    ensures Sorted(Keep(points, cutoff)) && Keep(points, cutoff) <= points
    ensures forall i | |Keep(points, cutoff)| <= i < |points| :: points[i].time > cutoff
  {
    if |points| > 0 {
      KeepOfSorted(points[..|points| - 1], cutoff);
    }
  }

  /** A clip shows nothing after the cutoff, in time order. */
  lemma {:induction false} ClipEndsAtCutoff(data: seq<Point>, cutoff: int, interpolate: bool)
    ensures Sorted(Clip(data, cutoff, interpolate))
    ensures forall p <- Clip(data, cutoff, interpolate) :: p.time <= cutoff
  {
    hide SortStable, Keep;
    SortIsStable(data, 0);
    KeepWithin(SortStable(data), cutoff);
    KeepOfSorted(SortStable(data), cutoff);
  }

  /** Points that already end at the cutoff, in order, pass unchanged; so clipping twice is clipping once. */
  lemma {:induction false} ClipOfClipped(data: seq<Point>, cutoff: int, interpolate: bool)
    ensures Sorted(data) && (forall p <- data :: p.time <= cutoff) ==> Clip(data, cutoff, interpolate) == data
    ensures Clip(Clip(data, cutoff, interpolate), cutoff, interpolate) == Clip(data, cutoff, interpolate)
  {
    var once := Clip(data, cutoff, interpolate);
    ClipEndsAtCutoff(data, cutoff, interpolate);
    SortOfSorted(once);
    KeepWithin(once, cutoff);
    if Sorted(data) && forall p <- data :: p.time <= cutoff {
      SortOfSorted(data);
      KeepWithin(data, cutoff);
    }
  }

  /** What a replay run plots is not changed by the final clip. */
  lemma {:induction false} FinalClipKeepsReplay(script: seq<Assignment>, value: Tokens, color: Tokens, ctx: Context,
          cutoff: int, interpolate: bool)
    requires Fresh(ctx) && Ascending(ctx.candles)
    ensures var shown := PlotPoints(value, color, RunScript(script, Run(Replay(ctx, cutoff), [])));
            shown.Some? ==> Clip(shown.value, cutoff, interpolate) == shown.value
  {
    hide TextValue, RunScript, PlotColors, ToSeries;
    var cs, run := Through(ctx.candles, cutoff), RunScript(script, Run(Replay(ctx, cutoff), []));
    ThroughAscends(ctx.candles, cutoff);
    var v := TextValue(value, run.earlier, run.ctx);
    if v.Some? {
      var values, colors := ToSeries(v.value, |cs|), PlotColors(color, run);
      SeriesLength(v.value, |cs|);
      PointsBounded(values, cs, colors, |cs|);
      ClipOfClipped(PointsOf(values, cs, colors, |cs|), cutoff, interpolate);
    }
  }

  /** Cropping a full run instead of replaying it shows the same points exactly when no segment crosses the cutoff. */
  lemma {:induction false} CropShowsReplayWhen(full: seq<Point>, cutoff: int, interpolate: bool)
    requires Sorted(full)
    ensures var kept := Keep(full, cutoff);
            Clip(full, cutoff, interpolate) == kept
            <==> !interpolate || |kept| == 0 || |kept| == |full| || kept[|kept| - 1].time == cutoff
  {
    SortOfSorted(full);
    KeepWithin(full, cutoff);
    KeepOfSorted(full, cutoff);
    var kept := Keep(full, cutoff);
    if |kept| > 0 {
      assert kept[|kept| - 1] in kept;
    }
  }
}
