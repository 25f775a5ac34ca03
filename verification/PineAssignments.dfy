/** Assignments whose text reads earlier values of the name being assigned: their recognition in the text,
    the running-average form that has a loop of its own, and the context of one bar alone in which every
    other form is evaluated. */
module PineAssignments {
  import opened Options
  import opened Decimals
  import opened Sequences
  import opened PineNumbers
  import opened PineValues
  import opened PineExpressions
  import opened PineGrammar
  import opened PineCausality

  // ----- Placeholders for name[k] -----

  function Placeholder(name: string, k: nat): string {
    "__" + name + "_" + Decimal(k)
  }

  lemma {:induction false} PlaceholdersDiffer(name: string, j: nat, k: nat)
    requires Placeholder(name, j) == Placeholder(name, k)
    ensures j == k
  {
    var start := "__" + name + "_";
    assert Placeholder(name, j)[|start|..] == Decimal(j);
    assert Placeholder(name, k)[|start|..] == Decimal(k);
    DecimalInjective(j, k);
  }

  /** The text starts with name[k]. */
  predicate StartsSelf(ts: Tokens, name: string) {
    |ts| >= 4 && ts[0] == IdentTok(name) && ts[1] == LBracket && IsWhole(ts[2]) && ts[3] == RBracket
  }

  function Offset(ts: Tokens): nat
    requires |ts| >= 4 && IsWhole(ts[2])
  {
    ts[2].r.Floor
  }

  /** The offsets k at which a text reads name[k]. */
  function SelfOffsets(ts: Tokens, name: string): set<nat> {
    if |ts| == 0 then {}
    else if StartsSelf(ts, name) then {Offset(ts)} + SelfOffsets(ts[4..], name)
    else SelfOffsets(ts[1..], name)
  }

  /** Every name[k] replaced by its placeholder. */
  function Substitute(ts: Tokens, name: string): (r: Tokens)
    ensures |r| <= |ts|
    ensures Eof !in ts ==> Eof !in r
  {
    if |ts| == 0 then []
    else if StartsSelf(ts, name) then [IdentTok(Placeholder(name, Offset(ts)))] + Substitute(ts[4..], name)
    else [ts[0]] + Substitute(ts[1..], name)
  }

  lemma {:induction false} SelfStep(ts: Tokens, i: nat, name: string)
    requires i <= |ts|
    ensures SelfOffsets(ts[i..], name) ==
            if i == |ts| then {}
            else if StartsSelf(ts[i..], name) then {Offset(ts[i..])} + SelfOffsets(ts[i + 4..], name)
            else SelfOffsets(ts[i + 1..], name)
    ensures Substitute(ts[i..], name) ==
            if i == |ts| then []
            else if StartsSelf(ts[i..], name)
              then [IdentTok(Placeholder(name, Offset(ts[i..])))] + Substitute(ts[i + 4..], name)
            else [ts[i]] + Substitute(ts[i + 1..], name)
  {
    if i < |ts| {
      assert ts[i..][1..] == ts[i + 1..];
      if StartsSelf(ts[i..], name) {
        assert ts[i..][4..] == ts[i + 4..];
      }
    }
  }

  method FindSelfReferences(ts: Tokens, name: string) returns (offsets: set<nat>, scalar: Tokens)
    ensures offsets == SelfOffsets(ts, name) && scalar == Substitute(ts, name)
  {
    hide SelfOffsets, Substitute, Placeholder;
    offsets, scalar := {}, [];
    var i := 0;
    assert ts[0..] == ts;
    while i < |ts|
      invariant 0 <= i <= |ts|
      invariant offsets + SelfOffsets(ts[i..], name) == SelfOffsets(ts, name)
      invariant scalar + Substitute(ts[i..], name) == Substitute(ts, name)
    {
      SelfStep(ts, i, name);
      if StartsSelf(ts[i..], name) {
        offsets := offsets + {Offset(ts[i..])};
        scalar := scalar + [IdentTok(Placeholder(name, Offset(ts[i..])))];
        i := i + 4;
      } else {
        scalar := scalar + [ts[i]];
        i := i + 1;
      }
    }
    SelfStep(ts, i, name);
  }

  /** Anything but a name at the start of a substituted text was there before. */
  lemma {:induction false} SignsStay(ts: Tokens, name: string)
    requires |Substitute(ts, name)| > 0 && !Substitute(ts, name)[0].IdentTok?
    ensures |ts| > 0 && ts[0] == Substitute(ts, name)[0] && Substitute(ts, name)[1..] == Substitute(ts[1..], name)
  {
  }

  lemma {:induction false} NoNewReference(ts: Tokens, name: string)
    requires |ts| > 0
    ensures !StartsSelf(Substitute(ts, name), name)
  {
    var out := Substitute(ts, name);
    if StartsSelf(ts, name) {
      assert |Placeholder(name, Offset(ts))| > |name|;
      assert out[0] != IdentTok(name);
    } else if |out| >= 4 && !out[1].IdentTok? && !out[2].IdentTok? && !out[3].IdentTok? {
      assert out[1..] == Substitute(ts[1..], name);
      SignsStay(ts[1..], name);
      SignsStay(ts[2..], name);
      SignsStay(ts[3..], name);
      assert out[..4] == ts[..4];
    }
  }

  /** What is left after substitution reads no name[k] any more. */
  lemma {:induction false} SubstituteRemoves(ts: Tokens, name: string)
    ensures SelfOffsets(Substitute(ts, name), name) == {}
  {
    if |ts| > 0 {
      var rest := if StartsSelf(ts, name) then ts[4..] else ts[1..];
      SubstituteRemoves(rest, name);
      assert Substitute(ts, name)[1..] == Substitute(rest, name);
      NoNewReference(ts, name);
    }
  }

  // ----- x = nz(x[1]) + (source - nz(x[1])) / length -----

  function Previous(name: string): Tokens {
    [IdentTok("nz"), LParen, IdentTok(name), LBracket, NumberTok(1.0), RBracket, RParen]
  }

  function Opening(name: string): Tokens {
    Previous(name) + [OpTok(Plus), LParen]
  }

  function Middle(name: string): Tokens {
    [OpTok(Minus)] + Previous(name) + [RParen, OpTok(Over)]
  }

  predicate StartsWith(ts: Tokens, start: Tokens) {
    |start| <= |ts| && ts[..|start|] == start
  }

  /** Where the text first goes on with `middle` and something after it. */
  function FindMiddle(ts: Tokens, middle: Tokens): (r: Option<nat>)
    ensures r.Some? ==> r.value + |middle| < |ts| && StartsWith(ts[r.value..], middle)
  {
    if |ts| <= |middle| then None
    else if StartsWith(ts, middle) then Some(0)
    else
      var later := FindMiddle(ts[1..], middle);
      if later.None? then None else Some(later.value + 1)
  }

  datatype Average = NotAnAverage | Average(source: Tokens, length: Tokens)

  /** The source is the shortest text that lets the rest match, and not empty. */
  function RecursiveAverage(ts: Tokens, name: string): (r: Average)
    ensures r.Average? ==> |r.source| + |r.length| < |ts|
    ensures r.Average? ==> forall t <- r.source + r.length :: t in ts
  {
    var body := if |Opening(name)| < |ts| then ts[|Opening(name)|..] else [];
    if !StartsWith(ts, Opening(name)) || |body| == 0 then NotAnAverage
    else
      match FindMiddle(body[1..], Middle(name))
      case None => NotAnAverage
      case Some(k) => Average(body[..k + 1], body[k + 1 + |Middle(name)|..])
  }

  /** The average so far: an unusable point leaves it as it is. */
  function AverageSoFar(h: seq<Num>, length: nat): real
    requires length >= 1
  {
    if |h| == 0 then 0.0
    else
      var before := AverageSoFar(Front(h), length);
      if Usable(Last(h)) then before + (Last(h).value - before) / length as real else before
  }

  /** What the average shows after a history. */
  function AveragePoint(h: seq<Num>, length: nat): Num
    requires length >= 1
  {
    if |h| > 0 && Usable(Last(h)) then Fin(AverageSoFar(h, length)) else NaN
  }

  function AverageSeries(values: seq<Num>, length: nat): seq<Num>
    requires length >= 1
  {
    HistoryWise(values, h => AveragePoint(h, length))
  }

  method RecursiveAverageSeries(values: seq<Num>, length: nat) returns (out: seq<Num>)
    requires length >= 1
    ensures out == AverageSeries(values, length)
  {
    out := [];
    var previous := 0.0;
    for i := 0 to |values|
      invariant previous == AverageSoFar(values[..i], length)
      invariant |out| == i && forall j | 0 <= j < i :: out[j] == AveragePoint(values[..j + 1], length)
    {
      assert Front(values[..i + 1]) == values[..i];
      if Usable(values[i]) {
        previous := previous + (values[i].value - previous) / length as real;
        out := out + [Fin(previous)];
      } else {
        out := out + [NaN];
      }
    }
  }

  /** What the text says bar i should show, given what bar i - 1 shows. */
  function AsWritten(values: seq<Num>, length: nat, i: nat): Num
    requires length >= 1 && i < |values|
  {
    var previous := if i == 0 || !Usable(AverageSeries(values, length)[i - 1]) then ZERO
        else AverageSeries(values, length)[i - 1];
    Add(previous, Divide(Subtract(values[i], previous), Fin(length as real)))
  }

  /** The loop shows what the text says at bar i exactly when bar i is unusable, or nothing was carried
      over an unusable bar before it, or carrying makes no difference. */
  lemma {:induction false} AverageIsAsWrittenWhen(values: seq<Num>, length: nat, i: nat)
    requires length >= 1 && i < |values|
    ensures AverageSeries(values, length)[i] == AsWritten(values, length, i)
            <==> !Usable(values[i]) || i == 0 || Usable(values[i - 1]) || length == 1
                 || AverageSoFar(values[..i], length) == 0.0
  {
    assert Front(values[..i + 1]) == values[..i];
    var before, n := AverageSoFar(values[..i], length), length as real;
    if i > 0 && Usable(values[i]) {
      var v := values[i].value;
      assert AverageSeries(values, length)[i] == Fin(before + (v - before) / n);
      if !Usable(values[i - 1]) {
        assert AsWritten(values, length, i) == Fin(0.0 + (v - 0.0) / n);
        CarriedShare(before, v, n);
      }
    }
  }

  lemma {:induction false} CarriedShare(before: real, v: real, n: real)
    requires n >= 1.0
    ensures before + (v - before) / n == 0.0 + (v - 0.0) / n <==> n == 1.0 || before == 0.0
  {
    assert (v - before) / n * n == v - before && v / n * n == v;
    if before + (v - before) / n == v / n {
      assert (before + (v - before) / n) * n == before * n + (v - before);
      assert before * (n - 1.0) == 0.0;
    }
  }

  // ----- One bar at a time -----

  function ScalarAt(v: Value, i: nat): (r: Value)
    ensures !Varies(r)
  {
    match v
    case Series(_) => Number(GetAt(v, i))
    case ColorSeries(_) => if ColorAt(v, i) == "" then NaNumber() else Color(ColorAt(v, i))
    case _ => v
  }

  function Earlier(out: seq<Num>, i: nat, k: nat): Num {
    if 0 <= i - k < |out| then out[i - k] else NaN
  }

  function PlaceholderValues(name: string, offsets: set<nat>, out: seq<Num>, i: nat): (m: map<string, Value>)
    ensures forall key <- m :: !Varies(m[key])
    ensures forall k <- offsets :: Placeholder(name, k) in m && m[Placeholder(name, k)] == Number(Earlier(out, i, k))
  {
    assert forall j, k | j in offsets && k in offsets && Placeholder(name, j) == Placeholder(name, k) :: j == k by {
      forall j, k | j in offsets && k in offsets && Placeholder(name, j) == Placeholder(name, k)
        ensures j == k
      {
        PlaceholdersDiffer(name, j, k);
      }
    }
    map k | k in offsets :: Placeholder(name, k) := Number(Earlier(out, i, k))
  }

  /** Bar i alone: its candle, every variable at that bar, and the earlier values asked for. */
  function BarContext(name: string, offsets: set<nat>, ctx: Context, out: seq<Num>, i: nat): (c: Context)
    requires ctx.Valid() && i < ctx.Bars()
    ensures c.Valid() && c.Bars() == 1
  {
    var scalars := map key | key in ctx.variables :: ScalarAt(ctx.variables[key], i);
    Context([ctx.candles[i]],
            scalars[name := ScalarAt(Series(out), i)] + PlaceholderValues(name, offsets, out, i),
            ctx.constants, ctx.print_)
  }

  lemma {:induction false} HistoryOfVariable(y: string, k: nat, ctx: Context)
    requires ctx.Valid() && y in ctx.variables
    ensures Eval(History(Name(y), k), ctx) == Some(Shift(ctx.variables[y], k, ctx.Bars()))
  {
    hide Apply, Shift, ResolveBuiltin, BuiltinName;
    assert Eval(Name(y), ctx) == Some(ctx.variables[y]);
  }

  lemma {:induction false} ShiftAlone(v: Value, k: nat, n: nat, i: nat)
    requires Fits(v, n) && i < n
    ensures var alone, whole := Shift(ScalarAt(v, i), k, 1), Shift(v, k, n);
            && (GetAt(alone, 0) == GetAt(whole, i) <==> k == 0 || i < k || !Usable(GetAt(v, i - k)))
            && (ColorAt(alone, 0) == ColorAt(whole, i) <==> k == 0 || i < k || ColorAt(v, i - k) == "")
  {
  }

  /** A bar alone has no past: y[k] of another variable y is kept exactly when nothing was there k bars earlier. */
  lemma {:induction false} OtherHistoryKeptWhen(name: string, offsets: set<nat>, y: string, k: nat, ctx: Context,
          out: seq<Num>, i: nat)
    requires ctx.Valid() && i < ctx.Bars() && y in ctx.variables && y != name
    requires forall j <- offsets :: Placeholder(name, j) != y
    ensures var alone, whole := Eval(History(Name(y), k), BarContext(name, offsets, ctx, out, i)),
            Eval(History(Name(y), k), ctx);
            && alone.Some? && whole.Some?
            && (GetAt(alone.value, 0) == GetAt(whole.value, i)
                <==> k == 0 || i < k || !Usable(GetAt(ctx.variables[y], i - k)))
            && (ColorAt(alone.value, 0) == ColorAt(whole.value, i)
                <==> k == 0 || i < k || ColorAt(ctx.variables[y], i - k) == "")
  {
    hide Eval, Shift;
    var bar := BarContext(name, offsets, ctx, out, i);
    assert y in bar.variables && bar.variables[y] == ScalarAt(ctx.variables[y], i);
    HistoryOfVariable(y, k, bar);
    HistoryOfVariable(y, k, ctx);
    ShiftAlone(ctx.variables[y], k, ctx.Bars(), i);
  }

  // ----- No look-ahead -----

  lemma {:induction false} BarContextsEqual(name: string, offsets: set<nat>, c1: Context, c2: Context, out: seq<Num>,
          i: nat, k: nat)
    requires SharePast(c1, c2, k) && i < k
    ensures BarContext(name, offsets, c1, out, i) == BarContext(name, offsets, c2, out, i)
  {
    assert c1.candles[i] == c1.candles[..k][i] == c2.candles[..k][i] == c2.candles[i];
    forall key | key in c1.variables
      ensures ScalarAt(c1.variables[key], i) == ScalarAt(c2.variables[key], i)
    {
      AgreePoint(c1.variables[key], c2.variables[key], k, i);
    }
    var s1 := map key | key in c1.variables :: ScalarAt(c1.variables[key], i);
    var s2 := map key | key in c2.variables :: ScalarAt(c2.variables[key], i);
    assert s1 == s2;
  }
}
