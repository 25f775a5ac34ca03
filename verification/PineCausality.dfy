/** No look-ahead in the parser: what a per-bar expression shows at a bar depends on that bar and earlier ones
    only.  Texts that are wholly a request.security() call never reach the parser; see PineScriptCausality. */
module PineCausality {
  import opened Options
  import opened PineNumbers
  import opened PineValues
  import opened Candles
  import opened PineExpressions
  import PineKernels

  /** a and b are of one kind and show the same on the first k bars. */
  predicate Agree(a: Value, b: Value, k: nat) {
    match a
    case Series(s) => b.Series? && k <= |s| && k <= |b.series| && s[..k] == b.series[..k]
    case ColorSeries(s) => b.ColorSeries? && k <= |s| && k <= |b.colors| && s[..k] == b.colors[..k]
    case _ => a == b
  }

  /** Two runs that share their first k candles and everything computed from them.  Runs over at most
      one candle take whole ternary arms, so such a run only compares with another. */
  ghost predicate SharePast(c1: Context, c2: Context, k: nat) {
    && c1.Valid() && c2.Valid()
    && 1 <= k <= c1.Bars() && k <= c2.Bars()
    && (c1.Bars() == 1 <==> c2.Bars() == 1)
    && c1.candles[..k] == c2.candles[..k]
    && c1.print_ == c2.print_
    && c1.constants == c2.constants
    && c1.variables.Keys == c2.variables.Keys
    && forall name <- c1.variables :: Agree(c1.variables[name], c2.variables[name], k)
  }

  predicate WholeSeriesName(b: Builtin) {
    b.LastBarIndexName? || b.LastBarTimeName? || b.IsLastName?
  }

  /** A text operand makes `+`, `==` and `!=` read the other side at the newest bar only. */
  predicate TextMeetsSeries(a: Option<Value>, b: Option<Value>) {
    a.Some? && b.Some? && ((a.value.Text? && b.value.Series?) || (a.value.Series? && b.value.Text?))
  }

  /** No whole-series name, and no text joined or compared with a series. */
  predicate PerBar(e: Expr, ctx: Context)
    requires ctx.Valid()
    decreases e
  {
    match e
    case Name(name) =>
      name in ctx.variables || name in ctx.constants || !WholeSeriesName(BuiltinName(name))
    case Call(_, args) => PerBarArgs(args, ctx)
    case Not(arg) => PerBar(arg, ctx)
    case Neg(arg) => PerBar(arg, ctx)
    case Arith(op, left, right) =>
      && PerBar(left, ctx) && PerBar(right, ctx)
      && !(op == Plus && TextMeetsSeries(Eval(left, ctx), Eval(right, ctx)))
    case Comparison(op, left, right) =>
      && PerBar(left, ctx) && PerBar(right, ctx)
      && !((op == Equal || op == NotEqual) && TextMeetsSeries(Eval(left, ctx), Eval(right, ctx)))
    case Logic(_, left, right) => PerBar(left, ctx) && PerBar(right, ctx)
    case Ternary(condition, whenTrue, whenFalse) =>
      PerBar(condition, ctx) && PerBar(whenTrue, ctx) && PerBar(whenFalse, ctx)
    case History(base, _) => PerBar(base, ctx)
    case _ => true
  }

  predicate PerBarArgs(args: Args, ctx: Context)
    requires ctx.Valid()
    decreases args
  {
    match args
    case NoArgs => true
    case Arg(_, value, rest) => PerBar(value, ctx) && PerBarArgs(rest, ctx)
  }

  // ----- Agreement is kept by every operation -----

  lemma {:induction false} AgreePoint(a: Value, b: Value, k: nat, i: nat)
    requires Agree(a, b, k) && i < k
    ensures GetAt(a, i) == GetAt(b, i) && ColorAt(a, i) == ColorAt(b, i) && TruthyAt(a, i) == TruthyAt(b, i)
  {
  }

  lemma {:induction false} AgreePoints(a: Value, b: Value, k: nat)
    requires Agree(a, b, k)
    ensures forall i | 0 <= i < k ::
              GetAt(a, i) == GetAt(b, i) && ColorAt(a, i) == ColorAt(b, i) && TruthyAt(a, i) == TruthyAt(b, i)
  {
  }

  lemma {:induction false} SeriesAgree(s: seq<Num>, t: seq<Num>, k: nat)
    requires k <= |s| && k <= |t| && forall i | 0 <= i < k :: s[i] == t[i]
    ensures Agree(Series(s), Series(t), k)
  {
  }

  lemma {:induction false} ToSeriesAgree(a: Value, b: Value, k: nat, n1: nat, n2: nat)
    requires Agree(a, b, k) && Fits(a, n1) && Fits(b, n2) && k <= n1 && k <= n2
    ensures ToSeries(a, n1)[..k] == ToSeries(b, n2)[..k]
  {
  }

  lemma {:induction false} ChooseAgree(c1: Value, c2: Value, t1: Value, t2: Value, f1: Value, f2: Value, k: nat,
          n1: nat, n2: nat)
    requires 1 <= k <= n1 && k <= n2 && (n1 == 1 <==> n2 == 1)
    requires Agree(c1, c2, k) && Agree(t1, t2, k) && Agree(f1, f2, k)
    ensures Agree(Choose(c1, t1, f1, n1), Choose(c2, t2, f2, n2), k)
  {
    AgreePoints(c1, c2, k);
    AgreePoints(t1, t2, k);
    AgreePoints(f1, f2, k);
    var r1, r2 := Choose(c1, t1, f1, n1), Choose(c2, t2, f2, n2);
    if n1 > 1 && Varies(c1) {
      if Colored(t1) || Colored(f1) {
        assert r1.colors[..k] == r2.colors[..k];
      } else {
        SeriesAgree(r1.series, r2.series, k);
      }
    }
  }

  lemma {:induction false} ShiftAgree(a: Value, b: Value, offset: nat, k: nat, n1: nat, n2: nat)
    requires k <= n1 && k <= n2 && Agree(a, b, k) && Fits(a, n1) && Fits(b, n2)
    ensures Agree(Shift(a, offset, n1), Shift(b, offset, n2), k)
  {
  }

  lemma {:induction false} CombineAgree(a1: Value, a2: Value, b1: Value, b2: Value, op: ArithOp, k: nat, n1: nat,
          n2: nat, p: Printer)
    requires k <= n1 && k <= n2 && Agree(a1, a2, k) && Agree(b1, b2, k)
    requires !(op == Plus && TextMeetsSeries(Some(a1), Some(b1)))
    ensures Agree(Combine(a1, b1, op, n1, p), Combine(a2, b2, op, n2, p), k)
  {
    AgreePoints(a1, a2, k);
    AgreePoints(b1, b2, k);
    if !(op == Plus && (a1.Text? || b1.Text?)) && !(a1.Number? && b1.Number?) {
      SeriesAgree(Combine(a1, b1, op, n1, p).series, Combine(a2, b2, op, n2, p).series, k);
    }
  }

  lemma {:induction false} CompareAgree(a1: Value, a2: Value, b1: Value, b2: Value, op: CompareOp, k: nat, n1: nat,
          n2: nat, p: Printer)
    requires k <= n1 && k <= n2 && Agree(a1, a2, k) && Agree(b1, b2, k)
    requires !((op == Equal || op == NotEqual) && TextMeetsSeries(Some(a1), Some(b1)))
    ensures Agree(Compare(a1, b1, op, n1, p), Compare(a2, b2, op, n2, p), k)
  {
    AgreePoints(a1, a2, k);
    AgreePoints(b1, b2, k);
    if !ComparesText(a1, b1, op) && !(a1.Number? && b1.Number?) {
      SeriesAgree(Compare(a1, b1, op, n1, p).series, Compare(a2, b2, op, n2, p).series, k);
    }
  }

  lemma {:induction false} LogicalAgree(a1: Value, a2: Value, b1: Value, b2: Value, op: LogicOp, k: nat, n1: nat,
          n2: nat)
    requires 1 <= k <= n1 && k <= n2 && Agree(a1, a2, k) && Agree(b1, b2, k)
    ensures Agree(Logical(a1, b1, op, n1), Logical(a2, b2, op, n2), k)
  {
    AgreePoints(a1, a2, k);
    AgreePoints(b1, b2, k);
    if Varies(a1) || Varies(b1) {
      SeriesAgree(Logical(a1, b1, op, n1).series, Logical(a2, b2, op, n2).series, k);
    }
  }

  lemma {:induction false} UnaryAgree(a: Value, b: Value, k: nat, n1: nat, n2: nat)
    requires 1 <= k <= n1 && k <= n2 && Agree(a, b, k)
    ensures Agree(LogicalNot(a, n1), LogicalNot(b, n2), k)
    ensures Agree(NegateValue(a, n1), NegateValue(b, n2), k)
    ensures Agree(NaValue(a, n1), NaValue(b, n2), k)
    ensures Agree(AbsValue(a, n1), AbsValue(b, n2), k)
  {
    AgreePoints(a, b, k);
    if Varies(a) {
      SeriesAgree(LogicalNot(a, n1).series, LogicalNot(b, n2).series, k);
    }
    if !a.Number? {
      SeriesAgree(NegateValue(a, n1).series, NegateValue(b, n2).series, k);
      SeriesAgree(AbsValue(a, n1).series, AbsValue(b, n2).series, k);
    }
    if a.Series? {
      SeriesAgree(NaValue(a, n1).series, NaValue(b, n2).series, k);
    }
  }

  lemma {:induction false} NzAgree(a1: Value, a2: Value, r1: Value, r2: Value, k: nat, n1: nat, n2: nat)
    requires 1 <= k <= n1 && k <= n2 && Agree(a1, a2, k) && Agree(r1, r2, k)
    ensures Agree(NzValue(a1, r1, n1), NzValue(a2, r2, n2), k)
  {
    AgreePoints(a1, a2, k);
    AgreePoints(r1, r2, k);
    if !a1.Number? {
      SeriesAgree(NzValue(a1, r1, n1).series, NzValue(a2, r2, n2).series, k);
    }
  }

  lemma {:induction false} HistoryWiseAgree(s: seq<Num>, t: seq<Num>, kernel: seq<Num> -> Num, k: nat)
    requires k <= |s| && k <= |t| && s[..k] == t[..k]
    ensures Agree(Series(HistoryWise(s, kernel)), Series(HistoryWise(t, kernel)), k)
  {
    forall i | 0 <= i < k
      ensures HistoryWise(s, kernel)[i] == HistoryWise(t, kernel)[i]
    {
      assert s[..i + 1] == s[..k][..i + 1] == t[..k][..i + 1] == t[..i + 1];
    }
    SeriesAgree(HistoryWise(s, kernel), HistoryWise(t, kernel), k);
  }

  // ----- Names and calls -----

  lemma {:induction false} BuiltinAgree(b: Builtin, c1: seq<Candle>, c2: seq<Candle>, k: nat)
    requires 1 <= k <= |c1| && k <= |c2| && c1[..k] == c2[..k]
    requires !WholeSeriesName(b)
    ensures ResolveBuiltin(b, c1).Some? == ResolveBuiltin(b, c2).Some?
    ensures ResolveBuiltin(b, c1).Some? ==> Agree(ResolveBuiltin(b, c1).value, ResolveBuiltin(b, c2).value, k)
  {
  }

  predicate ArgsAgree(a: seq<CallArg>, b: seq<CallArg>, k: nat) {
    && |a| == |b|
    && forall i | 0 <= i < |a| :: a[i].key == b[i].key && Agree(a[i].value, b[i].value, k)
  }

  lemma {:induction false} NamedAgree(a: seq<CallArg>, b: seq<CallArg>, k: nat, key: string)
    requires ArgsAgree(a, b, k)
    ensures Named(a, key).Some? == Named(b, key).Some?
    ensures Named(a, key).Some? ==> Agree(Named(a, key).value, Named(b, key).value, k)
  {
    if |a| > 0 && a[0].key != key {
      NamedAgree(a[1..], b[1..], k, key);
    }
  }

  lemma {:induction false} LastNamedAgree(a: seq<CallArg>, b: seq<CallArg>, k: nat, key: string, alias: string,
          v: Value, w: Value)
    requires ArgsAgree(a, b, k) && Agree(v, w, k)
    ensures Agree(LastNamed(a, key, alias, v), LastNamed(b, key, alias, w), k)
  {
    if |a| > 0 {
      LastNamedAgree(a[..|a| - 1], b[..|b| - 1], k, key, alias, v, w);
    }
  }

  lemma {:induction false} PeriodAgree(a: Value, b: Value, k: nat)
    requires k >= 1 && Agree(a, b, k)
    ensures Period(a) == Period(b)
  {
  }

  lemma {:induction false} LengthAgree(a: seq<CallArg>, b: seq<CallArg>, k: nat)
    requires k >= 1 && ArgsAgree(a, b, k)
    ensures Length(a) == Length(b)
  {
    NamedAgree(a, b, k, "length");
    PeriodAgree(ByNameOrIndex(a, "length", 1), ByNameOrIndex(b, "length", 1), k);
  }

  lemma {:induction false} ArgSeriesAgree(a: seq<CallArg>, b: seq<CallArg>, k: nat, key: string, index: nat, n1: nat,
          n2: nat)
    requires ArgsAgree(a, b, k) && ArgsFit(a, n1) && ArgsFit(b, n2) && k <= n1 && k <= n2
    ensures ArgSeries(a, key, index, n1)[..k] == ArgSeries(b, key, index, n2)[..k]
  {
    NamedAgree(a, b, k, key);
    ArgumentsFit(a, n1, key, key, index, NaNumber());
    ArgumentsFit(b, n2, key, key, index, NaNumber());
    ToSeriesAgree(ByNameOrIndex(a, key, index), ByNameOrIndex(b, key, index), k, n1, n2);
  }

  lemma {:induction false} PrefixOfPrefix<T>(s: seq<T>, t: seq<T>, k: nat, i: nat)
    requires k <= |s| && k <= |t| && s[..k] == t[..k] && i <= k
    ensures s[..i] == t[..i]
  {
  }

  lemma {:induction false} CrossAgree(a: seq<CallArg>, b: seq<CallArg>, k: nat, n1: nat, n2: nat,
          direction: PineKernels.Direction)
    requires ArgsAgree(a, b, k) && ArgsFit(a, n1) && ArgsFit(b, n2) && k <= n1 && k <= n2
    ensures Agree(CrossCall(a, n1, direction), CrossCall(b, n2, direction), k)
  {
    ArgSeriesAgree(a, b, k, "source1", 0, n1, n2);
    ArgSeriesAgree(a, b, k, "source2", 1, n1, n2);
    var r1, r2 := CrossCall(a, n1, direction).series, CrossCall(b, n2, direction).series;
    forall i | 0 <= i < k
      ensures r1[i] == r2[i]
    {
      PrefixOfPrefix(ArgSeries(a, "source1", 0, n1), ArgSeries(b, "source1", 0, n2), k, i + 1);
      PrefixOfPrefix(ArgSeries(a, "source2", 1, n1), ArgSeries(b, "source2", 1, n2), k, i + 1);
    }
    SeriesAgree(r1, r2, k);
  }

  lemma {:induction false} SourceAgree(c1: seq<Candle>, c2: seq<Candle>, k: nat, field: Field)
    requires 1 <= k <= |c1| && k <= |c2| && c1[..k] == c2[..k]
    ensures SourceSeries(c1, field)[..k] == SourceSeries(c2, field)[..k]
  {
  }

  lemma {:induction false} VwmaAgree(a: seq<CallArg>, b: seq<CallArg>, c1: seq<Candle>, c2: seq<Candle>, k: nat)
    requires 1 <= k <= |c1| && k <= |c2| && c1[..k] == c2[..k]
    requires ArgsAgree(a, b, k) && ArgsFit(a, |c1|) && ArgsFit(b, |c2|)
    ensures Agree(VwmaCall(a, c1), VwmaCall(b, c2), k)
  {
    ArgSeriesAgree(a, b, k, "source", 0, |c1|, |c2|);
    SourceAgree(c1, c2, k, Volume);
    LengthAgree(a, b, k);
    var r1, r2 := VwmaCall(a, c1).series, VwmaCall(b, c2).series;
    forall i | 0 <= i < k
      ensures r1[i] == r2[i]
    {
      PrefixOfPrefix(ArgSeries(a, "source", 0, |c1|), ArgSeries(b, "source", 0, |c2|), k, i + 1);
      PrefixOfPrefix(SourceSeries(c1, Volume), SourceSeries(c2, Volume), k, i + 1);
    }
    SeriesAgree(r1, r2, k);
  }

  lemma {:induction false} VwapAgree(a: seq<CallArg>, b: seq<CallArg>, c1: seq<Candle>, c2: seq<Candle>, k: nat)
    requires 1 <= k <= |c1| && k <= |c2| && c1[..k] == c2[..k]
    requires ArgsAgree(a, b, k) && ArgsFit(a, |c1|) && ArgsFit(b, |c2|)
    ensures Agree(VwapCall(a, c1), VwapCall(b, c2), k)
  {
    ArgSeriesAgree(a, b, k, "source", 0, |c1|, |c2|);
    var r1, r2 := VwapCall(a, c1).series, VwapCall(b, c2).series;
    forall i | 0 <= i < k
      ensures r1[i] == r2[i]
    {
      PrefixOfPrefix(ArgSeries(a, "source", 0, |c1|), ArgSeries(b, "source", 0, |c2|), k, i + 1);
      PrefixOfPrefix(c1, c2, k, i + 1);
    }
    SeriesAgree(r1, r2, k);
  }

  lemma {:induction false} PivotStrengthAgree(a: seq<CallArg>, b: seq<CallArg>, k: nat, key: string, alias: string,
          place: nat)
    requires k >= 1 && ArgsAgree(a, b, k)
    ensures PivotStrength(a, key, alias, place) == PivotStrength(b, key, alias, place)
  {
    var v, w := LastNamed(a, key, alias, Number(ONE)), LastNamed(b, key, alias, Number(ONE));
    LastNamedAgree(a, b, k, key, alias, Number(ONE), Number(ONE));
    PeriodAgree(v, w, k);
    PeriodAgree(Positional(a, place, v), Positional(b, place, w), k);
    PeriodAgree(Positional(a, place + 1, v), Positional(b, place + 1, w), k);
  }

  lemma {:induction false} PivotAgree(a: seq<CallArg>, b: seq<CallArg>, c1: seq<Candle>, c2: seq<Candle>, k: nat,
          field: Field, kind: PineKernels.PivotKind)
    requires 1 <= k <= |c1| && k <= |c2| && c1[..k] == c2[..k]
    requires ArgsAgree(a, b, k) && ArgsFit(a, |c1|) && ArgsFit(b, |c2|)
    ensures Agree(PivotCall(a, c1, field, kind), PivotCall(b, c2, field, kind), k)
  {
    PivotStrengthAgree(a, b, k, "leftbars", "left", 0);
    PivotStrengthAgree(a, b, k, "rightbars", "right", 1);
    SourceAgree(c1, c2, k, field);
    var d1, d2 := Series(SourceSeries(c1, field)), Series(SourceSeries(c2, field));
    LastNamedAgree(a, b, k, "source", "source", d1, d2);
    LastNamedFits(a, |c1|, "source", "source", d1);
    LastNamedFits(b, |c2|, "source", "source", d2);
    ToSeriesAgree(PivotSource(a, d1), PivotSource(b, d2), k, |c1|, |c2|);
    var left, right := PivotStrength(a, "leftbars", "left", 0), PivotStrength(a, "rightbars", "right", 1);
    HistoryWiseAgree(PivotValues(a, c1, field), PivotValues(b, c2, field),
                     h => PineKernels.ConfirmedPivot(h, left, right, kind), k);
  }

  lemma {:induction false} ReduceAgree(a: seq<Value>, b: seq<Value>, i: nat, k: nat, wantMaximum: bool)
    requires 0 < |a| == |b| && i < k && forall j | 0 <= j < |a| :: Agree(a[j], b[j], k)
    ensures ReduceAt(a, i, wantMaximum) == ReduceAt(b, i, wantMaximum)
  {
    AgreePoint(a[|a| - 1], b[|b| - 1], k, i);
    if |a| > 1 {
      ReduceAgree(a[..|a| - 1], b[..|b| - 1], i, k, wantMaximum);
    }
  }

  lemma {:induction false} ReduceValuesAgree(a: seq<Value>, b: seq<Value>, k: nat, n1: nat, n2: nat, wantMaximum: bool)
    requires 1 <= k <= n1 && k <= n2 && |a| == |b| && forall j | 0 <= j < |a| :: Agree(a[j], b[j], k)
    ensures Agree(ReduceValues(a, n1, wantMaximum), ReduceValues(b, n2, wantMaximum), k)
  {
    if |a| > 0 {
      forall i | 0 <= i < k
        ensures ReduceAt(a, i, wantMaximum) == ReduceAt(b, i, wantMaximum)
      {
        ReduceAgree(a, b, i, k, wantMaximum);
      }
      assert AllNumbers(a) == AllNumbers(b) by {
        assert forall j | 0 <= j < |a| :: Agree(a[j], b[j], k) ==> a[j].Number? == b[j].Number?;
      }
      if !AllNumbers(a) {
        SeriesAgree(ReduceValues(a, n1, wantMaximum).series, ReduceValues(b, n2, wantMaximum).series, k);
      }
    }
  }

  lemma {:induction false} SimpleCallAgree(fn: Function, a: seq<CallArg>, b: seq<CallArg>, c1: seq<Candle>,
          c2: seq<Candle>, k: nat)
    requires 1 <= k <= |c1| && k <= |c2| && c1[..k] == c2[..k]
    requires ArgsAgree(a, b, k) && ArgsFit(a, |c1|) && ArgsFit(b, |c2|)
    requires fn in {SecurityFn, InputFn, NaFn, NzFn, AbsFn, MaxFn, MinFn}
    ensures Agree(Apply(fn, a, c1).value, Apply(fn, b, c2).value, k)
  {
    match fn
    case InputFn => NamedAgree(a, b, k, "defval");
    case NaFn =>
      if |a| > 0 {
        UnaryAgree(a[0].value, b[0].value, k, |c1|, |c2|);
      }
    case NzFn =>
      if |a| > 0 {
        NzAgree(a[0].value, b[0].value, if |a| > 1 then a[1].value else Number(ZERO),
                if |a| > 1 then b[1].value else Number(ZERO), k, |c1|, |c2|);
      }
    case AbsFn =>
      NamedAgree(a, b, k, "");
      UnaryAgree(ByNameOrIndex(a, "", 0), ByNameOrIndex(b, "", 0), k, |c1|, |c2|);
    case MaxFn => ReduceValuesAgree(ArgValues(a), ArgValues(b), k, |c1|, |c2|, true);
    case MinFn => ReduceValuesAgree(ArgValues(a), ArgValues(b), k, |c1|, |c2|, false);
    case SecurityFn =>
  }

  lemma {:induction false} CallAgree(fn: Function, a: seq<CallArg>, b: seq<CallArg>, c1: seq<Candle>, c2: seq<Candle>,
          k: nat)
    requires 1 <= k <= |c1| && k <= |c2| && c1[..k] == c2[..k]
    requires ArgsAgree(a, b, k) && ArgsFit(a, |c1|) && ArgsFit(b, |c2|)
    ensures Apply(fn, a, c1).Some? == Apply(fn, b, c2).Some?
    ensures Apply(fn, a, c1).Some? ==> Agree(Apply(fn, a, c1).value, Apply(fn, b, c2).value, k)
  {
    hide CrossCall, PivotCall, VwmaCall, VwapCall, NaValue, NzValue, AbsValue, ReduceValues, Agree;
    if fn in {SecurityFn, InputFn, NaFn, NzFn, AbsFn, MaxFn, MinFn} {
      SimpleCallAgree(fn, a, b, c1, c2, k);
    } else if fn.CrossoverFn? {
      CrossAgree(a, b, k, |c1|, |c2|, PineKernels.Upward);
    } else if fn.CrossunderFn? {
      CrossAgree(a, b, k, |c1|, |c2|, PineKernels.Downward);
    } else if fn.PivotHighFn? {
      PivotAgree(a, b, c1, c2, k, High, PineKernels.PivotHigh);
    } else if fn.PivotLowFn? {
      PivotAgree(a, b, c1, c2, k, Low, PineKernels.PivotLow);
    } else if fn.VwmaFn? {
      VwmaAgree(a, b, c1, c2, k);
    } else if fn.VwapFn? {
      VwapAgree(a, b, c1, c2, k);
    } else if !fn.UnsupportedFn? {
      AverageCallAgree(fn, a, b, c1, c2, k);
    }
  }

  lemma {:induction false} AverageCallAgree(fn: Function, a: seq<CallArg>, b: seq<CallArg>, c1: seq<Candle>,
          c2: seq<Candle>, k: nat)
    requires 1 <= k <= |c1| && k <= |c2| && c1[..k] == c2[..k]
    requires ArgsAgree(a, b, k) && ArgsFit(a, |c1|) && ArgsFit(b, |c2|)
    requires fn in {SmaFn, EmaFn, RmaFn, WmaFn, HmaFn, RsiFn, ChangeFn}
    ensures Agree(Apply(fn, a, c1).value, Apply(fn, b, c2).value, k)
  {
    ArgSeriesAgree(a, b, k, "source", 0, |c1|, |c2|);
    LengthAgree(a, b, k);
    if fn.ChangeFn? {
      var length := if |a| > 1 then Length(a) else 1;
      HistoryWiseAgree(ArgSeries(a, "source", 0, |c1|), ArgSeries(b, "source", 0, |c2|),
                       h => PineKernels.Change(h, length), k);
    } else {
      HistoryWiseAgree(ArgSeries(a, "source", 0, |c1|), ArgSeries(b, "source", 0, |c2|), AverageKernel(fn, Length(a)),
                       k);
    }
  }

  // ----- The theorem -----

  /** Runs that share their first k candles evaluate a per-bar expression to values that agree on those k bars. */
  lemma {:induction false} NoLookAhead(e: Expr, c1: Context, c2: Context, k: nat)
    requires SharePast(c1, c2, k) && PerBar(e, c1)
    ensures Eval(e, c1).Some? == Eval(e, c2).Some?
    ensures Eval(e, c1).Some? ==> Agree(Eval(e, c1).value, Eval(e, c2).value, k)
    decreases e
  {
    hide Apply, FunctionName, Combine, Compare, Logical, LogicalNot, NegateValue, Choose, Shift, ResolveBuiltin,
         BuiltinName;
    var n1, n2 := c1.Bars(), c2.Bars();
    match e
    case NumberLit(_) =>
    case TextLit(_) =>
    case ColorLit(_) =>
    case Name(name) =>
      if name !in c1.variables && name !in c1.constants {
        BuiltinAgree(BuiltinName(name), c1.candles, c2.candles, k);
      }
    case Call(fn, args) =>
      NoLookAheadArgs(args, c1, c2, k);
      if EvalArgs(args, c1).Some? {
        CallAgree(FunctionName(fn), EvalArgs(args, c1).value, EvalArgs(args, c2).value, c1.candles, c2.candles, k);
      }
    case Not(arg) =>
      NoLookAhead(arg, c1, c2, k);
      if Eval(arg, c1).Some? {
        UnaryAgree(Eval(arg, c1).value, Eval(arg, c2).value, k, n1, n2);
      }
    case Neg(arg) =>
      NoLookAhead(arg, c1, c2, k);
      if Eval(arg, c1).Some? {
        UnaryAgree(Eval(arg, c1).value, Eval(arg, c2).value, k, n1, n2);
      }
    case Ternary(condition, whenTrue, whenFalse) =>
      NoLookAhead(condition, c1, c2, k);
      NoLookAhead(whenTrue, c1, c2, k);
      NoLookAhead(whenFalse, c1, c2, k);
      if Eval(e, c1).Some? {
        ChooseAgree(Eval(condition, c1).value, Eval(condition, c2).value, Eval(whenTrue, c1).value,
                    Eval(whenTrue, c2).value,
                    Eval(whenFalse, c1).value, Eval(whenFalse, c2).value, k, n1, n2);
      }
    case History(base, offset) =>
      NoLookAhead(base, c1, c2, k);
      if Eval(base, c1).Some? {
        ShiftAgree(Eval(base, c1).value, Eval(base, c2).value, offset, k, n1, n2);
      }
    case _ =>
      NoLookAhead(e.left, c1, c2, k);
      NoLookAhead(e.right, c1, c2, k);
      if Eval(e.left, c1).Some? && Eval(e.right, c1).Some? {
        BinaryAgree(e, c1, c2, k);
      }
  }

  lemma {:induction false} BinaryAgree(e: Expr, c1: Context, c2: Context, k: nat)
    requires SharePast(c1, c2, k) && PerBar(e, c1)
    requires e.Arith? || e.Comparison? || e.Logic?
    requires Eval(e.left, c1).Some? && Eval(e.left, c2).Some?
             && Agree(Eval(e.left, c1).value, Eval(e.left, c2).value, k)
    requires Eval(e.right, c1).Some? && Eval(e.right, c2).Some?
             && Agree(Eval(e.right, c1).value, Eval(e.right, c2).value, k)
    ensures Eval(e, c1).Some? && Eval(e, c2).Some? && Agree(Eval(e, c1).value, Eval(e, c2).value, k)
  {
    hide Apply, FunctionName, Combine, Compare, Logical, LogicalNot, NegateValue, Choose, Shift, ResolveBuiltin,
         BuiltinName;
    var n1, n2, p := c1.Bars(), c2.Bars(), c1.print_;
    var a1, a2, b1, b2 := Eval(e.left, c1).value, Eval(e.left, c2).value, Eval(e.right, c1).value,
        Eval(e.right, c2).value;
    match e
    case Arith(op, _, _) => CombineAgree(a1, a2, b1, b2, op, k, n1, n2, p);
    case Comparison(op, _, _) => CompareAgree(a1, a2, b1, b2, op, k, n1, n2, p);
    case Logic(op, _, _) => LogicalAgree(a1, a2, b1, b2, op, k, n1, n2);
  }

  lemma {:induction false} NoLookAheadArgs(args: Args, c1: Context, c2: Context, k: nat)
    requires SharePast(c1, c2, k) && PerBarArgs(args, c1)
    ensures EvalArgs(args, c1).Some? == EvalArgs(args, c2).Some?
    ensures EvalArgs(args, c1).Some? ==> ArgsAgree(EvalArgs(args, c1).value, EvalArgs(args, c2).value, k)
    decreases args
  {
    hide Apply, FunctionName, Combine, Compare, Logical, LogicalNot, NegateValue, Choose, Shift, ResolveBuiltin,
         BuiltinName;
    match args
    case NoArgs =>
    case Arg(key, value, rest) =>
      NoLookAhead(value, c1, c2, k);
      NoLookAheadArgs(rest, c1, c2, k);
  }

  // ----- Cutting the future off -----

  function Cut(v: Value, k: nat): Value {
    match v
    case Series(s) => Series(if k <= |s| then s[..k] else s)
    case ColorSeries(s) => ColorSeries(if k <= |s| then s[..k] else s)
    case _ => v
  }

  /** The run that has only seen the first k candles. */
  function CutContext(ctx: Context, k: nat): (c: Context)
    requires ctx.Valid() && k <= ctx.Bars()
    ensures c.Valid() && c.Bars() == k
  {
    ctx.(candles := ctx.candles[..k], variables := map name | name in ctx.variables :: Cut(ctx.variables[name], k))
  }

  /** Evaluating on the first k >= 2 candles is evaluating on all of them and keeping k bars. */
  lemma {:induction false} PrefixStable(e: Expr, ctx: Context, k: nat)
    requires ctx.Valid() && 2 <= k <= ctx.Bars() && PerBar(e, ctx)
    ensures Eval(e, CutContext(ctx, k)).Some? == Eval(e, ctx).Some?
    ensures Eval(e, ctx).Some? ==> Eval(e, CutContext(ctx, k)).value == Cut(Eval(e, ctx).value, k)
  {
    NoLookAhead(e, ctx, CutContext(ctx, k), k);
  }

  // ----- Where it fails, and exactly when -----

  /** Text joined with a series shows the newest bar, so cutting the future leaves it alone exactly when the cut's
      newest bar prints the same. */
  lemma {:induction false} TextJoinStableWhen(t: string, s: seq<Num>, k: nat, p: Printer)
    requires 1 <= k <= |s|
    ensures var same := StringAt(Series(s), k - 1, p) == StringAt(Series(s), |s| - 1, p);
            && (Combine(Text(t), Series(s[..k]), Plus, k, p) == Combine(Text(t), Series(s), Plus, |s|, p) <==> same)
            && (Combine(Series(s[..k]), Text(t), Plus, k, p) == Combine(Series(s), Text(t), Plus, |s|, p) <==> same)
  {
    var a, b := StringAt(Series(s), k - 1, p), StringAt(Series(s), |s| - 1, p);
    assert StringAt(Series(s[..k]), k - 1, p) == a;
    if t + a == t + b {
      assert a == (t + a)[|t|..] == (t + b)[|t|..] == b;
    }
    if a + t == b + t {
      assert |a| == |b|;
      assert a == (a + t)[..|a|] == (b + t)[..|b|] == b;
    }
  }

  /** Text compared with a series reads the newest bar too: the answer stands exactly when the cut's newest bar
      is as equal to the text as the full run's. */
  lemma {:induction false} TextCompareStableWhen(t: string, s: seq<Num>, k: nat, op: CompareOp, p: Printer)
    requires 1 <= k <= |s| && (op == Equal || op == NotEqual)
    ensures var same := (StringAt(Series(s), k - 1, p) == t) == (StringAt(Series(s), |s| - 1, p) == t);
            && (Compare(Text(t), Series(s[..k]), op, k, p) == Compare(Text(t), Series(s), op, |s|, p) <==> same)
            && (Compare(Series(s[..k]), Text(t), op, k, p) == Compare(Series(s), Text(t), op, |s|, p) <==> same)
  {
    assert StringAt(Series(s[..k]), k - 1, p) == StringAt(Series(s), k - 1, p);
  }

  /** The three excluded names always look ahead: no cut run shows what the full run shows at its newest bar. */
  lemma {:induction false} WholeSeriesNamesLookAhead(b: Builtin, cs: seq<Candle>, k: nat)
    requires WholeSeriesName(b) && Ascending(cs) && 1 <= k < |cs|
    ensures ResolveBuiltin(b, cs).Some? && ResolveBuiltin(b, cs[..k]).Some?
    ensures GetAt(ResolveBuiltin(b, cs[..k]).value, k - 1) != GetAt(ResolveBuiltin(b, cs).value, k - 1)
  {
  }

  /** Why k >= 2: over one candle a ternary keeps its whole arm, over two it becomes a series. */
  lemma {:induction false} OneCandleRunsDiffer(cs: seq<Candle>, p: Printer)
    requires |cs| >= 2
    ensures var e := Ternary(Name("close"), TextLit("up"), TextLit("up"));
            var ctx := Context(cs, map[], map[], p);
            && Eval(e, CutContext(ctx, 1)) == Some(Text("up"))
            && Eval(e, ctx).Some? && Eval(e, ctx).value.Series?
  {
    var ctx := Context(cs, map[], map[], p);
    assert Eval(Name("close"), ctx) == Some(Series(SourceSeries(cs, Close)));
    assert Eval(Name("close"), CutContext(ctx, 1)) == Some(Series(SourceSeries(cs[..1], Close)));
  }
}
