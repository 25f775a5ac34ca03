/** Expressions of the vector evaluator and their meaning over a whole candle series. */
module PineExpressions {
  import opened Options
  import opened PineNumbers
  import opened PineValues
  import opened Candles
  import PineKernels

  datatype Expr =
    | NumberLit(r: real)
    | TextLit(t: string)
    | ColorLit(c: string)
    | Name(name: string)
    | Call(fn: string, args: Args)
    | Not(arg: Expr)
    | Neg(arg: Expr)
    | Arith(aop: ArithOp, left: Expr, right: Expr)
    | Comparison(cop: CompareOp, left: Expr, right: Expr)
    | Logic(lop: LogicOp, left: Expr, right: Expr)
    | Ternary(condition: Expr, whenTrue: Expr, whenFalse: Expr)
    | History(base: Expr, offset: nat)

  /** Call arguments; an empty key is a positional argument. */
  datatype Args = NoArgs | Arg(key: string, value: Expr, rest: Args)

  datatype CallArg = CallArg(key: string, value: Value)

  /** What an expression is evaluated against.  `constants` are the colour, style and symbol names;
      no constant varies from bar to bar. */
  datatype Context = Context(candles: seq<Candle>, variables: map<string, Value>, constants: map<string, Value>,
          print_: Printer)
  {
    function Bars(): nat {
      |candles|
    }

    predicate Valid() {
      && (forall name <- variables :: Fits(variables[name], Bars()))
      && (forall name <- constants :: !Varies(constants[name]))
    }
  }

  // ----- Names -----

  datatype Field = Open | High | Low | Close | Volume | Time

  datatype Builtin =
    | SourceName(field: Field)
    | AverageName(fields: seq<Field>)
    | BarIndexName
    | LastBarIndexName
    | LastBarTimeName
    | IsLastName
    | IsFirstName
    | IsHistoryName
    | IsRealtimeName
    | TrueName
    | FalseName
    | NaName
    | UnknownName

  function BuiltinName(name: string): Builtin {
    match name
    case "open" => SourceName(Open)
    case "high" => SourceName(High)
    case "low" => SourceName(Low)
    case "close" => SourceName(Close)
    case "volume" => SourceName(Volume)
    case "time" => SourceName(Time)
    case "hl2" => AverageName([High, Low])
    case "hlc3" => AverageName([High, Low, Close])
    case "ohlc4" => AverageName([Open, High, Low, Close])
    case "hlcc4" => AverageName([High, Low, Close, Close])
    case "bar_index" => BarIndexName
    case "last_bar_index" => LastBarIndexName
    case "last_bar_time" => LastBarTimeName
    case "barstate.islast" => IsLastName
    case "barstate.isfirst" => IsFirstName
    case "barstate.isconfirmed" => IsHistoryName
    case "barstate.ishistory" => IsHistoryName
    case "barstate.isrealtime" => IsRealtimeName
    case "true" => TrueName
    case "false" => FalseName
    case "na" => NaName
    case _ => UnknownName
  }

  function FieldOf(c: Candle, field: Field): real {
    match field
    case Open => c.open
    case High => c.high
    case Low => c.low
    case Close => c.close
    case Volume => c.volume
    case Time => c.time as real
  }

  function FieldTotal(c: Candle, fields: seq<Field>): real {
    if |fields| == 0 then 0.0
    else FieldTotal(c, fields[..|fields| - 1]) + FieldOf(c, fields[|fields| - 1])
  }

  function FieldAverage(c: Candle, fields: seq<Field>): Num {
    if |fields| == 0 then NaN else Fin(FieldTotal(c, fields) / |fields| as real)
  }

  function SourceSeries(candles: seq<Candle>, field: Field): seq<Num> {
    seq(|candles|, i requires 0 <= i < |candles| => Fin(FieldOf(candles[i], field)))
  }

  function NewestBarFlags(n: nat): (flags: seq<Num>)
    ensures |flags| == n && forall i | 0 <= i < n :: flags[i] == Flag(i == n - 1)
  {
    seq(n, i => Flag(i == n - 1))
  }

  function ResolveBuiltin(b: Builtin, candles: seq<Candle>): Option<Value> {
    var n := |candles|;
    match b
    case SourceName(field) => Some(Series(SourceSeries(candles, field)))
    case AverageName(fields) =>
      Some(Series(seq(n, i requires 0 <= i < n => FieldAverage(candles[i], fields))))
    case BarIndexName => Some(Series(seq(n, i => Fin(i as real))))
    case LastBarIndexName => Some(Number(Fin(if n == 0 then 0.0 else (n - 1) as real)))
    case LastBarTimeName => Some(Number(if n == 0 then NaN else Fin(candles[n - 1].time as real)))
    case IsLastName => Some(Series(NewestBarFlags(n)))
    case IsFirstName => Some(Series(seq(n, i => Flag(i == 0))))
    case IsHistoryName => Some(Series(seq(n, i => ONE)))
    case IsRealtimeName => Some(Bool(false))
    case TrueName => Some(Bool(true))
    case FalseName => Some(Bool(false))
    case NaName => Some(NaNumber())
    case UnknownName => None
  }

  function Resolve(name: string, ctx: Context): Option<Value> {
    if name in ctx.variables then Some(ctx.variables[name])
    else if name in ctx.constants then Some(ctx.constants[name])
    else ResolveBuiltin(BuiltinName(name), ctx.candles)
  }

  // ----- Calls -----

  datatype Function =
    | SecurityFn | InputFn | NaFn | NzFn | AbsFn | MaxFn | MinFn
    | SmaFn | EmaFn | RmaFn | WmaFn | HmaFn | VwmaFn | VwapFn | RsiFn | ChangeFn
    | CrossoverFn | CrossunderFn | PivotHighFn | PivotLowFn | UnsupportedFn

  function FunctionName(name: string): Function {
    match name
    case "request.security" => SecurityFn
    case "input" => InputFn
    case "input.int" => InputFn
    case "input.float" => InputFn
    case "input.source" => InputFn
    case "input.bool" => InputFn
    case "input.color" => InputFn
    case "input.string" => InputFn
    case "input.text_area" => InputFn
    case "input.timeframe" => InputFn
    case "input.symbol" => InputFn
    case "input.session" => InputFn
    case "na" => NaFn
    case "nz" => NzFn
    case "math.abs" => AbsFn
    case "abs" => AbsFn
    case "math.max" => MaxFn
    case "max" => MaxFn
    case "math.min" => MinFn
    case "min" => MinFn
    case "ta.sma" => SmaFn
    case "sma" => SmaFn
    case "ta.ema" => EmaFn
    case "ema" => EmaFn
    case "ta.rma" => RmaFn
    case "rma" => RmaFn
    case "ta.wma" => WmaFn
    case "wma" => WmaFn
    case "ta.hma" => HmaFn
    case "hma" => HmaFn
    case "ta.vwma" => VwmaFn
    case "vwma" => VwmaFn
    case "ta.vwap" => VwapFn
    case "vwap" => VwapFn
    case "ta.rsi" => RsiFn
    case "rsi" => RsiFn
    case "ta.change" => ChangeFn
    case "change" => ChangeFn
    case "ta.crossover" => CrossoverFn
    case "crossover" => CrossoverFn
    case "ta.crossunder" => CrossunderFn
    case "crossunder" => CrossunderFn
    case "ta.pivothigh" => PivotHighFn
    case "pivothigh" => PivotHighFn
    case "ta.pivotlow" => PivotLowFn
    case "pivotlow" => PivotLowFn
    case _ => UnsupportedFn
  }

  /** The first argument under a key. */
  function Named(args: seq<CallArg>, key: string): Option<Value> {
    if |args| == 0 then None
    else if args[0].key == key then Some(args[0].value)
    else Named(args[1..], key)
  }

  /** The last argument under either key, else `otherwise`. */
  function LastNamed(args: seq<CallArg>, key: string, alias: string, otherwise: Value): Value {
    if |args| == 0 then otherwise
    else
      var a := args[|args| - 1];
      if a.key == key || a.key == alias then a.value
      else LastNamed(args[..|args| - 1], key, alias, otherwise)
  }

  function ByNameOrIndex(args: seq<CallArg>, key: string, index: nat): Value {
    match Named(args, key)
    case Some(v) => v
    case None => if index < |args| then args[index].value else NaNumber()
  }

  function Positional(args: seq<CallArg>, index: nat, otherwise: Value): Value {
    if index < |args| && args[index].key == "" then args[index].value else otherwise
  }

  /** Both pivot signatures: (source, left, right) and (left, right), with named overrides. */
  function PivotSource(args: seq<CallArg>, byDefault: Value): Value {
    var named := LastNamed(args, "source", "source", byDefault);
    if |args| >= 3 then Positional(args, 0, named) else named
  }

  function PivotStrength(args: seq<CallArg>, key: string, alias: string, place: nat): nat {
    var named := LastNamed(args, key, alias, Number(ONE));
    Period(if |args| >= 3 then Positional(args, place + 1, named)
           else if |args| >= 2 then Positional(args, place, named)
           else named)
  }

  predicate ArgsFit(args: seq<CallArg>, n: nat) {
    forall k | 0 <= k < |args| :: Fits(args[k].value, n)
  }

  lemma {:induction false} ArgumentsFit(args: seq<CallArg>, n: nat, key: string, alias: string, index: nat, v: Value)
    requires ArgsFit(args, n) && Fits(v, n)
    ensures Fits(ByNameOrIndex(args, key, index), n)
    ensures Fits(LastNamed(args, key, alias, v), n)
    ensures Fits(Positional(args, index, v), n)
    ensures Named(args, key).Some? ==> Fits(Named(args, key).value, n)
  {
    NamedFits(args, n, key);
    LastNamedFits(args, n, key, alias, v);
  }

  lemma {:induction false} NamedFits(args: seq<CallArg>, n: nat, key: string)
    requires ArgsFit(args, n)
    ensures Named(args, key).Some? ==> Fits(Named(args, key).value, n)
  {
    if |args| > 0 && args[0].key != key {
      NamedFits(args[1..], n, key);
    }
  }

  lemma {:induction false} LastNamedFits(args: seq<CallArg>, n: nat, key: string, alias: string, v: Value)
    requires ArgsFit(args, n) && Fits(v, n)
    ensures Fits(LastNamed(args, key, alias, v), n)
  {
    if |args| > 0 {
      LastNamedFits(args[..|args| - 1], n, key, alias, v);
    }
  }

  /** An indicator applied to every history of a series. */
  function HistoryWise(values: seq<Num>, k: seq<Num> -> Num): (out: seq<Num>)
    ensures PineKernels.IsHistoryWise(out, values, k)
  {
    seq(|values|, i requires 0 <= i < |values| => k(values[..i + 1]))
  }

  function ArgSeries(args: seq<CallArg>, key: string, index: nat, n: nat): (s: seq<Num>)
    requires ArgsFit(args, n)
    ensures |s| == n
  {
    ArgumentsFit(args, n, key, key, index, NaNumber());
    ToSeries(ByNameOrIndex(args, key, index), n)
  }

  function Length(args: seq<CallArg>): (p: nat)
    ensures p >= 1
  {
    Period(ByNameOrIndex(args, "length", 1))
  }

  function CrossCall(args: seq<CallArg>, n: nat, direction: PineKernels.Direction): Value
    requires ArgsFit(args, n)
  {
    var left := ArgSeries(args, "source1", 0, n);
    var right := ArgSeries(args, "source2", 1, n);
    Series(seq(n, i requires 0 <= i < n => PineKernels.Cross(left[..i + 1], right[..i + 1], direction)))
  }

  function PivotValues(args: seq<CallArg>, candles: seq<Candle>, field: Field): (s: seq<Num>)
    requires ArgsFit(args, |candles|)
    ensures |s| == |candles|
  {
    ArgumentsFit(args, |candles|, "source", "source", 0, Series(SourceSeries(candles, field)));
    ArgumentsFit(args, |candles|, "source", "source", 0,
                 LastNamed(args, "source", "source", Series(SourceSeries(candles, field))));
    ToSeries(PivotSource(args, Series(SourceSeries(candles, field))), |candles|)
  }

  function PivotCall(args: seq<CallArg>, candles: seq<Candle>, field: Field, kind: PineKernels.PivotKind): Value
    requires ArgsFit(args, |candles|)
  {
    var left := PivotStrength(args, "leftbars", "left", 0);
    var right := PivotStrength(args, "rightbars", "right", 1);
    Series(HistoryWise(PivotValues(args, candles, field), h => PineKernels.ConfirmedPivot(h, left, right, kind)))
  }

  function VwmaCall(args: seq<CallArg>, candles: seq<Candle>): Value
    requires ArgsFit(args, |candles|)
  {
    var n := |candles|;
    var values, volumes, length := ArgSeries(args, "source", 0, n), SourceSeries(candles, Volume), Length(args);
    Series(seq(n, i requires 0 <= i < n => PineKernels.Vwma(values[..i + 1], volumes[..i + 1], length)))
  }

  function VwapCall(args: seq<CallArg>, candles: seq<Candle>): Value
    requires ArgsFit(args, |candles|)
  {
    var n := |candles|;
    var values := ArgSeries(args, "source", 0, n);
    Series(seq(n, i requires 0 <= i < n => PineKernels.Vwap(values[..i + 1], candles[..i + 1])))
  }

  function ArgValues(args: seq<CallArg>): seq<Value> {
    seq(|args|, i requires 0 <= i < |args| => args[i].value)
  }

  function Apply(fn: Function, args: seq<CallArg>, candles: seq<Candle>): (r: Option<Value>)
    requires ArgsFit(args, |candles|)
    ensures r.Some? ==> Fits(r.value, |candles|)
  {
    var n := |candles|;
    match fn
    // a request inside a larger text
    case SecurityFn => Some(if |args| >= 3 then args[2].value else NaNumber())
    case InputFn =>
      NamedFits(args, n, "defval");
      Some(match Named(args, "defval")
           case Some(v) => v
           case None => if |args| > 0 then args[0].value else Number(ZERO))
    case NaFn => Some(if |args| == 0 then Bool(true) else NaValue(args[0].value, n))
    case NzFn =>
      var fallback := if |args| > 1 then args[1].value else Number(ZERO);
      Some(if |args| == 0 then fallback else NzValue(args[0].value, fallback, n))
    case AbsFn => Some(AbsValue(ByNameOrIndex(args, "", 0), n))
    case MaxFn => Some(ReduceValues(ArgValues(args), n, true))
    case MinFn => Some(ReduceValues(ArgValues(args), n, false))
    case ChangeFn =>
      var length := if |args| > 1 then Length(args) else 1;
      Some(Series(HistoryWise(ArgSeries(args, "source", 0, n), h => PineKernels.Change(h, length))))
    case CrossoverFn => Some(CrossCall(args, n, PineKernels.Upward))
    case CrossunderFn => Some(CrossCall(args, n, PineKernels.Downward))
    case PivotHighFn => Some(PivotCall(args, candles, High, PineKernels.PivotHigh))
    case PivotLowFn => Some(PivotCall(args, candles, Low, PineKernels.PivotLow))
    case VwmaFn => Some(VwmaCall(args, candles))
    case VwapFn => Some(VwapCall(args, candles))
    case UnsupportedFn => None
    case _ => Some(Series(HistoryWise(ArgSeries(args, "source", 0, n), AverageKernel(fn, Length(args)))))
  }

  /** The one-series, one-length indicators. */
  function AverageKernel(fn: Function, length: nat): seq<Num> -> Num
    requires length >= 1
  {
    match fn
    case EmaFn => h => PineKernels.SmoothedAverage(PineKernels.Exponential, h, length)
    case RmaFn => h => PineKernels.SmoothedAverage(PineKernels.Running, h, length)
    case WmaFn => h => PineKernels.Wma(h, length)
    case HmaFn => h => PineKernels.Hma(h, length)
    case RsiFn => h => PineKernels.Rsi(h, length)
    case _ => h => PineKernels.Sma(h, length)
  }

  // ----- Meaning of an expression -----

  function Eval(e: Expr, ctx: Context): (r: Option<Value>)
    requires ctx.Valid()
    ensures r.Some? ==> Fits(r.value, ctx.Bars())
    decreases e
  {
    var n := ctx.Bars();
    match e
    case NumberLit(r) => Some(Number(Fin(r)))
    case TextLit(t) => Some(Text(t))
    case ColorLit(c) => Some(Color(c))
    case Name(name) => Resolve(name, ctx)
    case Call(fn, args) =>
      var values := EvalArgs(args, ctx);
      if values.None? then None else Apply(FunctionName(fn), values.value, ctx.candles)
    case Not(arg) =>
      var v := Eval(arg, ctx);
      if v.None? then None else Some(LogicalNot(v.value, n))
    case Neg(arg) =>
      var v := Eval(arg, ctx);
      if v.None? then None else Some(NegateValue(v.value, n))
    case Arith(op, left, right) =>
      var a, b := Eval(left, ctx), Eval(right, ctx);
      if a.None? || b.None? then None else Some(Combine(a.value, b.value, op, n, ctx.print_))
    case Comparison(op, left, right) =>
      var a, b := Eval(left, ctx), Eval(right, ctx);
      if a.None? || b.None? then None else Some(Compare(a.value, b.value, op, n, ctx.print_))
    case Logic(op, left, right) =>
      var a, b := Eval(left, ctx), Eval(right, ctx);
      if a.None? || b.None? then None else Some(Logical(a.value, b.value, op, n))
    case Ternary(condition, whenTrue, whenFalse) =>
      var c, t, f := Eval(condition, ctx), Eval(whenTrue, ctx), Eval(whenFalse, ctx);
      if c.None? || t.None? || f.None? then None else Some(Choose(c.value, t.value, f.value, n))
    case History(base, offset) =>
      var v := Eval(base, ctx);
      if v.None? then None else Some(Shift(v.value, offset, n))
  }

  function EvalArgs(args: Args, ctx: Context): (r: Option<seq<CallArg>>)
    requires ctx.Valid()
    ensures r.Some? ==> ArgsFit(r.value, ctx.Bars())
    decreases args
  {
    match args
    case NoArgs => Some([])
    case Arg(key, value, rest) =>
      var v, vs := Eval(value, ctx), EvalArgs(rest, ctx);
      if v.None? || vs.None? then None else Some([CallArg(key, v.value)] + vs.value)
  }
}
