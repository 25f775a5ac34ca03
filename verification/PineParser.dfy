/** The evaluator of expression.go: it evaluates over the whole series while it reads, and is proved to
    yield the meaning of the tree that the grammar reads. */
module PineParser {
  import opened Options
  import opened PineNumbers
  import opened PineValues
  import opened Candles
  import opened PineExpressions
  import opened PineGrammar
  import PineKernels

  method EvaluateAverage(fn: Function, values: seq<Num>, length: nat) returns (out: seq<Num>)
    requires length >= 1 && fn in {SmaFn, EmaFn, RmaFn, WmaFn, HmaFn, RsiFn}
    ensures out == HistoryWise(values, AverageKernel(fn, length))
  {
    match fn
    case EmaFn => out := PineKernels.SmoothedMovingAverage(PineKernels.Exponential, values, length);
    case RmaFn => out := PineKernels.SmoothedMovingAverage(PineKernels.Running, values, length);
    case WmaFn => out := PineKernels.WeightedMovingAverage(values, length);
    case HmaFn => out := PineKernels.HullMovingAverage(values, length);
    case RsiFn => out := PineKernels.RsiSeries(values, length);
    case SmaFn => out := PineKernels.RollingAverage(values, length);
  }

  method EvaluatePivot(args: seq<CallArg>, candles: seq<Candle>, field: Field, kind: PineKernels.PivotKind)
    returns (r: Value)
    requires ArgsFit(args, |candles|)
    ensures r == PivotCall(args, candles, field, kind)
  {
    var left := PivotStrength(args, "leftbars", "left", 0);
    var right := PivotStrength(args, "rightbars", "right", 1);
    var values := PivotValues(args, candles, field);
    var out := PineKernels.PivotSeries(values, left, right, kind);
    ghost var wanted := HistoryWise(values, h => PineKernels.ConfirmedPivot(h, left, right, kind));
    assert out == wanted;
    r := Series(out);
  }

  method EvaluateSeriesCall(fn: Function, args: seq<CallArg>, candles: seq<Candle>) returns (r: Value)
    requires ArgsFit(args, |candles|)
    requires fn in {ChangeFn, CrossoverFn, CrossunderFn, VwmaFn, VwapFn}
    ensures Some(r) == Apply(fn, args, candles)
  {
    var n := |candles|;
    match fn
    case ChangeFn =>
      var length := if |args| > 1 then Length(args) else 1;
      var values := ArgSeries(args, "source", 0, n);
      var out := PineKernels.ChangeSeries(values, length);
      assert out == HistoryWise(values, h => PineKernels.Change(h, length));
      r := Series(out);
    case CrossoverFn =>
      var out := PineKernels.CrossSeries(ArgSeries(args, "source1", 0, n), ArgSeries(args, "source2", 1, n),
                                         PineKernels.Upward);
      assert out == CrossCall(args, n, PineKernels.Upward).series;
      r := Series(out);
    case CrossunderFn =>
      var out := PineKernels.CrossSeries(ArgSeries(args, "source1", 0, n), ArgSeries(args, "source2", 1, n),
                                         PineKernels.Downward);
      assert out == CrossCall(args, n, PineKernels.Downward).series;
      r := Series(out);
    case VwmaFn =>
      var out := PineKernels.VolumeWeightedMovingAverage(ArgSeries(args, "source", 0, n),
                                                         SourceSeries(candles, Volume), Length(args));
      assert out == VwmaCall(args, candles).series;
      r := Series(out);
    case VwapFn =>
      var out := PineKernels.SessionVWAP(ArgSeries(args, "source", 0, n), candles);
      assert out == VwapCall(args, candles).series;
      r := Series(out);
  }

  method EvaluateCall(fn: Function, args: seq<CallArg>, candles: seq<Candle>) returns (r: Option<Value>)
    requires ArgsFit(args, |candles|)
    ensures r == Apply(fn, args, candles)
  {
    var n := |candles|;
    if fn in {SmaFn, EmaFn, RmaFn, WmaFn, HmaFn, RsiFn} {
      var out := EvaluateAverage(fn, ArgSeries(args, "source", 0, n), Length(args));
      return Some(Series(out));
    }
    if fn in {ChangeFn, CrossoverFn, CrossunderFn, VwmaFn, VwapFn} {
      var v := EvaluateSeriesCall(fn, args, candles);
      return Some(v);
    }
    if fn.PivotHighFn? {
      var v := EvaluatePivot(args, candles, High, PineKernels.PivotHigh);
      return Some(v);
    }
    if fn.PivotLowFn? {
      var v := EvaluatePivot(args, candles, Low, PineKernels.PivotLow);
      return Some(v);
    }
    if fn.MaxFn? || fn.MinFn? {
      var v := ReduceNumeric(ArgValues(args), n, fn.MaxFn?);
      return Some(v);
    }
    return Apply(fn, args, candles);
  }

  /** What a reading phrase must yield: nothing when the grammar rejects it or a part fails to evaluate. */
  ghost function Meaning(p: Parsed, ctx: Context): Option<Value>
    requires ctx.Valid()
  {
    if p.Fail? then None else Eval(p.e, ctx)
  }

  ghost function ArgsMeaning(p: ParsedArgs, ctx: Context): Option<seq<CallArg>>
    requires ctx.Valid()
  {
    if p.FailArgs? then None else EvalArgs(p.args, ctx)
  }

  class ExpressionParser {
    const tokens: Tokens
    const context: Context
    var index: nat

    ghost predicate Valid()
      reads this`index
    {
      context.Valid() && index <= |tokens|
    }

    ghost function Remaining(): Tokens
      reads this`index
      requires Valid()
    {
      tokens[index..]
    }

    constructor (ts: Tokens, ctx: Context)
      requires ctx.Valid()
      ensures Valid() && tokens == ts && context == ctx && Remaining() == ts
    {
      tokens, context, index := ts, ctx, 0;
    }

    function Peek(): (t: Token)
      reads this`index
      requires Valid()
      ensures t == First(Remaining())
    {
      if index < |tokens| then tokens[index] else Eof
    }

    /** Reading at the end yields the end-of-text token again. */
    method Next() returns (t: Token)
      requires Valid()
      modifies this`index
      ensures Valid() && index >= old(index)
      ensures t == First(old(Remaining()))
      ensures old(Remaining()) != [] ==> Remaining() == old(Remaining())[1..]
      ensures old(Remaining()) == [] ==> Remaining() == []
    {
      t := Peek();
      if index < |tokens| {
        index := index + 1;
      }
    }

    method ParseTernary() returns (r: Option<Value>)
      requires Valid()
      modifies this`index
      ensures Valid() && index >= old(index)
      ensures r == Meaning(PineGrammar.ParseTernary(old(Remaining())), context)
      ensures r.Some? ==> Remaining() == PineGrammar.ParseTernary(old(Remaining())).rest
      decreases |tokens| - index, 6
    {
      hide Apply, FunctionName, Resolve, Combine, Compare, Logical, LogicalNot, NegateValue, Choose, Shift;
      var condition := ParseLogical();
      if condition.None? || Peek() != Question {
        return condition;
      }
      var question := Next();
      var whenTrue := ParseTernary();
      if whenTrue.None? {
        return None;
      }
      var colon := Next();
      if colon != Colon {
        return None;
      }
      var whenFalse := ParseTernary();
      if whenFalse.None? {
        return None;
      }
      var v := ChooseValue(condition.value, whenTrue.value, whenFalse.value, context.Bars());
      return Some(v);
    }

    method ParseLogical() returns (r: Option<Value>)
      requires Valid()
      modifies this`index
      ensures Valid() && index >= old(index)
      ensures r == Meaning(PineGrammar.ParseLogical(old(Remaining())), context)
      ensures r.Some? ==> Remaining() == PineGrammar.ParseLogical(old(Remaining())).rest
      ensures r.Some? ==> index > old(index)
      decreases |tokens| - index, 5
    {
      hide Apply, FunctionName, Resolve, Combine, Compare, Logical, LogicalNot, NegateValue, Choose, Shift;
      ghost var whole := PineGrammar.ParseLogical(Remaining());
      ghost var tree := PineGrammar.ParseComparison(Remaining());
      r := ParseComparison();
      if r.None? {
        if tree.Done? {
          LogicalRestStuck(tree.e, tree.rest, context);
        }
        return;
      }
      ghost var left := tree.e;
      while IsLogic(Peek())
        invariant Valid() && index > old(index)
        invariant r == Eval(left, context) && r.Some?
        invariant LogicalRest(left, Remaining()) == whole
        decreases |tokens| - index
      {
        ghost var before := Remaining();
        var op := Next();
        ghost var right := PineGrammar.ParseComparison(Remaining());
        var v := ParseComparison();
        if v.None? {
          LogicalRestFails(left, before, context);
          return None;
        }
        var combined := LogicalValues(r.value, v.value, LogicOf(op), context.Bars());
        r := Some(combined);
        left := Logic(LogicOf(op), left, right.e);
      }
    }

    method ParseComparison() returns (r: Option<Value>)
      requires Valid()
      modifies this`index
      ensures Valid() && index >= old(index)
      ensures r == Meaning(PineGrammar.ParseComparison(old(Remaining())), context)
      ensures r.Some? ==> Remaining() == PineGrammar.ParseComparison(old(Remaining())).rest
      ensures r.Some? ==> index > old(index)
      decreases |tokens| - index, 4
    {
      hide Apply, FunctionName, Resolve, Combine, Compare, Logical, LogicalNot, NegateValue, Choose, Shift;
      ghost var whole := PineGrammar.ParseComparison(Remaining());
      ghost var tree := PineGrammar.ParseAdditive(Remaining());
      r := ParseAdditive();
      if r.None? {
        if tree.Done? {
          ComparisonRestStuck(tree.e, tree.rest, context);
        }
        return;
      }
      ghost var left := tree.e;
      while Peek().CompareTok?
        invariant Valid() && index > old(index)
        invariant r == Eval(left, context) && r.Some?
        invariant ComparisonRest(left, Remaining()) == whole
        decreases |tokens| - index
      {
        ghost var before := Remaining();
        var op := Next();
        ghost var right := PineGrammar.ParseAdditive(Remaining());
        var v := ParseAdditive();
        if v.None? {
          ComparisonRestFails(left, before, context);
          return None;
        }
        var combined := CompareValues(r.value, v.value, op.cop, context.Bars(), context.print_);
        r := Some(combined);
        left := Comparison(op.cop, left, right.e);
      }
    }

    method ParseAdditive() returns (r: Option<Value>)
      requires Valid()
      modifies this`index
      ensures Valid() && index >= old(index)
      ensures r == Meaning(PineGrammar.ParseAdditive(old(Remaining())), context)
      ensures r.Some? ==> Remaining() == PineGrammar.ParseAdditive(old(Remaining())).rest
      ensures r.Some? ==> index > old(index)
      decreases |tokens| - index, 3
    {
      hide Apply, FunctionName, Resolve, Combine, Compare, Logical, LogicalNot, NegateValue, Choose, Shift;
      ghost var whole := PineGrammar.ParseAdditive(Remaining());
      ghost var tree := PineGrammar.ParseMultiplicative(Remaining());
      r := ParseMultiplicative();
      if r.None? {
        if tree.Done? {
          AdditiveRestStuck(tree.e, tree.rest, context);
        }
        return;
      }
      ghost var left := tree.e;
      while IsAdditive(Peek())
        invariant Valid() && index > old(index)
        invariant r == Eval(left, context) && r.Some?
        invariant AdditiveRest(left, Remaining()) == whole
        decreases |tokens| - index
      {
        ghost var before := Remaining();
        var op := Next();
        ghost var right := PineGrammar.ParseMultiplicative(Remaining());
        var v := ParseMultiplicative();
        if v.None? {
          AdditiveRestFails(left, before, context);
          return None;
        }
        var combined := CombineValues(r.value, v.value, op.aop, context.Bars(), context.print_);
        r := Some(combined);
        left := Arith(op.aop, left, right.e);
      }
    }

    method ParseMultiplicative() returns (r: Option<Value>)
      requires Valid()
      modifies this`index
      ensures Valid() && index >= old(index)
      ensures r == Meaning(PineGrammar.ParseMultiplicative(old(Remaining())), context)
      ensures r.Some? ==> Remaining() == PineGrammar.ParseMultiplicative(old(Remaining())).rest
      ensures r.Some? ==> index > old(index)
      decreases |tokens| - index, 2
    {
      hide PineGrammar.ParseUnary, Apply, FunctionName, Resolve, Combine, Compare, Logical, LogicalNot, NegateValue,
           Choose, Shift;
      ghost var whole := PineGrammar.ParseMultiplicative(Remaining());
      ghost var tree := PineGrammar.ParseUnary(Remaining());
      r := ParseUnary();
      if r.None? {
        if tree.Done? {
          MultiplicativeRestStuck(tree.e, tree.rest, context);
        }
        return;
      }
      ghost var left := tree.e;
      while IsMultiplicative(Peek())
        invariant Valid() && index > old(index)
        invariant r == Eval(left, context) && r.Some?
        invariant MultiplicativeRest(left, Remaining()) == whole
        decreases |tokens| - index
      {
        ghost var before := Remaining();
        var op := Next();
        ghost var right := PineGrammar.ParseUnary(Remaining());
        var v := ParseUnary();
        if v.None? {
          MultiplicativeRestFails(left, before, context);
          return None;
        }
        var combined := CombineValues(r.value, v.value, op.aop, context.Bars(), context.print_);
        r := Some(combined);
        left := Arith(op.aop, left, right.e);
      }
    }

    method ParseUnary() returns (r: Option<Value>)
      requires Valid()
      modifies this`index
      ensures Valid() && index >= old(index)
      ensures r == Meaning(PineGrammar.ParseUnary(old(Remaining())), context)
      ensures r.Some? ==> Remaining() == PineGrammar.ParseUnary(old(Remaining())).rest
      ensures r.Some? ==> index > old(index)
      decreases |tokens| - index, 1
    {
      hide Apply, FunctionName, Resolve, Combine, Compare, Logical, LogicalNot, NegateValue, Choose, Shift;
      if IsWord(Peek(), "not") {
        var word := Next();
        var v := ParseUnary();
        if v.None? {
          return None;
        }
        var negated := LogicalNotValue(v.value, context.Bars());
        return Some(negated);
      }
      if Peek() == OpTok(Minus) {
        var sign := Next();
        var v := ParseUnary();
        if v.None? {
          return None;
        }
        return Some(NegateValue(v.value, context.Bars()));
      }
      r := ParsePrimary();
    }

    method ParsePrimary() returns (r: Option<Value>)
      requires Valid()
      modifies this`index
      ensures Valid() && index >= old(index)
      ensures r == Meaning(PineGrammar.ParsePrimary(old(Remaining())), context)
      ensures r.Some? ==> Remaining() == PineGrammar.ParsePrimary(old(Remaining())).rest
      ensures r.Some? ==> index > old(index)
      decreases |tokens| - index, 0
    {
      hide Apply, FunctionName, Resolve, Combine, Compare, Logical, LogicalNot, NegateValue, Choose, Shift;
      ghost var all := Remaining();
      var token := Next();
      match token
      case NumberTok(number) =>
        return Some(Number(Fin(number)));
      case StringTok(text) =>
        return Some(Text(text));
      case ColorTok(color) =>
        return Some(Color(color));
      case IdentTok(name) =>
        assert all == [IdentTok(name)] + Remaining();
        r := ParseNamed(name);
      case LParen =>
        var v := ParseTernary();
        if v.None? {
          return None;
        }
        var closing := Next();
        if !ClosesCall(closing) {
          return None;
        }
        return v;
      case _ =>
        return None;
    }

    /** What follows a name: a call, or the named value; then history references. */
    method ParseNamed(name: string) returns (r: Option<Value>)
      requires Valid()
      modifies this`index
      ensures Valid() && index >= old(index)
      ensures r == Meaning(PineGrammar.ParsePrimary([IdentTok(name)] + old(Remaining())), context)
      ensures r.Some? ==> Remaining() == PineGrammar.ParsePrimary([IdentTok(name)] + old(Remaining())).rest
      decreases |tokens| - index, 9
    {
      hide Apply, FunctionName, Resolve, Combine, Compare, Logical, LogicalNot, NegateValue, Choose, Shift;
      ghost var all := [IdentTok(name)] + Remaining();
      assert all[1..] == Remaining();
      if Peek() == LParen {
        assert all[2..] == Remaining()[1..];
        var opening := Next();
        ghost var list := PineGrammar.ParseArguments(Remaining());
        var args := ParseArguments();
        if args.None? {
          if list.DoneArgs? && ClosesCall(First(list.rest)) {
            PostfixFails(Call(name, list.args), list.rest[1..], context);
          }
          return None;
        }
        var closing := Next();
        if !ClosesCall(closing) {
          return None;
        }
        var value := EvaluateCall(FunctionName(name), args.value, context.candles);
        if value.None? {
          PostfixFails(Call(name, list.args), Remaining(), context);
          return None;
        }
        r := ParsePostfix(value.value, Call(name, list.args));
      } else {
        var value := Resolve(name, context);
        if value.None? {
          PostfixFails(Name(name), Remaining(), context);
          return None;
        }
        r := ParsePostfix(value.value, Name(name));
      }
    }

    method ParseArguments() returns (r: Option<seq<CallArg>>)
      requires Valid()
      modifies this`index
      ensures Valid() && index >= old(index)
      ensures r == ArgsMeaning(PineGrammar.ParseArguments(old(Remaining())), context)
      ensures r.Some? ==> Remaining() == PineGrammar.ParseArguments(old(Remaining())).rest
      decreases |tokens| - index, 8
    {
      if Peek() == RParen {
        return Some([]);
      }
      r := ParseArgList();
    }

    method ParseArgList() returns (r: Option<seq<CallArg>>)
      requires Valid()
      modifies this`index
      ensures Valid() && index >= old(index)
      ensures r == ArgsMeaning(PineGrammar.ParseArgList(old(Remaining())), context)
      ensures r.Some? ==> Remaining() == PineGrammar.ParseArgList(old(Remaining())).rest
      decreases |tokens| - index, 7
    {
      hide Apply, FunctionName, Resolve, Combine, Compare, Logical, LogicalNot, NegateValue, Choose, Shift;
      ghost var ts := Remaining();
      var key := ParseKey();
      ghost var tree := PineGrammar.ParseTernary(Remaining());
      var v := ParseTernary();
      if v.None? {
        ArgListFails(ts, context);
        return None;
      }
      if Peek() == Comma {
        var comma := Next();
        ghost var list := PineGrammar.ParseArgList(Remaining());
        var more := ParseArgList();
        assert PineGrammar.ParseArgList(ts)
            == if list.FailArgs? then FailArgs else DoneArgs(Arg(key, tree.e, list.args), list.rest);
        if more.None? {
          return None;
        }
        return Some([CallArg(key, v.value)] + more.value);
      }
      assert EvalArgs(NoArgs, context) == Some([]);
      assert [CallArg(key, v.value)] + [] == [CallArg(key, v.value)];
      assert PineGrammar.ParseArgList(ts) == DoneArgs(Arg(key, tree.e, NoArgs), tree.rest);
      return Some([CallArg(key, v.value)]);
    }

    /** The "name =" of a named argument; an empty key when there is none. */
    method ParseKey() returns (key: string)
      requires Valid()
      modifies this`index
      ensures Valid() && index >= old(index)
      ensures var ts := old(Remaining());
              && key == (if HasKey(ts) then ts[0].text else "")
              && Remaining() == (if HasKey(ts) then ts[2..] else ts)
    {
      key := "";
      if index + 1 < |tokens| && tokens[index].IdentTok? && tokens[index + 1] == Equals {
        var name := Next();
        key := name.text;
        var equals := Next();
        assert Remaining() == old(Remaining())[2..];
      }
    }

    /** The "[n]" of a history reference. */
    method ParseOffset() returns (offset: Option<nat>)
      requires Valid() && First(Remaining()) == LBracket
      modifies this`index
      ensures Valid() && index > old(index)
      ensures var ts := old(Remaining());
              && (offset.Some? <==> |ts| >= 3 && ts[1].NumberTok? && ClosesHistory(ts[2]))
              && (offset.Some? ==> offset.value == RoundAtLeast(ts[1].r, 0) && Remaining() == ts[3..])
    {
      ghost var ts := Remaining();
      var bracket := Next();
      var number := Next();
      if !number.NumberTok? {
        return None;
      }
      var closing := Next();
      if !ClosesHistory(closing) {
        return None;
      }
      assert Remaining() == ts[3..];
      return Some(RoundAtLeast(number.r, 0));
    }

    method ParsePostfix(base: Value, ghost tree: Expr) returns (r: Option<Value>)
      requires Valid() && Eval(tree, context) == Some(base)
      modifies this`index
      ensures Valid() && index >= old(index)
      ensures r == Meaning(PineGrammar.Postfix(tree, old(Remaining())), context)
      ensures r.Some? ==> Remaining() == PineGrammar.Postfix(tree, old(Remaining())).rest
    {
      hide Apply, FunctionName, Resolve, Combine, Compare, Logical, LogicalNot, NegateValue, Choose, Shift;
      ghost var whole := PineGrammar.Postfix(tree, Remaining());
      ghost var current := tree;
      r := Some(base);
      while Peek() == LBracket
        invariant Valid() && index >= old(index)
        invariant r == Eval(current, context) && r.Some?
        invariant PineGrammar.Postfix(current, Remaining()) == whole
        decreases |tokens| - index
      {
        ghost var before := Remaining();
        var offset := ParseOffset();
        if offset.None? {
          return None;
        }
        assert PineGrammar.Postfix(History(current, offset.value), before[3..]) == whole;
        var shifted := ShiftValue(r.value, offset.value, context.Bars());
        r := Some(shifted);
        current := History(current, offset.value);
      }
    }
  }

  // A phrase whose left part fails, or whose next right part fails, fails as a whole.

  lemma {:induction false} LogicalRestStuck(left: Expr, ts: Tokens, ctx: Context)
    requires ctx.Valid() && Eval(left, ctx).None?
    ensures Meaning(LogicalRest(left, ts), ctx).None?
    decreases |ts|
  {
    hide Apply, FunctionName, Resolve, Combine, Compare, Logical, LogicalNot, NegateValue, Choose, Shift;
    if IsLogic(First(ts)) {
      var r := ParseComparison(ts[1..]);
      if r.Done? {
        LogicalRestStuck(Logic(LogicOf(ts[0]), left, r.e), r.rest, ctx);
      }
    }
  }

  lemma {:induction false} LogicalRestFails(left: Expr, ts: Tokens, ctx: Context)
    requires ctx.Valid() && IsLogic(First(ts)) && Meaning(ParseComparison(ts[1..]), ctx).None?
    ensures Meaning(LogicalRest(left, ts), ctx).None?
  {
    hide Apply, FunctionName, Resolve, Combine, Compare, Logical, LogicalNot, NegateValue, Choose, Shift;
    var r := ParseComparison(ts[1..]);
    if r.Done? {
      LogicalRestStuck(Logic(LogicOf(ts[0]), left, r.e), r.rest, ctx);
    }
  }

  lemma {:induction false} ComparisonRestStuck(left: Expr, ts: Tokens, ctx: Context)
    requires ctx.Valid() && Eval(left, ctx).None?
    ensures Meaning(ComparisonRest(left, ts), ctx).None?
    decreases |ts|
  {
    hide Apply, FunctionName, Resolve, Combine, Compare, Logical, LogicalNot, NegateValue, Choose, Shift;
    if First(ts).CompareTok? {
      var r := ParseAdditive(ts[1..]);
      if r.Done? {
        ComparisonRestStuck(Comparison(ts[0].cop, left, r.e), r.rest, ctx);
      }
    }
  }

  lemma {:induction false} ComparisonRestFails(left: Expr, ts: Tokens, ctx: Context)
    requires ctx.Valid() && First(ts).CompareTok? && Meaning(ParseAdditive(ts[1..]), ctx).None?
    ensures Meaning(ComparisonRest(left, ts), ctx).None?
  {
    hide Apply, FunctionName, Resolve, Combine, Compare, Logical, LogicalNot, NegateValue, Choose, Shift;
    var r := ParseAdditive(ts[1..]);
    if r.Done? {
      ComparisonRestStuck(Comparison(ts[0].cop, left, r.e), r.rest, ctx);
    }
  }

  lemma {:induction false} AdditiveRestStuck(left: Expr, ts: Tokens, ctx: Context)
    requires ctx.Valid() && Eval(left, ctx).None?
    ensures Meaning(AdditiveRest(left, ts), ctx).None?
    decreases |ts|
  {
    hide Apply, FunctionName, Resolve, Combine, Compare, Logical, LogicalNot, NegateValue, Choose, Shift;
    if IsAdditive(First(ts)) {
      var r := ParseMultiplicative(ts[1..]);
      if r.Done? {
        AdditiveRestStuck(Arith(ts[0].aop, left, r.e), r.rest, ctx);
      }
    }
  }

  lemma {:induction false} AdditiveRestFails(left: Expr, ts: Tokens, ctx: Context)
    requires ctx.Valid() && IsAdditive(First(ts)) && Meaning(ParseMultiplicative(ts[1..]), ctx).None?
    ensures Meaning(AdditiveRest(left, ts), ctx).None?
  {
    hide Apply, FunctionName, Resolve, Combine, Compare, Logical, LogicalNot, NegateValue, Choose, Shift;
    var r := ParseMultiplicative(ts[1..]);
    if r.Done? {
      AdditiveRestStuck(Arith(ts[0].aop, left, r.e), r.rest, ctx);
    }
  }

  lemma {:induction false} MultiplicativeRestStuck(left: Expr, ts: Tokens, ctx: Context)
    requires ctx.Valid() && Eval(left, ctx).None?
    ensures Meaning(MultiplicativeRest(left, ts), ctx).None?
    decreases |ts|
  {
    hide Apply, FunctionName, Resolve, Combine, Compare, Logical, LogicalNot, NegateValue, Choose, Shift;
    if IsMultiplicative(First(ts)) {
      var r := ParseUnary(ts[1..]);
      if r.Done? {
        MultiplicativeRestStuck(Arith(ts[0].aop, left, r.e), r.rest, ctx);
      }
    }
  }

  lemma {:induction false} MultiplicativeRestFails(left: Expr, ts: Tokens, ctx: Context)
    requires ctx.Valid() && IsMultiplicative(First(ts)) && Meaning(ParseUnary(ts[1..]), ctx).None?
    ensures Meaning(MultiplicativeRest(left, ts), ctx).None?
  {
    hide Apply, FunctionName, Resolve, Combine, Compare, Logical, LogicalNot, NegateValue, Choose, Shift;
    var r := ParseUnary(ts[1..]);
    if r.Done? {
      MultiplicativeRestStuck(Arith(ts[0].aop, left, r.e), r.rest, ctx);
    }
  }

  lemma {:induction false} ArgListFails(ts: Tokens, ctx: Context)
    requires ctx.Valid()
    requires Meaning(ParseTernary(if HasKey(ts) then ts[2..] else ts), ctx).None?
    ensures ArgsMeaning(ParseArgList(ts), ctx).None?
  {
    hide Apply, FunctionName, Resolve, Combine, Compare, Logical, LogicalNot, NegateValue, Choose, Shift;
  }

  lemma {:induction false} PostfixFails(base: Expr, ts: Tokens, ctx: Context)
    requires ctx.Valid() && Eval(base, ctx).None?
    ensures Meaning(Postfix(base, ts), ctx).None?
    decreases |ts|
  {
    hide Apply, FunctionName, Resolve, Combine, Compare, Logical, LogicalNot, NegateValue, Choose, Shift;
    if First(ts) == LBracket && |ts| >= 3 && ts[1].NumberTok? {
      PostfixFails(History(base, RoundAtLeast(ts[1].r, 0)), ts[3..], ctx);
    }
  }

  /** The parser's part of evaluateExpression: the value of the tree the text reads as, an error for anything else. */
  method EvaluateParsed(ts: Tokens, ctx: Context) returns (r: Option<Value>)
    requires ctx.Valid() && Proper(ts)
    ensures r == EvalText(ts, ctx)
  {
    var parser := new ExpressionParser(ts, ctx);
    r := parser.ParseTernary();
    assert parser.Remaining() != [] ==> parser.Remaining()[0] in ts;
    if r.Some? && parser.Peek() != Eof {
      return None;
    }
  }
}
