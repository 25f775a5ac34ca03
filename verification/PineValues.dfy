/** Numbers of the Pine runtime: a finite value or "not a number".  Infinity and
    rounding are not modelled, so `Usable` is "is finite". */
module PineNumbers {
  datatype Num = NaN | Fin(value: real)

  const ZERO := Fin(0.0)
  const ONE := Fin(1.0)

  predicate Usable(x: Num) {
    x.Fin?
  }

  function Flag(b: bool): Num {
    if b then ONE else ZERO
  }

  function Add(a: Num, b: Num): Num {
    if Usable(a) && Usable(b) then Fin(a.value + b.value) else NaN
  }

  function Subtract(a: Num, b: Num): Num {
    if Usable(a) && Usable(b) then Fin(a.value - b.value) else NaN
  }

  function Multiply(a: Num, b: Num): Num {
    if Usable(a) && Usable(b) then Fin(a.value * b.value) else NaN
  }

  function Divide(a: Num, b: Num): Num {
    if Usable(a) && Usable(b) && b.value != 0.0 then Fin(a.value / b.value) else NaN
  }

  function Negate(a: Num): Num {
    if Usable(a) then Fin(-a.value) else NaN
  }

  function Absolute(a: Num): Num {
    if Usable(a) && a.value < 0.0 then Fin(-a.value) else a
  }

  function Maximum(a: Num, b: Num): Num {
    if !Usable(a) || !Usable(b) then NaN else if a.value >= b.value then a else b
  }

  function Minimum(a: Num, b: Num): Num {
    if !Usable(a) || !Usable(b) then NaN else if a.value <= b.value then a else b
  }

  /** math.Round: halves go away from zero. */
  function Round(x: real): int {
    if x >= 0.0 then (x + 0.5).Floor else -((-x + 0.5).Floor)
  }

  /** A real as the non-negative whole number nearest to it, negatives becoming `least`. */
  function RoundAtLeast(x: real, least: nat): nat {
    var r := Round(x);
    if r < least then least else r
  }
}

/** The value type of the vector evaluator and its element-wise operations. */
module PineValues {
  import opened PineNumbers

  datatype Value =
    | Number(number: Num)
    | Series(series: seq<Num>)
    | Color(color: string)
    | ColorSeries(colors: seq<string>)
    | Text(text: string)
    | Bool(boolean: bool)

  datatype ArithOp = Plus | Minus | Times | Over

  datatype CompareOp = Greater | GreaterEqual | Less | LessEqual | Equal | NotEqual

  datatype LogicOp = And | Or

  /** How a usable number is printed (`%g`); supplied by the caller of the model. */
  type Printer = real -> string

  function NaNumber(): Value {
    Number(NaN)
  }

  predicate Varies(v: Value) {
    v.Series? || v.ColorSeries?
  }

  /** A value belongs to a run over n candles when its series have n elements. */
  predicate Fits(v: Value, n: nat) {
    && (v.Series? ==> |v.series| == n)
    && (v.ColorSeries? ==> |v.colors| == n)
  }

  function GetAt(v: Value, i: int): Num {
    match v
    case Number(x) => x
    case Series(s) => if 0 <= i < |s| then s[i] else NaN
    case Bool(b) => Flag(b)
    case _ => NaN
  }

  function ColorAt(v: Value, i: int): string {
    match v
    case Color(c) => c
    case ColorSeries(cs) => if 0 <= i < |cs| then cs[i] else ""
    case _ => ""
  }

  predicate TruthyNum(x: Num) {
    Usable(x) && x.value != 0.0
  }

  predicate TruthyAt(v: Value, i: int) {
    match v
    case Bool(b) => b
    case Number(x) => TruthyNum(x)
    case Series(_) => TruthyNum(GetAt(v, i))
    case Color(_) => ColorAt(v, i) != ""
    case ColorSeries(_) => ColorAt(v, i) != ""
    case Text(_) => false
  }

  function StringAt(v: Value, i: int, print_: Printer): string {
    match v
    case Text(t) => t
    case Color(c) => c
    case Bool(b) => if b then "true" else "false"
    case _ => if Usable(GetAt(v, i)) then print_(GetAt(v, i).value) else ""
  }

  function ToSeries(v: Value, n: nat): seq<Num> {
    if v.Series? then v.series else seq(n, i => GetAt(v, i))
  }

  function ToColors(v: Value, n: nat): seq<string> {
    if v.ColorSeries? then v.colors else seq(n, i => ColorAt(v, i))
  }

  predicate Colored(v: Value) {
    v.Color? || v.ColorSeries?
  }

  /** The ternary.  Runs over at most one candle, and conditions that do not vary, take one whole arm. */
  function Choose(condition: Value, whenTrue: Value, whenFalse: Value, n: nat): Value {
    if n <= 1 || !Varies(condition) then
      if TruthyAt(condition, 0) then whenTrue else whenFalse
    else if Colored(whenTrue) || Colored(whenFalse) then
      ColorSeries(seq(n, i => ColorAt(if TruthyAt(condition, i) then whenTrue else whenFalse, i)))
    else
      Series(seq(n, i => GetAt(if TruthyAt(condition, i) then whenTrue else whenFalse, i)))
  }

  /** The history reference v[offset]. */
  function Shift(v: Value, offset: nat, n: nat): Value {
    if Colored(v) then
      var colors := ToColors(v, n);
      ColorSeries(seq(n, i => if 0 <= i - offset < |colors| then colors[i - offset] else ""))
    else
      var values := ToSeries(v, n);
      Series(seq(n, i => if 0 <= i - offset < |values| then values[i - offset] else NaN))
  }

  function ApplyOperator(a: Num, b: Num, op: ArithOp): Num {
    match op
    case Plus => Add(a, b)
    case Minus => Subtract(a, b)
    case Times => Multiply(a, b)
    case Over => Divide(a, b)
  }

  function Combine(left: Value, right: Value, op: ArithOp, n: nat, print_: Printer): Value {
    if op == Plus && (left.Text? || right.Text?) then
      Text(StringAt(left, n - 1, print_) + StringAt(right, n - 1, print_))
    else if left.Number? && right.Number? then
      Number(ApplyOperator(left.number, right.number, op))
    else
      Series(seq(n, i => ApplyOperator(GetAt(left, i), GetAt(right, i), op)))
  }

  /** Comparison of raw numbers: every comparison with NaN is false except `!=`. */
  predicate CompareRaw(a: Num, b: Num, op: CompareOp) {
    if !Usable(a) || !Usable(b) then op == NotEqual
    else
      match op
      case Greater => a.value > b.value
      case GreaterEqual => a.value >= b.value
      case Less => a.value < b.value
      case LessEqual => a.value <= b.value
      case Equal => a.value == b.value
      case NotEqual => a.value != b.value
  }

  /** Element-wise comparison needs both sides usable, whatever the operator. */
  predicate ComparePoint(a: Num, b: Num, op: CompareOp) {
    Usable(a) && Usable(b) && CompareRaw(a, b, op)
  }

  predicate ComparesText(left: Value, right: Value, op: CompareOp) {
    (left.Text? || right.Text?) && (op == Equal || op == NotEqual)
  }

  function Compare(left: Value, right: Value, op: CompareOp, n: nat, print_: Printer): Value {
    if ComparesText(left, right, op) then
      Bool((StringAt(left, n - 1, print_) == StringAt(right, n - 1, print_)) == (op == Equal))
    else if left.Number? && right.Number? then
      Bool(CompareRaw(left.number, right.number, op))
    else
      Series(seq(n, i => Flag(ComparePoint(GetAt(left, i), GetAt(right, i), op))))
  }

  predicate Connect(a: bool, b: bool, op: LogicOp) {
    if op == And then a && b else a || b
  }

  function Logical(left: Value, right: Value, op: LogicOp, n: nat): Value {
    if !Varies(left) && !Varies(right) then
      Bool(Connect(TruthyAt(left, 0), TruthyAt(right, 0), op))
    else
      Series(seq(n, i => Flag(Connect(TruthyAt(left, i), TruthyAt(right, i), op))))
  }

  function LogicalNot(v: Value, n: nat): Value {
    if !Varies(v) then Bool(!TruthyAt(v, 0))
    else Series(seq(n, i => Flag(!TruthyAt(v, i))))
  }

  function NegateValue(v: Value, n: nat): Value {
    if v.Number? then Number(Negate(v.number))
    else Series(seq(n, i => Negate(GetAt(v, i))))
  }

  /** na(x) */
  function NaValue(v: Value, n: nat): Value {
    match v
    case Number(x) => Bool(!Usable(x))
    case Series(_) => Series(seq(n, i => Flag(!Usable(GetAt(v, i)))))
    case _ => Bool(false)
  }

  /** nz(x, replacement): bar 0 of the replacement is the fallback of last resort. */
  function NzFallback(replacement: Value): Num {
    if Usable(GetAt(replacement, 0)) then GetAt(replacement, 0) else ZERO
  }

  function NzPoint(v: Value, replacement: Value, i: int): Num {
    if Usable(GetAt(v, i)) then GetAt(v, i)
    else if Usable(GetAt(replacement, i)) then GetAt(replacement, i)
    else NzFallback(replacement)
  }

  function NzValue(v: Value, replacement: Value, n: nat): Value {
    if v.Number? then
      if Usable(v.number) then v else Number(NzFallback(replacement))
    else
      Series(seq(n, i => NzPoint(v, replacement, i)))
  }

  /** The length argument of an indicator call: its bar 0, at least one. */
  function Period(v: Value): (p: nat)
    ensures p >= 1
  {
    if Usable(GetAt(v, 0)) then RoundAtLeast(GetAt(v, 0).value, 1) else 1
  }

  /** math.abs over a number or bar by bar. */
  function AbsValue(v: Value, n: nat): Value {
    if v.Number? then Number(Absolute(v.number))
    else Series(seq(n, i => Absolute(GetAt(v, i))))
  }

  /** math.max / math.min over all arguments at one bar; NaN as soon as one is NaN. */
  function ReduceAt(values: seq<Value>, i: int, wantMaximum: bool): Num
    requires |values| > 0
  {
    var last := GetAt(values[|values| - 1], i);
    if |values| == 1 then last
    else
      var others := ReduceAt(values[..|values| - 1], i, wantMaximum);
      if wantMaximum then Maximum(others, last) else Minimum(others, last)
  }

  predicate AllNumbers(values: seq<Value>) {
    forall k | 0 <= k < |values| :: values[k].Number?
  }

  function ReduceValues(values: seq<Value>, n: nat, wantMaximum: bool): Value {
    if |values| == 0 then NaNumber()
    else if AllNumbers(values) then Number(ReduceAt(values, 0, wantMaximum))
    else Series(seq(n, i => ReduceAt(values, i, wantMaximum)))
  }

  // ----- The loops of value.go and expression.go that fill these series -----

  method ChooseValue(condition: Value, whenTrue: Value, whenFalse: Value, n: nat) returns (r: Value)
    ensures r == Choose(condition, whenTrue, whenFalse, n)
  {
    if n <= 1 || !Varies(condition) {
      if TruthyAt(condition, 0) {
        return whenTrue;
      }
      return whenFalse;
    }
    if Colored(whenTrue) || Colored(whenFalse) {
      var colors: seq<string> := [];
      for i := 0 to n
        invariant |colors| == i
        invariant forall j | 0 <= j < i :: colors[j] == Choose(condition, whenTrue, whenFalse, n).colors[j]
      {
        if TruthyAt(condition, i) {
          colors := colors + [ColorAt(whenTrue, i)];
        } else {
          colors := colors + [ColorAt(whenFalse, i)];
        }
      }
      return ColorSeries(colors);
    }
    var out: seq<Num> := [];
    for i := 0 to n
      invariant |out| == i
      invariant forall j | 0 <= j < i :: out[j] == Choose(condition, whenTrue, whenFalse, n).series[j]
    {
      if TruthyAt(condition, i) {
        out := out + [GetAt(whenTrue, i)];
      } else {
        out := out + [GetAt(whenFalse, i)];
      }
    }
    return Series(out);
  }

  method ShiftValue(v: Value, offset: nat, n: nat) returns (r: Value)
    ensures r == Shift(v, offset, n)
  {
    if Colored(v) {
      var colors := ToColors(v, n);
      var shifted: seq<string> := [];
      for i := 0 to n
        invariant |shifted| == i
        invariant forall j | 0 <= j < i :: shifted[j] == Shift(v, offset, n).colors[j]
      {
        var j := i - offset;
        shifted := shifted + [if 0 <= j < |colors| then colors[j] else ""];
      }
      return ColorSeries(shifted);
    }
    var values := ToSeries(v, n);
    var out: seq<Num> := [];
    for i := 0 to n
      invariant |out| == i
      invariant forall j | 0 <= j < i :: out[j] == Shift(v, offset, n).series[j]
    {
      var j := i - offset;
      out := out + [if 0 <= j < |values| then values[j] else NaN];
    }
    return Series(out);
  }

  method CombineValues(left: Value, right: Value, op: ArithOp, n: nat, print_: Printer) returns (r: Value)
    ensures r == Combine(left, right, op, n, print_)
  {
    if op == Plus && (left.Text? || right.Text?) {
      return Text(StringAt(left, n - 1, print_) + StringAt(right, n - 1, print_));
    }
    if left.Number? && right.Number? {
      return Number(ApplyOperator(left.number, right.number, op));
    }
    var out: seq<Num> := [];
    for i := 0 to n
      invariant |out| == i
      invariant forall j | 0 <= j < i :: out[j] == Combine(left, right, op, n, print_).series[j]
    {
      var a, b := GetAt(left, i), GetAt(right, i);
      if Usable(a) && Usable(b) {
        out := out + [ApplyOperator(a, b, op)];
      } else {
        out := out + [NaN];
      }
    }
    return Series(out);
  }

  method CompareValues(left: Value, right: Value, op: CompareOp, n: nat, print_: Printer) returns (r: Value)
    ensures r == Compare(left, right, op, n, print_)
  {
    if ComparesText(left, right, op) {
      var equal := StringAt(left, n - 1, print_) == StringAt(right, n - 1, print_);
      if op == NotEqual {
        equal := !equal;
      }
      return Bool(equal);
    }
    if left.Number? && right.Number? {
      return Bool(CompareRaw(left.number, right.number, op));
    }
    var out: seq<Num> := [];
    for i := 0 to n
      invariant |out| == i
      invariant forall j | 0 <= j < i :: out[j] == Compare(left, right, op, n, print_).series[j]
    {
      var a, b := GetAt(left, i), GetAt(right, i);
      if Usable(a) && Usable(b) && CompareRaw(a, b, op) {
        out := out + [ONE];
      } else {
        out := out + [ZERO];
      }
    }
    return Series(out);
  }

  method LogicalValues(left: Value, right: Value, op: LogicOp, n: nat) returns (r: Value)
    ensures r == Logical(left, right, op, n)
  {
    if !Varies(left) && !Varies(right) {
      if op == And {
        return Bool(TruthyAt(left, 0) && TruthyAt(right, 0));
      }
      return Bool(TruthyAt(left, 0) || TruthyAt(right, 0));
    }
    var out: seq<Num> := [];
    for i := 0 to n
      invariant |out| == i
      invariant forall j | 0 <= j < i :: out[j] == Logical(left, right, op, n).series[j]
    {
      var ok := TruthyAt(left, i) || TruthyAt(right, i);
      if op == And {
        ok := TruthyAt(left, i) && TruthyAt(right, i);
      }
      out := out + [if ok then ONE else ZERO];
    }
    return Series(out);
  }

  method LogicalNotValue(v: Value, n: nat) returns (r: Value)
    ensures r == LogicalNot(v, n)
  {
    if !Varies(v) {
      return Bool(!TruthyAt(v, 0));
    }
    var out: seq<Num> := [];
    for i := 0 to n
      invariant |out| == i
      invariant forall j | 0 <= j < i :: out[j] == Flag(!TruthyAt(v, j))
    {
      out := out + [if TruthyAt(v, i) then ZERO else ONE];
    }
    return Series(out);
  }

  method ReduceNumeric(values: seq<Value>, n: nat, wantMaximum: bool) returns (r: Value)
    ensures r == ReduceValues(values, n, wantMaximum)
  {
    if |values| == 0 {
      return NaNumber();
    }
    if AllNumbers(values) {
      var total := ReduceOneBar(values, 0, wantMaximum);
      return Number(total);
    }
    var out: seq<Num> := [];
    for i := 0 to n
      invariant |out| == i
      invariant forall j | 0 <= j < i :: out[j] == ReduceAt(values, j, wantMaximum)
    {
      var point := ReduceOneBar(values, i, wantMaximum);
      out := out + [point];
    }
    return Series(out);
  }

  method ReduceOneBar(values: seq<Value>, i: int, wantMaximum: bool) returns (point: Num)
    requires |values| > 0
    ensures point == ReduceAt(values, i, wantMaximum)
  {
    point := GetAt(values[0], i);
    for k := 1 to |values|
      invariant point == ReduceAt(values[..k], i, wantMaximum)
    {
      assert values[..k + 1][..k] == values[..k];
      var next := GetAt(values[k], i);
      point := if wantMaximum then Maximum(point, next) else Minimum(point, next);
    }
    assert values[..|values|] == values;
  }
}
