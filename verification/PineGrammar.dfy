/** The expression grammar: tokens, and the tree a token sequence reads as. */
module PineGrammar {
  import opened Options
  import opened PineNumbers
  import opened PineValues
  import opened PineExpressions

  datatype Token =
    | NumberTok(r: real)
    | IdentTok(text: string)
    | StringTok(text: string)
    | ColorTok(text: string)
    | OpTok(aop: ArithOp)
    | CompareTok(cop: CompareOp)
    | LParen | RParen | LBracket | RBracket | Comma | Equals | Question | Colon | Eof

  type Tokens = seq<Token>

  /** The end token stands behind a text, never in it. */
  predicate Proper(ts: Tokens) {
    Eof !in ts
  }

  /** A name and the text assigned to it. */
  datatype Assignment = Assignment(name: string, text: Tokens)

  datatype Parsed = Fail | Done(e: Expr, rest: Tokens)

  datatype ParsedArgs = FailArgs | DoneArgs(args: Args, rest: Tokens)

  function First(ts: Tokens): Token {
    if |ts| == 0 then Eof else ts[0]
  }

  function LowerChar(c: char): char {
    if 'A' <= c <= 'Z' then c - 'A' + 'a' else c
  }

  function Lower(s: string): string {
    if |s| == 0 then [] else [LowerChar(s[0])] + Lower(s[1..])
  }

  /** A number written with digits only. */
  predicate IsWhole(t: Token) {
    t.NumberTok? && t.r >= 0.0 && t.r == t.r.Floor as real
  }

  /** Keywords are recognised whatever their letter case. */
  predicate IsWord(t: Token, word: string) {
    t.IdentTok? && Lower(t.text) == word
  }

  predicate IsLogic(t: Token) {
    IsWord(t, "and") || IsWord(t, "or")
  }

  function LogicOf(t: Token): LogicOp {
    if IsWord(t, "and") then And else Or
  }

  predicate IsAdditive(t: Token) {
    t == OpTok(Plus) || t == OpTok(Minus)
  }

  predicate IsMultiplicative(t: Token) {
    t == OpTok(Times) || t == OpTok(Over)
  }

  /** Closing tokens are recognised by their text alone, so a string literal of that text closes too. */
  predicate ClosesCall(t: Token) {
    t == RParen || t == StringTok(")")
  }

  predicate ClosesHistory(t: Token) {
    t == RBracket || t == StringTok("]")
  }

  function ParseTernary(ts: Tokens): (p: Parsed)
    ensures p.Done? ==> |p.rest| < |ts|
    decreases |ts|, 6
  {
    var c := ParseLogical(ts);
    if c.Fail? || First(c.rest) != Question then c
    else
      var t := ParseTernary(c.rest[1..]);
      if t.Fail? || First(t.rest) != Colon then Fail
      else
        var f := ParseTernary(t.rest[1..]);
        if f.Fail? then Fail else Done(Ternary(c.e, t.e, f.e), f.rest)
  }

  function ParseLogical(ts: Tokens): (p: Parsed)
    ensures p.Done? ==> |p.rest| < |ts|
    decreases |ts|, 5
  {
    var l := ParseComparison(ts);
    if l.Fail? then Fail else LogicalRest(l.e, l.rest)
  }

  function LogicalRest(left: Expr, ts: Tokens): (p: Parsed)
    ensures p.Done? ==> |p.rest| <= |ts|
    decreases |ts|, 0
  {
    if !IsLogic(First(ts)) then Done(left, ts)
    else
      var r := ParseComparison(ts[1..]);
      if r.Fail? then Fail else LogicalRest(Logic(LogicOf(ts[0]), left, r.e), r.rest)
  }

  function ParseComparison(ts: Tokens): (p: Parsed)
    ensures p.Done? ==> |p.rest| < |ts|
    decreases |ts|, 4
  {
    var l := ParseAdditive(ts);
    if l.Fail? then Fail else ComparisonRest(l.e, l.rest)
  }

  function ComparisonRest(left: Expr, ts: Tokens): (p: Parsed)
    ensures p.Done? ==> |p.rest| <= |ts|
    decreases |ts|, 0
  {
    if !First(ts).CompareTok? then Done(left, ts)
    else
      var r := ParseAdditive(ts[1..]);
      if r.Fail? then Fail else ComparisonRest(Comparison(ts[0].cop, left, r.e), r.rest)
  }

  function ParseAdditive(ts: Tokens): (p: Parsed)
    ensures p.Done? ==> |p.rest| < |ts|
    decreases |ts|, 3
  {
    var l := ParseMultiplicative(ts);
    if l.Fail? then Fail else AdditiveRest(l.e, l.rest)
  }

  function AdditiveRest(left: Expr, ts: Tokens): (p: Parsed)
    ensures p.Done? ==> |p.rest| <= |ts|
    decreases |ts|, 0
  {
    if !IsAdditive(First(ts)) then Done(left, ts)
    else
      var r := ParseMultiplicative(ts[1..]);
      if r.Fail? then Fail else AdditiveRest(Arith(ts[0].aop, left, r.e), r.rest)
  }

  function ParseMultiplicative(ts: Tokens): (p: Parsed)
    ensures p.Done? ==> |p.rest| < |ts|
    decreases |ts|, 2
  {
    var l := ParseUnary(ts);
    if l.Fail? then Fail else MultiplicativeRest(l.e, l.rest)
  }

  function MultiplicativeRest(left: Expr, ts: Tokens): (p: Parsed)
    ensures p.Done? ==> |p.rest| <= |ts|
    decreases |ts|, 0
  {
    if !IsMultiplicative(First(ts)) then Done(left, ts)
    else
      var r := ParseUnary(ts[1..]);
      if r.Fail? then Fail else MultiplicativeRest(Arith(ts[0].aop, left, r.e), r.rest)
  }

  function ParseUnary(ts: Tokens): (p: Parsed)
    ensures p.Done? ==> |p.rest| < |ts|
    decreases |ts|, 1
  {
    if IsWord(First(ts), "not") then
      var v := ParseUnary(ts[1..]);
      if v.Fail? then Fail else Done(Not(v.e), v.rest)
    else if First(ts) == OpTok(Minus) then
      var v := ParseUnary(ts[1..]);
      if v.Fail? then Fail else Done(Neg(v.e), v.rest)
    else ParsePrimary(ts)
  }

  function ParsePrimary(ts: Tokens): (p: Parsed)
    ensures p.Done? ==> |p.rest| < |ts|
    decreases |ts|, 0
  {
    match First(ts)
    case NumberTok(r) => Done(NumberLit(r), ts[1..])
    case StringTok(t) => Done(TextLit(t), ts[1..])
    case ColorTok(c) => Done(ColorLit(c), ts[1..])
    case IdentTok(name) =>
      if First(ts[1..]) == LParen then
        var a := ParseArguments(ts[2..]);
        if a.FailArgs? || !ClosesCall(First(a.rest)) then Fail
        else Postfix(Call(name, a.args), a.rest[1..])
      else Postfix(Name(name), ts[1..])
    case LParen =>
      var v := ParseTernary(ts[1..]);
      if v.Fail? || !ClosesCall(First(v.rest)) then Fail else Done(v.e, v.rest[1..])
    case _ => Fail
  }

  function ParseArguments(ts: Tokens): (p: ParsedArgs)
    ensures p.DoneArgs? ==> |p.rest| <= |ts|
    decreases |ts|, 8
  {
    if First(ts) == RParen then DoneArgs(NoArgs, ts) else ParseArgList(ts)
  }

  predicate HasKey(ts: Tokens) {
    |ts| >= 2 && ts[0].IdentTok? && ts[1] == Equals
  }

  function ParseArgList(ts: Tokens): (p: ParsedArgs)
    ensures p.DoneArgs? ==> |p.rest| < |ts|
    decreases |ts|, 7
  {
    var key := if HasKey(ts) then ts[0].text else "";
    var v := ParseTernary(if HasKey(ts) then ts[2..] else ts);
    if v.Fail? then FailArgs
    else if First(v.rest) == Comma then
      var more := ParseArgList(v.rest[1..]);
      if more.FailArgs? then FailArgs else DoneArgs(Arg(key, v.e, more.args), more.rest)
    else DoneArgs(Arg(key, v.e, NoArgs), v.rest)
  }

  function Postfix(base: Expr, ts: Tokens): (p: Parsed)
    ensures p.Done? ==> |p.rest| <= |ts|
    decreases |ts|, 0
  {
    if First(ts) != LBracket then Done(base, ts)
    else if |ts| < 3 || !ts[1].NumberTok? || !ClosesHistory(ts[2]) then Fail
    else Postfix(History(base, RoundAtLeast(ts[1].r, 0)), ts[3..])
  }

  /** The tree of a whole text, nothing left over. */
  function Read(ts: Tokens): Option<Expr> {
    var p := ParseTernary(ts);
    if p.Done? && p.rest == [] then Some(p.e) else None
  }

  /** What the parser yields for a text. */
  function EvalText(ts: Tokens, ctx: Context): Option<Value>
    requires ctx.Valid()
  {
    match Read(ts)
    case Some(e) => Eval(e, ctx)
    case None => None
  }

  // ----- A phrase reads the same whatever follows the token that ended it -----

  /** The phrase ended before its text did, or what follows cannot continue any phrase. */
  predicate Ended(rest: Tokens, s: Tokens) {
    |rest| > 0 || First(s) == RParen
  }

  /** The same for phrases below comparisons, which a comparison sign ends as well. */
  predicate EndedSum(rest: Tokens, s: Tokens) {
    Ended(rest, s) || First(s).CompareTok?
  }

  function Then(p: Parsed, s: Tokens): Parsed {
    if p.Fail? then Fail else Done(p.e, p.rest + s)
  }

  lemma {:induction false} FirstOf(ts: Tokens, s: Tokens)
    ensures |ts| > 0 ==> First(ts + s) == First(ts) && (ts + s)[1..] == ts[1..] + s
    ensures |ts| == 0 ==> First(ts + s) == First(s)
  {
  }

  lemma {:induction false} TernaryThen(ts: Tokens, s: Tokens)
    requires ParseTernary(ts).Done? && Ended(ParseTernary(ts).rest, s)
    ensures ParseTernary(ts + s) == Then(ParseTernary(ts), s)
    decreases |ts|, 6
  {
    var c := ParseLogical(ts);
    LogicalThen(ts, s);
    FirstOf(c.rest, s);
    if First(c.rest) == Question {
      var t := ParseTernary(c.rest[1..]);
      TernaryThen(c.rest[1..], s);
      FirstOf(t.rest, s);
      TernaryThen(t.rest[1..], s);
    }
  }

  lemma {:induction false} LogicalThen(ts: Tokens, s: Tokens)
    requires ParseLogical(ts).Done? && Ended(ParseLogical(ts).rest, s)
    ensures ParseLogical(ts + s) == Then(ParseLogical(ts), s)
    decreases |ts|, 5
  {
    ComparisonThen(ts, s);
    LogicalRestThen(ParseComparison(ts).e, ParseComparison(ts).rest, s);
  }

  lemma {:induction false} LogicalRestThen(left: Expr, ts: Tokens, s: Tokens)
    requires LogicalRest(left, ts).Done? && Ended(LogicalRest(left, ts).rest, s)
    ensures LogicalRest(left, ts + s) == Then(LogicalRest(left, ts), s)
    decreases |ts|, 0
  {
    FirstOf(ts, s);
    if IsLogic(First(ts)) {
      ComparisonThen(ts[1..], s);
      var r := ParseComparison(ts[1..]);
      LogicalRestThen(Logic(LogicOf(ts[0]), left, r.e), r.rest, s);
    }
  }

  lemma {:induction false} ComparisonThen(ts: Tokens, s: Tokens)
    requires ParseComparison(ts).Done? && Ended(ParseComparison(ts).rest, s)
    ensures ParseComparison(ts + s) == Then(ParseComparison(ts), s)
    decreases |ts|, 4
  {
    AdditiveThen(ts, s);
    ComparisonRestThen(ParseAdditive(ts).e, ParseAdditive(ts).rest, s);
  }

  lemma {:induction false} ComparisonRestThen(left: Expr, ts: Tokens, s: Tokens)
    requires ComparisonRest(left, ts).Done? && Ended(ComparisonRest(left, ts).rest, s)
    ensures ComparisonRest(left, ts + s) == Then(ComparisonRest(left, ts), s)
    decreases |ts|, 0
  {
    FirstOf(ts, s);
    if First(ts).CompareTok? {
      AdditiveThen(ts[1..], s);
      var r := ParseAdditive(ts[1..]);
      ComparisonRestThen(Comparison(ts[0].cop, left, r.e), r.rest, s);
    }
  }

  lemma {:induction false} AdditiveThen(ts: Tokens, s: Tokens)
    requires ParseAdditive(ts).Done? && EndedSum(ParseAdditive(ts).rest, s)
    ensures ParseAdditive(ts + s) == Then(ParseAdditive(ts), s)
    decreases |ts|, 3
  {
    MultiplicativeThen(ts, s);
    AdditiveRestThen(ParseMultiplicative(ts).e, ParseMultiplicative(ts).rest, s);
  }

  lemma {:induction false} AdditiveRestThen(left: Expr, ts: Tokens, s: Tokens)
    requires AdditiveRest(left, ts).Done? && EndedSum(AdditiveRest(left, ts).rest, s)
    ensures AdditiveRest(left, ts + s) == Then(AdditiveRest(left, ts), s)
    decreases |ts|, 0
  {
    FirstOf(ts, s);
    if IsAdditive(First(ts)) {
      MultiplicativeThen(ts[1..], s);
      var r := ParseMultiplicative(ts[1..]);
      AdditiveRestThen(Arith(ts[0].aop, left, r.e), r.rest, s);
    }
  }

  lemma {:induction false} MultiplicativeThen(ts: Tokens, s: Tokens)
    requires ParseMultiplicative(ts).Done? && EndedSum(ParseMultiplicative(ts).rest, s)
    ensures ParseMultiplicative(ts + s) == Then(ParseMultiplicative(ts), s)
    decreases |ts|, 2
  {
    UnaryThen(ts, s);
    MultiplicativeRestThen(ParseUnary(ts).e, ParseUnary(ts).rest, s);
  }

  lemma {:induction false} MultiplicativeRestThen(left: Expr, ts: Tokens, s: Tokens)
    requires MultiplicativeRest(left, ts).Done? && EndedSum(MultiplicativeRest(left, ts).rest, s)
    ensures MultiplicativeRest(left, ts + s) == Then(MultiplicativeRest(left, ts), s)
    decreases |ts|, 0
  {
    FirstOf(ts, s);
    if IsMultiplicative(First(ts)) {
      UnaryThen(ts[1..], s);
      var r := ParseUnary(ts[1..]);
      MultiplicativeRestThen(Arith(ts[0].aop, left, r.e), r.rest, s);
    }
  }

  lemma {:induction false} UnaryThen(ts: Tokens, s: Tokens)
    requires ParseUnary(ts).Done? && EndedSum(ParseUnary(ts).rest, s)
    ensures ParseUnary(ts + s) == Then(ParseUnary(ts), s)
    decreases |ts|, 1
  {
    FirstOf(ts, s);
    if IsWord(First(ts), "not") || First(ts) == OpTok(Minus) {
      UnaryThen(ts[1..], s);
    } else {
      PrimaryThen(ts, s);
    }
  }

  lemma {:induction false} PrimaryThen(ts: Tokens, s: Tokens)
    requires ParsePrimary(ts).Done? && EndedSum(ParsePrimary(ts).rest, s)
    ensures ParsePrimary(ts + s) == Then(ParsePrimary(ts), s)
    decreases |ts|, 0
  {
    FirstOf(ts, s);
    match First(ts)
    case IdentTok(name) =>
      FirstOf(ts[1..], s);
      if First(ts[1..]) == LParen {
        var a := ParseArguments(ts[2..]);
        assert (ts + s)[2..] == ts[2..] + s;
        ArgumentsThen(ts[2..], s);
        FirstOf(a.rest, s);
        PostfixThen(Call(name, a.args), a.rest[1..], s);
      } else {
        PostfixThen(Name(name), ts[1..], s);
      }
    case LParen =>
      TernaryThen(ts[1..], s);
      FirstOf(ParseTernary(ts[1..]).rest, s);
    case _ =>
  }

  lemma {:induction false} ArgumentsThen(ts: Tokens, s: Tokens)
    requires ParseArguments(ts).DoneArgs? && Ended(ParseArguments(ts).rest, s)
    ensures ParseArguments(ts + s) == DoneArgs(ParseArguments(ts).args, ParseArguments(ts).rest + s)
    decreases |ts|, 8
  {
    FirstOf(ts, s);
    if First(ts) != RParen {
      ArgListThen(ts, s);
    }
  }

  lemma {:induction false} ArgListThen(ts: Tokens, s: Tokens)
    requires ParseArgList(ts).DoneArgs? && Ended(ParseArgList(ts).rest, s)
    ensures ParseArgList(ts + s) == DoneArgs(ParseArgList(ts).args, ParseArgList(ts).rest + s)
    decreases |ts|, 7
  {
    assert HasKey(ts + s) == HasKey(ts);
    var body := if HasKey(ts) then ts[2..] else ts;
    assert (if HasKey(ts) then (ts + s)[2..] else ts + s) == body + s;
    TernaryThen(body, s);
    var v := ParseTernary(body);
    FirstOf(v.rest, s);
    if First(v.rest) == Comma {
      ArgListThen(v.rest[1..], s);
    }
  }

  lemma {:induction false} PostfixThen(base: Expr, ts: Tokens, s: Tokens)
    requires Postfix(base, ts).Done? && EndedSum(Postfix(base, ts).rest, s)
    ensures Postfix(base, ts + s) == Then(Postfix(base, ts), s)
    decreases |ts|, 0
  {
    FirstOf(ts, s);
    if First(ts) == LBracket {
      assert (ts + s)[3..] == ts[3..] + s;
      PostfixThen(History(base, RoundAtLeast(ts[1].r, 0)), ts[3..], s);
    }
  }

  /** A name on its own reads as that name, unless it is the word `not`. */
  lemma {:induction false} NameReads(name: string)
    requires Lower(name) != "not"
    ensures Read([IdentTok(name)]) == Some(Name(name))
  {
    var ts := [IdentTok(name)];
    assert ts[1..] == [];
    assert ParseUnary(ts) == ParsePrimary(ts) == Done(Name(name), []);
    assert ParseMultiplicative(ts) == Done(Name(name), []);
    assert ParseAdditive(ts) == Done(Name(name), []);
    assert ParseComparison(ts) == Done(Name(name), []);
    assert ParseLogical(ts) == Done(Name(name), []);
  }

  // ----- Parenthesised texts -----

  function Paren(ts: Tokens): Tokens {
    [LParen] + ts + [RParen]
  }

  /** A complete text in parentheses reads as its own tree, and stops the phrase there. */
  lemma {:induction false} ParenReads(ts: Tokens, s: Tokens)
    requires Read(ts).Some?
    ensures ParsePrimary(Paren(ts) + s) == Done(Read(ts).value, s)
    ensures ParseUnary(Paren(ts) + s) == Done(Read(ts).value, s)
  {
    var all := Paren(ts) + s;
    assert all[1..] == ts + ([RParen] + s);
    TernaryThen(ts, [RParen] + s);
    assert [] + ([RParen] + s) == [RParen] + s;
    assert ([RParen] + s)[1..] == s;
  }

  /** The text "(condition) ? (whenTrue) : (whenFalse)". */
  function TernaryText(condition: Tokens, whenTrue: Tokens, whenFalse: Tokens): Tokens {
    Paren(condition) + [Question] + Paren(whenTrue) + [Colon] + Paren(whenFalse)
  }

  /** The token after a phrase that no operator loop takes. */
  predicate EndsLogical(s: Tokens) {
    && !IsMultiplicative(First(s)) && !IsAdditive(First(s)) && !First(s).CompareTok? && !IsLogic(First(s))
  }

  lemma {:induction false} ParenIsLogical(ts: Tokens, s: Tokens)
    requires Read(ts).Some? && EndsLogical(s)
    ensures ParseLogical(Paren(ts) + s) == Done(Read(ts).value, s)
  {
    ParenReads(ts, s);
    var e := Read(ts).value;
    var all := Paren(ts) + s;
    assert ParseMultiplicative(all) == MultiplicativeRest(e, s) == Done(e, s);
    assert ParseAdditive(all) == AdditiveRest(e, s) == Done(e, s);
    assert ParseComparison(all) == ComparisonRest(e, s) == Done(e, s);
  }

  /** The lowered conditional reads as the conditional of its three texts. */
  lemma {:induction false} TernaryTextReads(condition: Tokens, whenTrue: Tokens, whenFalse: Tokens)
    requires Read(condition).Some? && Read(whenTrue).Some? && Read(whenFalse).Some?
    ensures Read(TernaryText(condition, whenTrue, whenFalse))
            == Some(Ternary(Read(condition).value, Read(whenTrue).value, Read(whenFalse).value))
  {
    hide ParseLogical;
    var s3: Tokens := [];
    var f := Paren(whenFalse) + s3;
    var s2 := [Colon] + f;
    var t := Paren(whenTrue) + s2;
    var s1 := [Question] + t;
    assert TernaryText(condition, whenTrue, whenFalse) == Paren(condition) + s1;
    ParenIsLogical(condition, s1);
    assert s1[1..] == t;
    ParenIsLogical(whenTrue, s2);
    assert ParseTernary(t) == Done(Read(whenTrue).value, s2);
    assert s2[1..] == f;
    ParenIsLogical(whenFalse, s3);
    assert ParseTernary(f) == Done(Read(whenFalse).value, s3);
  }

  // ----- The unparenthesised test "selector == label" of a lowered switch -----

  function TestText(selector: Tokens, caseLabel: Tokens): Tokens {
    selector + [CompareTok(Equal)] + caseLabel
  }

  /** The text reads to its end without a top-level `and`, `or` or `?`. */
  predicate IsComparison(ts: Tokens) {
    ParseComparison(ts).Done? && ParseComparison(ts).rest == []
  }

  /** Nor a top-level comparison sign. */
  predicate IsSum(ts: Tokens) {
    ParseAdditive(ts).Done? && ParseAdditive(ts).rest == []
  }

  function Spine(e: Expr): nat {
    if e.Comparison? then 1 + Spine(e.left) else 0
  }

  lemma {:induction false} ComparisonRestOnto(left: Expr, ts: Tokens, s: Tokens)
    requires ComparisonRest(left, ts).Done? && ComparisonRest(left, ts).rest == [] && First(s).CompareTok?
    ensures ComparisonRest(left, ts + s) == ComparisonRest(ComparisonRest(left, ts).e, s)
    decreases |ts|
  {
    FirstOf(ts, s);
    if |ts| == 0 {
      assert ts + s == s;
    } else {
      var r := ParseAdditive(ts[1..]);
      AdditiveThen(ts[1..], s);
      ComparisonRestOnto(Comparison(ts[0].cop, left, r.e), r.rest, s);
    }
  }

  lemma {:induction false} ComparisonRestGrows(left: Expr, ts: Tokens)
    requires ComparisonRest(left, ts).Done?
    ensures Spine(ComparisonRest(left, ts).e) >= Spine(left)
    ensures First(ts).CompareTok? ==> Spine(ComparisonRest(left, ts).e) > Spine(left)
    decreases |ts|
  {
    if First(ts).CompareTok? {
      var r := ParseAdditive(ts[1..]);
      ComparisonRestGrows(Comparison(ts[0].cop, left, r.e), r.rest);
    }
  }

  lemma {:induction false} LogicalRestIsLogic(left: Expr, ts: Tokens)
    requires LogicalRest(left, ts).Done? && left.Logic?
    ensures LogicalRest(left, ts).e.Logic?
    decreases |ts|
  {
    if IsLogic(First(ts)) {
      var r := ParseComparison(ts[1..]);
      LogicalRestIsLogic(Logic(LogicOf(ts[0]), left, r.e), r.rest);
    }
  }

  /** A text reads as a comparison exactly when its comparison phrase is the whole text. */
  lemma {:induction false} ReadsAsComparison(ts: Tokens)
    requires Read(ts).Some?
    ensures ParseComparison(ts).Done?
    ensures IsComparison(ts) ==> Read(ts).value == ParseComparison(ts).e
    ensures !IsComparison(ts) ==> Read(ts).value.Logic? || Read(ts).value.Ternary?
  {
    var l := ParseLogical(ts);
    assert l.Done? by {
      assert ParseTernary(ts).Done?;
    }
    var c := ParseComparison(ts);
    assert c.Done?;
    assert l == LogicalRest(c.e, c.rest);
    if IsLogic(First(c.rest)) {
      var r := ParseComparison(c.rest[1..]);
      LogicalRestIsLogic(Logic(LogicOf(c.rest[0]), c.e, r.e), r.rest);
    }
  }

  lemma {:induction false} ReadsAsSum(ts: Tokens)
    requires Read(ts).Some?
    ensures ParseAdditive(ts).Done?
    ensures IsSum(ts) ==> Read(ts).value == ParseAdditive(ts).e && IsComparison(ts)
  {
    ReadsAsComparison(ts);
    var a := ParseAdditive(ts);
    assert a.Done?;
    assert ParseComparison(ts) == ComparisonRest(a.e, a.rest);
  }

  lemma {:induction false} TestPhrase(selector: Tokens, caseLabel: Tokens)
    requires Read(selector).Some? && Read(caseLabel).Some? && IsComparison(selector)
    ensures ParseAdditive(caseLabel).Done?
    ensures ParseComparison(TestText(selector, caseLabel))
            == ComparisonRest(Comparison(Equal, Read(selector).value, ParseAdditive(caseLabel).e),
                              ParseAdditive(caseLabel).rest)
  {
    var s := [CompareTok(Equal)] + caseLabel;
    assert TestText(selector, caseLabel) == selector + s && s[1..] == caseLabel;
    ReadsAsComparison(selector);
    ReadsAsSum(caseLabel);
    AdditiveThen(selector, s);
    ComparisonRestOnto(ParseAdditive(selector).e, ParseAdditive(selector).rest, s);
  }

  /** The lowered switch test means "selector equals label" exactly when the selector has no top-level
      `and`, `or` or `?`, and the label has none of these nor a comparison sign. */
  lemma {:induction false} TestReadsAsIntendedWhen(selector: Tokens, caseLabel: Tokens)
    requires Read(selector).Some? && Read(caseLabel).Some?
    ensures Read(TestText(selector, caseLabel)) == Some(Comparison(Equal, Read(selector).value, Read(caseLabel).value))
            <==> IsComparison(selector) && IsSum(caseLabel)
  {
    var all := TestText(selector, caseLabel);
    var s := [CompareTok(Equal)] + caseLabel;
    assert all == selector + s;
    ReadsAsSum(caseLabel);
    ReadsAsComparison(selector);
    if Read(all).Some? {
      ReadsAsComparison(all);
    }
    if !IsComparison(selector) {
      ComparisonThen(selector, s);
      assert ParseComparison(all).rest == ParseComparison(selector).rest + s;
    } else {
      TestPhrase(selector, caseLabel);
      var a := ParseAdditive(caseLabel);
      var test := Comparison(Equal, Read(selector).value, a.e);
      if a.rest == [] {
        assert ParseComparison(all) == Done(test, []);
        assert ParseLogical(all) == LogicalRest(test, []) == Done(test, []);
        assert ParseTernary(all) == Done(test, []);
      } else if IsComparison(all) {
        ComparisonRestGrows(test, a.rest);
        assert First(a.rest).CompareTok?;
      }
    }
  }

  // ----- Conjunctions of parenthesised tests, some under `not` -----

  datatype Literal = Literal(negated: bool, condition: Tokens)

  const AND_TOKEN := IdentTok("and")
  const NOT_TOKEN := IdentTok("not")

  function LiteralText(l: Literal): Tokens {
    (if l.negated then [NOT_TOKEN] else []) + Paren(l.condition)
  }

  function LiteralTree(l: Literal): Expr
    requires Read(l.condition).Some?
  {
    if l.negated then Not(Read(l.condition).value) else Read(l.condition).value
  }

  predicate Readable(ls: seq<Literal>) {
    forall i | 0 <= i < |ls| :: Read(ls[i].condition).Some?
  }

  function ConjunctionText(ls: seq<Literal>): Tokens {
    if |ls| == 0 then []
    else if |ls| == 1 then LiteralText(ls[0])
    else ConjunctionText(ls[..|ls| - 1]) + [AND_TOKEN] + LiteralText(ls[|ls| - 1])
  }

  function ConjunctionTree(ls: seq<Literal>): Expr
    requires |ls| > 0 && Readable(ls)
  {
    if |ls| == 1 then LiteralTree(ls[0])
    else Logic(And, ConjunctionTree(ls[..|ls| - 1]), LiteralTree(ls[|ls| - 1]))
  }

  lemma {:induction false} LiteralReads(l: Literal, s: Tokens)
    requires Read(l.condition).Some?
    requires !IsMultiplicative(First(s)) && !IsAdditive(First(s)) && !First(s).CompareTok?
    ensures ParseComparison(LiteralText(l) + s) == Done(LiteralTree(l), s)
  {
    var all := LiteralText(l) + s;
    ParenReads(l.condition, s);
    if l.negated {
      assert all == [NOT_TOKEN] + (Paren(l.condition) + s);
      assert all[1..] == Paren(l.condition) + s;
      assert Lower("not") == "not";
    } else {
      assert all == Paren(l.condition) + s;
    }
    var e := LiteralTree(l);
    assert ParseUnary(all) == Done(e, s);
    assert ParseMultiplicative(all) == MultiplicativeRest(e, s) == Done(e, s);
    assert ParseAdditive(all) == AdditiveRest(e, s) == Done(e, s);
  }

  lemma {:induction false} AndIsLogic()
    ensures IsLogic(AND_TOKEN) && LogicOf(AND_TOKEN) == And
  {
  }

  lemma {:induction false} ConjunctionThen(ls: seq<Literal>, s: Tokens)
    requires |ls| > 0 && Readable(ls)
    requires !IsMultiplicative(First(s)) && !IsAdditive(First(s)) && !First(s).CompareTok?
    ensures ParseLogical(ConjunctionText(ls) + s) == LogicalRest(ConjunctionTree(ls), s)
    decreases |ls|
  {
    var last := ls[|ls| - 1];
    if |ls| == 1 {
      LiteralReads(ls[0], s);
    } else {
      var front := ls[..|ls| - 1];
      var t := LiteralText(last) + s;
      assert ConjunctionText(ls) + s == ConjunctionText(front) + ([AND_TOKEN] + t);
      AndIsLogic();
      ConjunctionThen(front, [AND_TOKEN] + t);
      assert ([AND_TOKEN] + t)[1..] == t;
      LiteralReads(last, s);
    }
  }

  /** "(a) and not (b) and (c)" reads as the conjunction of its parts. */
  lemma {:induction false} ConjunctionReads(ls: seq<Literal>)
    requires |ls| > 0 && Readable(ls)
    ensures Read(ConjunctionText(ls)) == Some(ConjunctionTree(ls))
  {
    ConjunctionThen(ls, []);
    assert ConjunctionText(ls) + [] == ConjunctionText(ls);
  }
}
