/** Lowering keeps meaning: the conditional text shows, bar by bar, what the block structure selects. */
module PineLoweringMeaning {
  import opened Options
  import opened PineNumbers
  import opened PineValues
  import opened Candles
  import opened PineExpressions
  import opened PineGrammar
  import opened PineBlocks
  import opened PineLowering
  import opened PineLoweringShape

  // ----- Expressions that do not use a block's locals -----

  predicate Mentions(e: Expr, names: set<string>) {
    match e
    case Name(name) => name in names
    case Call(_, args) => ArgsMention(args, names)
    case Not(arg) => Mentions(arg, names)
    case Neg(arg) => Mentions(arg, names)
    case Arith(_, left, right) => Mentions(left, names) || Mentions(right, names)
    case Comparison(_, left, right) => Mentions(left, names) || Mentions(right, names)
    case Logic(_, left, right) => Mentions(left, names) || Mentions(right, names)
    case Ternary(c, t, f) => Mentions(c, names) || Mentions(t, names) || Mentions(f, names)
    case History(base, _) => Mentions(base, names)
    case _ => false
  }

  predicate ArgsMention(args: Args, names: set<string>) {
    args.Arg? && (Mentions(args.value, names) || ArgsMention(args.rest, names))
  }

  /** The two contexts differ in the variables `names` only. */
  ghost predicate SameBut(env: Context, ctx: Context, names: set<string>) {
    && env.Valid() && ctx.Valid()
    && env.candles == ctx.candles && env.constants == ctx.constants && env.print_ == ctx.print_
    && forall name | name !in names ::
         && (name in env.variables <==> name in ctx.variables)
         && (name in ctx.variables ==> env.variables[name] == ctx.variables[name])
  }

  lemma {:induction false} Unmentioned(e: Expr, env: Context, ctx: Context, names: set<string>)
    requires SameBut(env, ctx, names) && !Mentions(e, names)
    ensures Eval(e, env) == Eval(e, ctx)
    decreases e
  {
    hide Apply, FunctionName, Combine, Compare, Logical, LogicalNot, NegateValue, Choose, Shift, ResolveBuiltin,
         BuiltinName;
    match e
    case Call(_, args) => ArgsUnmentioned(args, env, ctx, names);
    case Not(arg) => Unmentioned(arg, env, ctx, names);
    case Neg(arg) => Unmentioned(arg, env, ctx, names);
    case Arith(_, left, right) => Unmentioned(left, env, ctx, names); Unmentioned(right, env, ctx, names);
    case Comparison(_, left, right) => Unmentioned(left, env, ctx, names); Unmentioned(right, env, ctx, names);
    case Logic(_, left, right) => Unmentioned(left, env, ctx, names); Unmentioned(right, env, ctx, names);
    case Ternary(c, t, f) =>
      Unmentioned(c, env, ctx, names);
      Unmentioned(t, env, ctx, names);
      Unmentioned(f, env, ctx, names);
    case History(base, _) => Unmentioned(base, env, ctx, names);
    case _ =>
  }

  lemma {:induction false} ArgsUnmentioned(args: Args, env: Context, ctx: Context, names: set<string>)
    requires SameBut(env, ctx, names) && !ArgsMention(args, names)
    ensures EvalArgs(args, env) == EvalArgs(args, ctx)
    decreases args
  {
    if args.Arg? {
      Unmentioned(args.value, env, ctx, names);
      ArgsUnmentioned(args.rest, env, ctx, names);
    }
  }

  // ----- Trees the lowering is meant for -----

  /** A text that evaluates, without the locals in scope. */
  predicate TextOk(ts: Tokens, ctx: Context, names: set<string>)
    requires ctx.Valid()
  {
    && Read(ts).Some? && !Mentions(Read(ts).value, names)
    && Eval(Read(ts).value, ctx).Some?
  }

  /** A shown text: one that yields numbers, not colours. */
  predicate LeafOk(ts: Tokens, ctx: Context, names: set<string>)
    requires ctx.Valid()
  {
    TextOk(ts, ctx, names) && !Colored(Eval(Read(ts).value, ctx).value)
  }

  predicate RhsOk(rhs: Rhs, ctx: Context, names: set<string>)
    requires ctx.Valid()
    decreases rhs, 0
  {
    match rhs
    case Plain(text) => LeafOk(text, ctx, names)
    case If(tree) => IfOk(tree, ctx, names)
    case Switch(s) =>
      && (s.selector == [] || (TextOk(s.selector, ctx, names) && IsComparison(s.selector)))
      && CasesOk(s.selector, s.cases, ctx, names)
  }

  predicate IfOk(tree: IfTree, ctx: Context, names: set<string>)
    requires ctx.Valid()
  {
    TextOk(tree.condition, ctx, names) && BlockOk(tree.body, ctx, names) && ElseOk(tree.otherwise, ctx, names)
  }

  predicate ElseOk(tree: ElseTree, ctx: Context, names: set<string>)
    requires ctx.Valid()
  {
    match tree
    case ElseIf(t) => IfOk(t, ctx, names)
    case Else(body) => BlockOk(body, ctx, names)
  }

  predicate BlockOk(b: Block, ctx: Context, names: set<string>)
    requires ctx.Valid()
  {
    BodyOk(b.body, ctx, names, {})
  }

  predicate IsBareLocal(rhs: Rhs, own: set<string>) {
    rhs.Plain? && |rhs.text| == 1 && rhs.text[0].IdentTok? && rhs.text[0].text in own
  }

  /** A local is used as a bare final name of its own block, or not at all. */
  predicate BodyOk(b: Body, ctx: Context, outer: set<string>, own: set<string>)
    requires ctx.Valid()
  {
    match b
    case End => true
    case Then(Blank(_), rest) => BodyOk(rest, ctx, outer, own)
    case Then(Yield(value), rest) =>
      && (IsBareLocal(value, own) || RhsOk(value, ctx, outer + own))
      && BodyOk(rest, ctx, outer, own)
    case Then(Assign(_, name, value), rest) =>
      && name != "na" && Lower(name) != "not"
      && RhsOk(value, ctx, outer + own)
      && BodyOk(rest, ctx, outer, own + {name})
  }

  predicate CasesOk(selector: Tokens, cases: Cases, ctx: Context, names: set<string>)
    requires ctx.Valid()
    decreases cases, 1
  {
    match cases
    case NoCases => true
    case Case(caseLabel, value, rest) =>
      && (caseLabel == [] || (TextOk(caseLabel, ctx, names) && (selector == [] || IsSum(caseLabel))))
      && (value == Plain([]) || RhsOk(value, ctx, names))
      && CasesOk(selector, rest, ctx, names)
  }

  // ----- Texts and what they show -----

  /** The text evaluates to numbers and shows x at bar i. */
  ghost predicate Shows(ts: Tokens, ctx: Context, i: nat, x: Num)
    requires ctx.Valid()
  {
    var v := EvalText(ts, ctx);
    v.Some? && !Colored(v.value) && GetAt(v.value, i) == x
  }

  lemma {:induction false} TernaryShows(c: Tokens, t: Tokens, f: Tokens, ctx: Context, i: nat, x: Num, y: Num)
    requires ctx.Valid() && ctx.Bars() >= 2 && i < ctx.Bars()
    requires EvalText(c, ctx).Some? && Shows(t, ctx, i, x) && Shows(f, ctx, i, y)
    ensures Shows(TernaryText(c, t, f), ctx, i, if TruthyAt(EvalText(c, ctx).value, i) then x else y)
  {
    hide TernaryText, Apply, Resolve;
    TernaryTextReads(c, t, f);
  }

  /** na reads as the missing number unless a variable or constant takes its name. */
  ghost predicate NaFree(ctx: Context) {
    "na" !in ctx.variables && "na" !in ctx.constants
  }

  lemma {:induction false} NaShows(ctx: Context, i: nat)
    requires ctx.Valid() && NaFree(ctx)
    ensures Shows(NA, ctx, i, NaN)
  {
    hide Apply, FunctionName, Read;
    assert Lower("na") == "na";
    NameReads("na");
    assert BuiltinName("na") == NaName;
  }

  lemma {:induction false} TestMeans(selector: Tokens, caseLabel: Tokens, env: Context, ctx: Context,
          names: set<string>, i: nat)
    requires SameBut(env, ctx, names) && caseLabel != []
    requires TextOk(caseLabel, ctx, names)
    requires selector != [] ==> TextOk(selector, ctx, names) && IsComparison(selector) && IsSum(caseLabel)
    ensures EvalText(CaseTest(selector, caseLabel), ctx).Some?
    ensures TruthyAt(EvalText(CaseTest(selector, caseLabel), ctx).value, i)
            <==> CaseHoldsAt(selector, caseLabel, env, i)
  {
    hide TestText, Compare, IsComparison, IsSum;
    Unmentioned(Read(caseLabel).value, env, ctx, names);
    if selector != [] {
      Unmentioned(Read(selector).value, env, ctx, names);
      TestReadsAsIntendedWhen(selector, caseLabel);
    }
  }

  // ----- The theorem, construct by construct -----

  lemma {:induction false} RhsMeans(rhs: Rhs, env: Context, ctx: Context, names: set<string>, i: nat)
    requires SameBut(env, ctx, names) && NaFree(ctx) && NaFree(env) && ctx.Bars() >= 2 && i < ctx.Bars()
    requires RhsOk(rhs, ctx, names)
    ensures Shows(RhsText(rhs), ctx, i, RhsAt(rhs, env, i))
    decreases rhs, 0
  {
    hide SwitchText, FallbackText, TernaryText;
    match rhs
    case Plain(text) =>
      Unmentioned(Read(text).value, env, ctx, names);
    case If(tree) =>
      IfMeans(tree, env, ctx, names, i);
    case Switch(s) =>
      NaShows(ctx, i);
      FallbackMeans(s.selector, s.cases, NA, NaN, env, ctx, names, i);
      FallbackTextFromFront(CaseTexts(s.cases), NA);
      CasesMean(s.selector, s.cases, FallbackText(CaseTexts(s.cases)), FallbackAt(s.cases, NaN, env, i), env, ctx,
                names, i);
  }

  lemma {:induction false} IfMeans(tree: IfTree, env: Context, ctx: Context, names: set<string>, i: nat)
    requires SameBut(env, ctx, names) && NaFree(ctx) && NaFree(env) && ctx.Bars() >= 2 && i < ctx.Bars()
    requires IfOk(tree, ctx, names)
    ensures Shows(IfText(tree), ctx, i, IfAt(tree, env, i))
    decreases tree, 1
  {
    hide TernaryText, Shows, BlockText, BlockAt;
    Unmentioned(Read(tree.condition).value, env, ctx, names);
    BlockMeans(tree.body, env, ctx, names, i);
    match tree.otherwise {
      case ElseIf(t) => IfMeans(t, env, ctx, names, i);
      case Else(body) => BlockMeans(body, env, ctx, names, i);
    }
    var y := match tree.otherwise case ElseIf(t) => IfAt(t, env, i) case Else(body) => BlockAt(body, env, i);
    TernaryShows(tree.condition, BlockText(tree.body), ElseText(tree.otherwise), ctx, i, BlockAt(tree.body, env, i), y);
  }

  lemma {:induction false} BlockMeans(b: Block, env: Context, ctx: Context, names: set<string>, i: nat)
    requires SameBut(env, ctx, names) && NaFree(ctx) && NaFree(env) && ctx.Bars() >= 2 && i < ctx.Bars()
    requires BlockOk(b, ctx, names)
    ensures Shows(BlockText(b), ctx, i, BlockAt(b, env, i))
    decreases b, 1
  {
    hide Shows, BodyText, BodyAt;
    NaShows(ctx, i);
    var none: map<string, Tokens> := map[];
    assert names + none.Keys == names;
    assert none.Keys == {};
    BodyMeans(b.body, env, ctx, names, none, NA, NaN, i);
  }

  /** The text shows, on every bar, what the variable holds. */
  ghost predicate Holds(text: Tokens, v: Value, ctx: Context)
    requires ctx.Valid()
  {
    forall j: nat | j < ctx.Bars() :: Shows(text, ctx, j, GetAt(v, j))
  }

  /** Every local's text shows what the local variable holds. */
  ghost predicate LocalsMean(locals: map<string, Tokens>, env: Context, ctx: Context)
    requires env.Valid() && ctx.Valid()
  {
    forall name <- locals ::
      && name in env.variables && Lower(name) != "not"
      && Holds(locals[name], env.variables[name], ctx)
  }

  lemma {:induction false} BodyMeans(b: Body, env: Context, ctx: Context, outer: set<string>,
          locals: map<string, Tokens>, text: Tokens, shown: Num, i: nat)
    requires SameBut(env, ctx, outer + locals.Keys) && NaFree(ctx) && NaFree(env) && ctx.Bars() >= 2 && i < ctx.Bars()
    requires BodyOk(b, ctx, outer, locals.Keys) && LocalsMean(locals, env, ctx)
    requires Shows(text, ctx, i, shown)
    ensures Shows(BodyText(b, locals, text), ctx, i, BodyAt(b, env, shown, i))
    decreases b, 1
  {
    hide Shows, LocalsMean, RhsOk, EvalText;
    match b
    case End =>
    case Then(Blank(_), rest) =>
      BodyMeans(rest, env, ctx, outer, locals, text, shown, i);
    case Then(Yield(value), rest) =>
      if IsBareLocal(value, locals.Keys) {
        BareLocalMeans(value.text[0].text, locals, env, ctx, i);
        assert value.text == [IdentTok(value.text[0].text)];
      } else {
        RhsMeans(value, env, ctx, outer + locals.Keys, i);
      }
      BodyMeans(rest, env, ctx, outer, locals, YieldText(value, locals), RhsAt(value, env, i), i);
    case Then(Assign(_, name, value), rest) =>
      var local := Series(seq(env.Bars(), j requires 0 <= j => RhsAt(value, env, j)));
      var env' := env.(variables := env.variables[name := local]);
      var locals' := locals[name := RhsText(value)];
      forall j: nat | j < ctx.Bars()
        ensures Shows(RhsText(value), ctx, j, RhsAt(value, env, j))
      {
        RhsMeans(value, env, ctx, outer + locals.Keys, j);
      }
      SameBars(env, ctx, outer + locals.Keys);
      LocalAssigned(name, RhsText(value), local, locals, env, ctx, outer);
      assert locals'.Keys == locals.Keys + {name};
      BodyMeans(rest, env', ctx, outer, locals', RhsText(value), RhsAt(value, env, i), i);
  }

  lemma {:induction false} SameBars(env: Context, ctx: Context, names: set<string>)
    requires SameBut(env, ctx, names)
    ensures env.Bars() == ctx.Bars()
  {
  }

  lemma {:induction false} BareLocalMeans(name: string, locals: map<string, Tokens>, env: Context, ctx: Context, i: nat)
    requires env.Valid() && ctx.Valid() && LocalsMean(locals, env, ctx) && name in locals && i < ctx.Bars()
    ensures Shows(locals[name], ctx, i, RhsAt(Plain([IdentTok(name)]), env, i))
  {
    NameReads(name);
    assert EvalText([IdentTok(name)], env) == Some(env.variables[name]);
  }

  lemma {:induction false} LocalAssigned(name: string, text: Tokens, local: Value, locals: map<string, Tokens>,
          env: Context, ctx: Context, outer: set<string>)
    requires SameBut(env, ctx, outer + locals.Keys) && LocalsMean(locals, env, ctx)
    requires Fits(local, env.Bars()) && Lower(name) != "not"
    requires Holds(text, local, ctx)
    ensures var env' := env.(variables := env.variables[name := local]);
            && SameBut(env', ctx, outer + locals[name := text].Keys)
            && LocalsMean(locals[name := text], env', ctx)
  {
    hide Holds, Lower;
    var env' := env.(variables := env.variables[name := local]);
    var locals' := locals[name := text];
    assert locals'.Keys == locals.Keys + {name};
    assert env'.Valid() by {
      forall other | other in env'.variables
        ensures Fits(env'.variables[other], env'.Bars())
      {
      }
    }
    assert SameBut(env', ctx, outer + locals'.Keys);
    forall other | other in locals'
      ensures other in env'.variables && Lower(other) != "not" && Holds(locals'[other], env'.variables[other], ctx)
    {
      if other != name {
        assert other in locals;
      }
    }
  }

  // ----- Switches -----

  function FallbackFrom(cases: seq<SwitchCase>, otherwise: Tokens): Tokens {
    if |cases| == 0 then otherwise
    else FallbackFrom(cases[1..], if cases[0].caseLabel == [] then cases[0].value else otherwise)
  }

  lemma {:induction false} FallbackTextFromFront(cases: seq<SwitchCase>, otherwise: Tokens)
    requires otherwise == NA
    ensures FallbackText(cases) == FallbackFrom(cases, otherwise)
  {
    if |cases| > 0 {
      var front, last := cases[..|cases| - 1], cases[|cases| - 1];
      FallbackTextFromFront(front, otherwise);
      FallbackFromSnoc(front, last, otherwise);
      assert front + [last] == cases;
    }
  }

  lemma {:induction false} FallbackFromSnoc(front: seq<SwitchCase>, last: SwitchCase, otherwise: Tokens)
    ensures FallbackFrom(front + [last], otherwise) == if last.caseLabel
            == [] then last.value else FallbackFrom(front, otherwise)
  {
    if |front| > 0 {
      assert (front + [last])[1..] == front[1..] + [last];
      FallbackFromSnoc(front[1..], last, if front[0].caseLabel == [] then front[0].value else otherwise);
    } else {
      assert front + [last] == [last] && [last][1..] == [];
    }
  }

  lemma {:induction false} CaseValueMeans(value: Rhs, env: Context, ctx: Context, names: set<string>, i: nat)
    requires SameBut(env, ctx, names) && NaFree(ctx) && NaFree(env) && ctx.Bars() >= 2 && i < ctx.Bars()
    requires value == Plain([]) || RhsOk(value, ctx, names)
    ensures Shows(CaseValueText(value), ctx, i, CaseValueAt(value, env, i))
    decreases value, 1
  {
    if value == Plain([]) {
      NaShows(ctx, i);
    } else {
      RhsMeans(value, env, ctx, names, i);
    }
  }

  lemma {:induction false} FallbackMeans(selector: Tokens, cases: Cases, text: Tokens, shown: Num, env: Context,
          ctx: Context, names: set<string>, i: nat)
    requires SameBut(env, ctx, names) && NaFree(ctx) && NaFree(env) && ctx.Bars() >= 2 && i < ctx.Bars()
    requires CasesOk(selector, cases, ctx, names) && Shows(text, ctx, i, shown)
    ensures Shows(FallbackFrom(CaseTexts(cases), text), ctx, i, FallbackAt(cases, shown, env, i))
    decreases cases, 1
  {
    hide Shows, RhsOk, TextOk, IsSum;
    match cases
    case NoCases =>
    case Case(caseLabel, value, rest) =>
      CaseValueMeans(value, env, ctx, names, i);
      assert CaseTexts(cases)[1..] == CaseTexts(rest);
      FallbackMeans(selector, rest, if caseLabel == [] then CaseValueText(value) else text,
                    if caseLabel == [] then CaseValueAt(value, env, i) else shown, env, ctx, names, i);
  }

  lemma {:induction false} CasesMean(selector: Tokens, cases: Cases, text: Tokens, shown: Num, env: Context,
          ctx: Context, names: set<string>, i: nat)
    requires SameBut(env, ctx, names) && NaFree(ctx) && NaFree(env) && ctx.Bars() >= 2 && i < ctx.Bars()
    requires selector == [] || (TextOk(selector, ctx, names) && IsComparison(selector))
    requires CasesOk(selector, cases, ctx, names) && Shows(text, ctx, i, shown)
    ensures Shows(SwitchText(selector, CaseTexts(cases), text), ctx, i, CasesAt(selector, cases, shown, env, i))
    decreases cases, 1
  {
    hide Shows, RhsOk, TextOk, IsSum, IsComparison, TernaryText, CaseTest, CaseHoldsAt, Eval, Read;
    match cases
    case NoCases =>
    case Case(caseLabel, value, rest) =>
      assert CaseTexts(cases)[1..] == CaseTexts(rest);
      CasesMean(selector, rest, text, shown, env, ctx, names, i);
      if caseLabel != [] {
        CaseValueMeans(value, env, ctx, names, i);
        TestMeans(selector, caseLabel, env, ctx, names, i);
        TernaryShows(CaseTest(selector, caseLabel), CaseValueText(value), SwitchText(selector, CaseTexts(rest), text),
                     ctx, i, CaseValueAt(value, env, i), CasesAt(selector, rest, shown, env, i));
      }
  }

  // ----- The whole path: lines to text to value -----

  /** Lowering an if-expression from its lines and evaluating the text shows, at every bar, what the blocks select. */
  lemma {:induction false} LoweringKeepsMeaning(tree: IfTree, indent: nat, rest: Lines, ctx: Context, i: nat)
    requires IfForm(tree) && Settled(rest, indent)
    requires ctx.Valid() && NaFree(ctx) && ctx.Bars() >= 2 && i < ctx.Bars() && IfOk(tree, ctx, {})
    ensures var r := LowerIf(IfLines(tree, indent) + rest, indent, [IF] + tree.condition);
            r.Good? && r.rest == DropBlanks(rest) && Shows(r.text, ctx, i, IfAt(tree, ctx, i))
  {
    hide Shows, IfForm, IfOk, Eval, Read, LowerIf, IfText, IfAt, IfLines, DropBlanks, Settled;
    IfLowers(tree, indent, rest);
    IfMeans(tree, ctx, ctx, {}, i);
  }

  lemma {:induction false} SwitchLoweringKeepsMeaning(s: SwitchTree, indent: nat, rest: Lines, ctx: Context, i: nat)
    requires RhsForm(Switch(s)) && Settled(rest, indent)
    requires ctx.Valid() && NaFree(ctx) && ctx.Bars() >= 2 && i < ctx.Bars() && RhsOk(Switch(s), ctx, {})
    ensures var r := LowerSwitch(CaseLines(s.cases, indent + s.margin) + rest, indent, [SWITCH] + s.selector);
            r.Good? && r.rest == DropBlanks(rest) && Shows(r.text, ctx, i, RhsAt(Switch(s), ctx, i))
  {
    hide Shows, CasesForm, RhsOk, Eval, Read, LowerSwitch, SwitchText, FallbackText, RhsAt, CaseLines, DropBlanks,
         Settled;
    SwitchLowers(s, indent, rest);
    RhsMeans(Switch(s), ctx, ctx, {}, i);
  }

  // ----- Where the lowering departs from the source -----

  /** A single-line branch is shown as it stands exactly when the line is not taken for an assignment;
      "x == y" is one that is. */
  lemma {:induction false} FinalLineKeptWhen(text: Tokens, indent: nat, parentIndent: nat)
    requires text != [] && !StartsIf(text) && !StartsSwitch(text) && parentIndent < indent
    ensures LowerBranch([Line(indent, text, false)], parentIndent) == Good(text, []) <==> AssignMatch(text).None?
  {
    hide LowerBody, LowerRhs, AssignMatch, StartsIf, StartsSwitch, LowerBranch, DropBlanks;
    var line := Line(indent, text, false);
    assert [line] + [] == [line];
    DropNothing(line, []);
    BranchStartsAt([line], parentIndent);
    if AssignMatch(text).Some? {
      var a := AssignMatch(text).value;
      AssignedShorter(text);
      StatementStep(line, [], map[], NA, a.name, a.text);
      NothingFollows(indent, a.text, map[][a.name := a.text]);
    } else {
      YieldStep(line, [], map[], NA);
      NothingFollows(indent, text, map[]);
    }
  }

  lemma {:induction false} NothingFollows(indent: nat, text: Tokens, locals: map<string, Tokens>)
    ensures LowerRhs([], indent, text) == if StartsIf(text) || StartsSwitch(text) then Bad else Good(text, [])
    ensures LowerBody([], indent, locals, text) == Good(text, [])
  {
  }

  lemma {:induction false} AssignedShorter(text: Tokens)
    requires AssignMatch(text).Some?
    ensures |AssignMatch(text).value.text| < |text|
  {
  }

  /** A branch ending in "name == text" never evaluates: its lowered text starts with an equals sign. */
  lemma {:induction false} ComparisonLineIsLost(name: string, right: Tokens, indent: nat, parentIndent: nat,
          ctx: Context)
    requires IsPlainName(name) && parentIndent < indent && ctx.Valid()
    requires IdentTok(name) != IF && IdentTok(name) != SWITCH
    ensures var line := Line(indent, [IdentTok(name), CompareTok(Equal)] + right, false);
            && LowerBranch([line], parentIndent) == Good([Equals] + right, [])
            && EvalText([Equals] + right, ctx) == None
  {
    hide LowerBody, LowerRhs, AssignMatch, LowerBranch, DropBlanks, EvalText;
    var text := [IdentTok(name), CompareTok(Equal)] + right;
    var ls := [Line(indent, text, false)];
    ComparisonTakenForAssignment(name, right);
    assert EvalText([Equals] + right, ctx) == None by {
      EqualsNeverEvaluates(right, ctx);
    }
    var line := Line(indent, text, false);
    assert [line] + [] == ls;
    DropNothing(line, []);
    BranchStartsAt(ls, parentIndent);
    StatementStep(line, [], map[], NA, name, [Equals] + right);
    NothingFollows(indent, [Equals] + right, map[][name := [Equals] + right]);
  }

  lemma {:induction false} ComparisonTakenForAssignment(name: string, right: Tokens)
    requires IsPlainName(name)
    ensures AssignMatch([IdentTok(name), CompareTok(Equal)] + right) == Some(Assignment(name, [Equals] + right))
  {
    var text := [IdentTok(name), CompareTok(Equal)] + right;
    assert text[1..] == [CompareTok(Equal)] + right && text[1..][1..] == right;
    assert LeadingNames(text[1..]) == 0;
    assert text[..0] == [];
  }

  lemma {:induction false} EqualsNeverEvaluates(right: Tokens, ctx: Context)
    requires ctx.Valid()
    ensures EvalText([Equals] + right, ctx) == None
  {
    EqualsNeverReads(right);
  }

  lemma {:induction false} EqualsNeverReads(right: Tokens)
    ensures Read([Equals] + right) == None
  {
    var ts := [Equals] + right;
    assert ParsePrimary(ts) == Fail;
    assert ParseUnary(ts) == Fail;
    assert ParseMultiplicative(ts) == Fail;
    assert ParseAdditive(ts) == Fail;
    assert ParseComparison(ts) == Fail;
    assert ParseLogical(ts) == Fail;
  }

  /** A case whose body stands on the lines below it shows na: deeper lines are passed over. */
  lemma {:induction false} DeeperCaseBodyIsDropped(caseLabel: Tokens, body: Lines, indent: nat, caseIndent: nat)
    requires indent < caseIndent && FindArrow(caseLabel + ARROW) == Some(|caseLabel|)
    requires forall k | 0 <= k < |body| :: body[k].indent > caseIndent
    ensures LowerCases([Line(caseIndent, caseLabel + ARROW, false)] + body, indent, caseIndent)
            == GoodCases([SwitchCase(caseLabel, NA)], [])
  {
    var line := Line(caseIndent, caseLabel + ARROW, false);
    CaseStep(line, body, indent, |caseLabel|);
    assert line.text[|caseLabel| + 2..] == [] && line.text[..|caseLabel|] == caseLabel;
    assert LowerRhs(body, caseIndent, NA) == Good(NA, body);
    DeeperLinesSkipped(body, indent, caseIndent);
  }

  lemma {:induction false} DeeperLinesSkipped(body: Lines, indent: nat, caseIndent: nat)
    requires indent < caseIndent && forall k | 0 <= k < |body| :: body[k].indent > caseIndent
    ensures LowerCases(body, indent, caseIndent) == GoodCases([], [])
  {
    if |body| > 0 {
      DeeperLinesSkipped(body[1..], indent, caseIndent);
    }
  }

  lemma {:induction false} SumReads(name: string)
    requires Lower(name) != "not"
    ensures Read([IdentTok(name), OpTok(Plus), NumberTok(1.0)]) == Some(Arith(Plus, Name(name), NumberLit(1.0)))
  {
    var one := [NumberTok(1.0)];
    var rest := [OpTok(Plus)] + one;
    var all := [IdentTok(name)] + rest;
    assert all == [IdentTok(name), OpTok(Plus), NumberTok(1.0)] && all[1..] == rest && rest[1..] == one
           && one[1..] == [];
    assert ParseUnary(all) == ParsePrimary(all) == Done(Name(name), rest);
    assert ParseMultiplicative(all) == Done(Name(name), rest);
    assert ParseUnary(one) == ParsePrimary(one) == Done(NumberLit(1.0), []);
    assert ParseMultiplicative(one) == Done(NumberLit(1.0), []);
    var sum := Arith(Plus, Name(name), NumberLit(1.0));
    assert AdditiveRest(Name(name), rest) == AdditiveRest(sum, []) == Done(sum, []);
    assert ParseAdditive(all) == Done(sum, []);
    assert ParseComparison(all) == Done(sum, []);
    assert ParseLogical(all) == Done(sum, []);
  }

  predicate Unknown(name: string, ctx: Context) {
    name !in ctx.variables && name !in ctx.constants && BuiltinName(name) == UnknownName
  }

  /** An expression that mentions an unknown name anywhere has no value. */
  lemma {:induction false} UnknownNameFails(e: Expr, name: string, ctx: Context)
    requires ctx.Valid() && Unknown(name, ctx)
    ensures Mentions(e, {name}) ==> Eval(e, ctx) == None
    decreases e
  {
    hide Apply, FunctionName, Combine, Compare, Logical, LogicalNot, NegateValue, Choose, Shift, BuiltinName;
    match e
    case Call(_, args) => UnknownArgumentFails(args, name, ctx);
    case Not(arg) => UnknownNameFails(arg, name, ctx);
    case Neg(arg) => UnknownNameFails(arg, name, ctx);
    case Arith(_, left, right) => UnknownNameFails(left, name, ctx); UnknownNameFails(right, name, ctx);
    case Comparison(_, left, right) => UnknownNameFails(left, name, ctx); UnknownNameFails(right, name, ctx);
    case Logic(_, left, right) => UnknownNameFails(left, name, ctx); UnknownNameFails(right, name, ctx);
    case Ternary(c, t, f) =>
      UnknownNameFails(c, name, ctx);
      UnknownNameFails(t, name, ctx);
      UnknownNameFails(f, name, ctx);
    case History(base, _) => UnknownNameFails(base, name, ctx);
    case _ =>
  }

  lemma {:induction false} UnknownArgumentFails(args: Args, name: string, ctx: Context)
    requires ctx.Valid() && Unknown(name, ctx)
    ensures ArgsMention(args, {name}) ==> EvalArgs(args, ctx) == None
    decreases args
  {
    if args.Arg? {
      UnknownNameFails(args.value, name, ctx);
      UnknownArgumentFails(args.rest, name, ctx);
    }
  }

  /** A block that assigns a local and ends in a text. */
  function LocalBlock(head: Tokens, name: string, value: Rhs, text: Tokens, margin: nat): Block {
    Block(margin, Then(Assign(head, name, value), Then(Yield(Plain(text)), End)))
  }

  /** The context with the local in scope. */
  function WithLocal(name: string, value: Rhs, ctx: Context): Context
    requires ctx.Valid()
  {
    ctx.(variables := ctx.variables[name := Series(seq(ctx.Bars(), j requires 0 <= j => RhsAt(value, ctx, j)))])
  }

  /** Unless the text is the local itself, the block is lowered to the text as it stands, while the block shows the
      text with the local in scope. */
  lemma {:induction false} LocalBlockLowers(head: Tokens, name: string, value: Rhs, text: Tokens, margin: nat,
          ctx: Context, i: nat)
    requires ctx.Valid() && text != [IdentTok(name)]
    ensures var b := LocalBlock(head, name, value, text, margin);
            BlockText(b) == text && BlockAt(b, ctx, i) == PointOf(text, WithLocal(name, value, ctx), i)
  {
    hide RhsText, Eval, Read, HoldsAt, IfAt, CasesAt, FallbackAt, PointOf;
    var locals := map[name := RhsText(value)];
    PlainShown(text, locals);
    var rest := Then(Yield(Plain(text)), End);
    assert BodyText(rest, locals, RhsText(value)) == text;
    var env := WithLocal(name, value, ctx);
    assert BodyAt(rest, env, RhsAt(value, ctx, i), i) == PointOf(text, env, i);
  }

  /** A local whose name is unknown outside its block: any larger text that mentions it has no value. */
  lemma {:induction false} LocalInsideExpressionIsLost(head: Tokens, name: string, value: Rhs, text: Tokens,
          margin: nat, ctx: Context, i: nat)
    requires ctx.Valid() && Unknown(name, ctx) && text != [IdentTok(name)]
    requires Read(text).Some? && Mentions(Read(text).value, {name})
    ensures var b := LocalBlock(head, name, value, text, margin);
            && BlockText(b) == text && EvalText(BlockText(b), ctx) == None
            && BlockAt(b, ctx, i) == PointOf(text, WithLocal(name, value, ctx), i)
  {
    hide Eval, Read, Mentions, PointOf, Unknown, BlockText, BlockAt, WithLocal;
    UnknownNameFails(Read(text).value, name, ctx);
    LocalBlockLowers(head, name, value, text, margin, ctx, i);
  }

  /** Exactly when a local that is unknown outside its block is in scope of the block's last line: the line is the
      local itself or does not mention it. */
  lemma {:induction false} LocalInScopeWhen(head: Tokens, name: string, value: Rhs, text: Tokens, margin: nat,
          ctx: Context, i: nat)
    requires ctx.Valid() && NaFree(ctx) && ctx.Bars() >= 2 && i < ctx.Bars()
    requires Unknown(name, ctx) && name != "na" && Lower(name) != "not" && RhsOk(value, ctx, {})
    requires Read(text).Some? && (Mentions(Read(text).value, {name}) || LeafOk(text, ctx, {name}))
    ensures var b := LocalBlock(head, name, value, text, margin);
            Shows(BlockText(b), ctx, i, BlockAt(b, ctx, i))
            <==> text == [IdentTok(name)] || !Mentions(Read(text).value, {name})
  {
    hide Eval, Read, Mentions, Unknown, BlockText, BlockAt, Shows, LeafOk;
    var b := LocalBlock(head, name, value, text, margin);
    if text == [IdentTok(name)] || !Mentions(Read(text).value, {name}) {
      assert BlockOk(b, ctx, {}) by {
        OneLocalOk(head, name, value, text, ctx);
      }
      BlockMeans(b, ctx, ctx, {}, i);
    } else {
      LocalInsideExpressionIsLost(head, name, value, text, margin, ctx, i);
      NoValueShowsNothing(BlockText(b), ctx, i, BlockAt(b, ctx, i));
    }
  }

  lemma {:induction false} OneLocalOk(head: Tokens, name: string, value: Rhs, text: Tokens, ctx: Context)
    requires ctx.Valid() && name != "na" && Lower(name) != "not" && RhsOk(value, ctx, {})
    requires text == [IdentTok(name)] || LeafOk(text, ctx, {name})
    ensures BodyOk(Then(Assign(head, name, value), Then(Yield(Plain(text)), End)), ctx, {}, {})
  {
    hide LeafOk;
    var none: set<string> := {};
    assert none + none == none && none + {name} == {name};
    assert BodyOk(Then(Yield(Plain(text)), End), ctx, {}, {name});
  }

  lemma {:induction false} NoValueShowsNothing(ts: Tokens, ctx: Context, i: nat, x: Num)
    requires ctx.Valid() && EvalText(ts, ctx) == None
    ensures !Shows(ts, ctx, i, x)
  {
  }

  /** What "name + 1" shows. */
  lemma {:induction false} SumMeans(name: string, ctx: Context, i: nat)
    requires ctx.Valid() && i < ctx.Bars() && Lower(name) != "not" && Eval(Name(name), ctx).Some?
    ensures var text, v := [IdentTok(name), OpTok(Plus), NumberTok(1.0)], Eval(Name(name), ctx).value;
            EvalText(text, ctx).Some? && Shows(text, ctx, i, Add(GetAt(v, i), ONE))
  {
    hide Read, Apply, FunctionName, Resolve;
    SumReads(name);
    var v := Eval(Name(name), ctx).value;
    assert Eval(NumberLit(1.0), ctx) == Some(Number(ONE));
    assert Eval(Arith(Plus, Name(name), NumberLit(1.0)), ctx)
        == Some(Combine(v, Number(ONE), Plus, ctx.Bars(), ctx.print_));
  }

  /** A local that takes a name known outside its block: "name + 1" after it is lowered to a text that evaluates, to
      the outer name plus one, and shows what the block does exactly where the two are the same. */
  lemma {:induction false} ShadowedLocalInScopeWhen(head: Tokens, name: string, value: Rhs, margin: nat, ctx: Context,
          i: nat)
    requires ctx.Valid() && i < ctx.Bars() && Lower(name) != "not" && Eval(Name(name), ctx).Some?
    ensures var b := LocalBlock(head, name, value, [IdentTok(name), OpTok(Plus), NumberTok(1.0)], margin);
            var outer := Eval(Name(name), ctx).value;
            && Shows(BlockText(b), ctx, i, Add(GetAt(outer, i), ONE))
            && BlockAt(b, ctx, i) == Add(RhsAt(value, ctx, i), ONE)
            && (Shows(BlockText(b), ctx, i, BlockAt(b, ctx, i)) <==> GetAt(outer, i) == RhsAt(value, ctx, i))
  {
    hide BlockText, BlockAt, RhsAt, EvalText, Eval;
    LocalBlockLowers(head, name, value, [IdentTok(name), OpTok(Plus), NumberTok(1.0)], margin, ctx, i);
    KnownLocal(name, value, ctx);
    SumMeans(name, ctx, i);
    SumMeans(name, WithLocal(name, value, ctx), i);
  }

  lemma {:induction false} KnownLocal(name: string, value: Rhs, ctx: Context)
    requires ctx.Valid()
    ensures WithLocal(name, value, ctx).Valid()
    ensures Eval(Name(name), WithLocal(name, value, ctx)) == Some(WithLocal(name, value, ctx).variables[name])
  {
  }

  lemma {:induction false} PlainShown(text: Tokens, locals: map<string, Tokens>)
    requires !IsLocal(text, locals)
    ensures YieldText(Plain(text), locals) == text
  {
  }

  /** "a = close" then "a + 1": the block shows close + 1, its text nothing. */
  lemma {:induction false} LocalInSumIsLost(cs: seq<Candle>, p: Printer, i: nat)
    requires i < |cs|
    ensures var b := LocalBlock([IdentTok("a"), Equals], "a", Plain([IdentTok("close")]),
                                [IdentTok("a"), OpTok(Plus), NumberTok(1.0)], 4);
            var ctx := Context(cs, map[], map[], p);
            EvalText(BlockText(b), ctx) == None && BlockAt(b, ctx, i) == Fin(cs[i].close + 1.0)
  {
    hide Read, BlockText, BlockAt, Apply, FunctionName, RhsAt;
    var ctx, value := Context(cs, map[], map[], p), Plain([IdentTok("close")]);
    var last := [IdentTok("a"), OpTok(Plus), NumberTok(1.0)];
    WordsAreNotNot();
    SumReads("a");
    LocalInsideExpressionIsLost([IdentTok("a"), Equals], "a", value, last, 4, ctx, i);
    KnownLocal("a", value, ctx);
    CloseShown(cs, p, i);
  }

  /** "open = close" then "open + 1": the block shows close + 1, its text open + 1. */
  lemma {:induction false} ShadowedOpenIsMisread(cs: seq<Candle>, p: Printer, i: nat)
    requires i < |cs|
    ensures var b := LocalBlock([IdentTok("open"), Equals], "open", Plain([IdentTok("close")]),
                                [IdentTok("open"), OpTok(Plus), NumberTok(1.0)], 4);
            var ctx := Context(cs, map[], map[], p);
            && Shows(BlockText(b), ctx, i, Fin(cs[i].open + 1.0))
            && BlockAt(b, ctx, i) == Fin(cs[i].close + 1.0)
  {
    hide BlockText, BlockAt, RhsAt, Shows, Apply, FunctionName;
    var ctx, value := Context(cs, map[], map[], p), Plain([IdentTok("close")]);
    WordsAreNotNot();
    CloseShown(cs, p, i);
    ShadowedLocalInScopeWhen([IdentTok("open"), Equals], "open", value, 4, ctx, i);
  }

  lemma {:induction false} CloseShown(cs: seq<Candle>, p: Printer, i: nat)
    requires i < |cs|
    ensures RhsAt(Plain([IdentTok("close")]), Context(cs, map[], map[], p), i) == Fin(cs[i].close)
  {
    hide Read, Apply, FunctionName;
    WordsAreNotNot();
    NameReads("close");
  }

  lemma {:induction false} WordsAreNotNot()
    ensures Lower("a") != "not" && Lower("open") != "not" && Lower("close") != "not"
  {
  }
}
