/** Reading a script: which assignments its lines hold, in the order in which they are run. */
module PineReading {
  import opened Options
  import opened PineValues
  import opened PineExpressions
  import opened PineGrammar
  import opened PineBlocks
  import opened PineLowering
  import opened PineLoweringShape
  import opened PineLoweringMeaning

  const OUTPUTS: set<string> := {"plot", "hline", "fill", "alertcondition"}
  const DECLARATIONS: set<string> := {"indicator", "study", "strategy"}
  const DRAWINGS: set<string> := {
    "line.new", "box.new", "label.new", "table.new", "line.set_", "box.set_", "label.set_", "table.cell"
  }

  predicate IsCallOf(ts: Tokens, names: set<string>) {
    |ts| > 1 && ts[0].IdentTok? && ts[0].text in names && ts[1] == LParen
  }

  /** functionDefinitionRe: the text after the last ") =>" of "name(...) => ...". */
  function FunctionText(ts: Tokens): Option<Tokens> {
    if |ts| > 2 && ts[0].IdentTok? && IsPlainName(ts[0].text) && ts[1] == LParen then AfterLastArrow(ts[2..]) else None
  }

  function AfterLastArrow(ts: Tokens): Option<Tokens> {
    if |ts| < 3 then None
    else
      var later := AfterLastArrow(ts[1..]);
      if later.Some? then later
      else if ts[0] == RParen && ts[1..3] == ARROW then Some(ts[3..])
      else None
  }

  /** compoundAssignmentRe, with the text "name op (value)" it stands for. */
  function CompoundMatch(ts: Tokens): Option<Assignment> {
    if |ts| < 3 || !ts[0].IdentTok? || !IsPlainName(ts[0].text) || !ts[1].OpTok? || ts[2] == Colon then None
    else
      var value := AssignedText(ts[2..]);
      if value.None? || value.value == [] then None
      else Some(Assignment(ts[0].text, ts[..2] + Paren(value.value)))
  }

  function AssignmentOf(ts: Tokens): Option<Assignment> {
    var compound := CompoundMatch(ts);
    if compound.Some? then compound else AssignMatch(ts)
  }

  /** What the loop makes of the line it is at, and the lines it goes on with. */
  datatype Reading = Passed(rest: Lines) | Assigns(a: Assignment, rest: Lines)

  function ReadLine(line: Line, after: Lines): (r: Reading)
    ensures |r.rest| <= |after|
  {
    if line.text == [] || IsCallOf(line.text, DECLARATIONS + OUTPUTS) then Passed(after)
    else if FunctionText(line.text).Some? then
      var body := LowerFunctionBody(after, line.indent);
      Passed(if FunctionText(line.text).value == [] && body.Good? then body.rest else after)
    else
      var a := AssignmentOf(line.text);
      if a.None? || IsCallOf(a.value.text, OUTPUTS + DRAWINGS) then Passed(after)
      else if StartsIf(a.value.text) then
        var lowered := LowerIf(after, line.indent, a.value.text);
        if lowered.Bad? then Passed(after) else Assigns(Assignment(a.value.name, lowered.text), lowered.rest)
      else Assigns(a.value, after)
  }

  /** The assignments of a script. */
  function Statements(ls: Lines): seq<Assignment>
    decreases |ls|
  {
    if ls == [] then []
    else
      match ReadLine(ls[0], ls[1..])
      case Passed(rest) => Statements(rest)
      case Assigns(a, rest) => [a] + Statements(rest)
  }

  // ----- One turn of the loop -----

  /** The assignment at the index, if any, and the index of the next turn. */
  method ReadStatement(lines: Lines, index: nat) returns (assignment: Option<Assignment>, next: nat)
    requires index < |lines|
    ensures index < next <= |lines|
    ensures Statements(lines[index..])
            == (if assignment.Some? then [assignment.value] else []) + Statements(lines[next..])
  {
    hide LowerFunctionBody, LowerIf, CompoundMatch, AfterLastArrow, AssignMatch;
    var line := lines[index];
    var text := line.text;
    Advance(lines, index);
    assignment, next := None, index + 1;
    if text == [] || IsCallOf(text, DECLARATIONS + OUTPUTS) {
      return;
    }
    var function_ := FunctionText(text);
    if function_.Some? {
      if function_.value == [] {
        var parsed := ParsePineFunctionBody(lines, index, line.indent);
        if parsed.Parsed? {
          next := parsed.end;
        }
      }
      return;
    }
    var matched := AssignmentOf(text);
    if matched.None? || IsCallOf(matched.value.text, OUTPUTS + DRAWINGS) {
      return;
    }
    if StartsIf(matched.value.text) {
      var parsed := ParsePineIfExpression(lines, index, line.indent, matched.value.text);
      if parsed.Parsed? {
        assignment, next := Some(Assignment(matched.value.name, parsed.text)), parsed.end;
      }
      return;
    }
    assignment := matched;
  }

  // ----- Texts stay proper -----

  predicate ProperLines(ls: Lines) {
    forall line <- ls :: Proper(line.text)
  }

  predicate ProperLowered(r: Lowered) {
    r.Good? ==> Proper(r.text) && ProperLines(r.rest)
  }

  predicate ProperCase(c: SwitchCase) {
    Proper(c.caseLabel) && Proper(c.value)
  }

  predicate ProperLocals(locals: map<string, Tokens>) {
    forall name <- locals :: Proper(locals[name])
  }

  lemma {:induction false} IfProper(ls: Lines, indent: nat, first: Tokens)
    requires StartsIf(first) && ProperLines(ls) && Proper(first)
    ensures ProperLowered(LowerIf(ls, indent, first))
    decreases |ls|, 2
  {
    hide LowerBranch;
    BranchProper(ls, indent);
    var whenTrue := LowerBranch(ls, indent);
    if whenTrue.Good? && whenTrue.rest != [] && whenTrue.rest[0].indent == indent {
      var line, after := whenTrue.rest[0], whenTrue.rest[1..];
      assert Proper(line.text);
      if IsElseIf(line.text) {
        IfProper(after, indent, line.text[1..]);
      } else {
        BranchProper(after, indent);
      }
    }
  }

  lemma {:induction false} BranchProper(ls: Lines, parentIndent: nat)
    requires ProperLines(ls)
    ensures ProperLowered(LowerBranch(ls, parentIndent))
    decreases |ls|, 1
  {
    var body := DropBlanks(ls);
    if body != [] {
      BodyProper(body, body[0].indent, map[], NA);
    }
  }

  lemma {:induction false} BodyProper(ls: Lines, indent: nat, locals: map<string, Tokens>, expression: Tokens)
    requires ProperLines(ls) && ProperLocals(locals) && Proper(expression)
    ensures ProperLowered(LowerBody(ls, indent, locals, expression))
    decreases |ls|, 0
  {
    hide LowerRhs, AssignMatch;
    if ls != [] {
      var line, after := ls[0], ls[1..];
      if line.text == [] || line.indent > indent {
        BodyProper(after, indent, locals, expression);
      } else if line.indent == indent {
        var a := AssignMatch(line.text);
        MatchProper(line.text);
        var text := if a.Some? then a.value.text else line.text;
        RhsProper(after, indent, text);
        var value := LowerRhs(after, indent, text);
        if a.Some? {
          if value.Good? {
            BodyProper(value.rest, indent, locals[a.value.name := value.text], value.text);
          }
        } else if StartsIf(line.text) || StartsSwitch(line.text) {
          if value.Good? {
            BodyProper(value.rest, indent, locals, value.text);
          }
        } else {
          BodyProper(after, indent, locals, if IsLocal(line.text, locals) then locals[line.text[0].text]
                     else line.text);
        }
      }
    }
  }

  lemma {:induction false} RhsProper(ls: Lines, indent: nat, text: Tokens)
    requires ProperLines(ls) && Proper(text)
    ensures ProperLowered(LowerRhs(ls, indent, text))
    decreases |ls|, 3
  {
    if StartsIf(text) {
      IfProper(ls, indent, text);
    } else if StartsSwitch(text) {
      SwitchProper(ls, indent, text);
    }
  }

  lemma {:induction false} SwitchProper(ls: Lines, indent: nat, first: Tokens)
    requires StartsSwitch(first) && ProperLines(ls) && Proper(first)
    ensures ProperLowered(LowerSwitch(ls, indent, first))
    decreases |ls|, 2
  {
    hide LowerCases;
    var body := DropBlanks(ls);
    if body != [] {
      CasesProper(body, indent, body[0].indent);
      var c := LowerCases(body, indent, body[0].indent);
      if c.GoodCases? {
        FallbackProper(c.cases);
        SwitchTextProper(first[1..], c.cases, FallbackText(c.cases));
      }
    }
  }

  lemma {:induction false} FallbackProper(cases: seq<SwitchCase>)
    requires forall c <- cases :: ProperCase(c)
    ensures Proper(FallbackText(cases))
  {
    if |cases| > 0 {
      assert ProperCase(cases[|cases| - 1]);
      FallbackProper(cases[..|cases| - 1]);
    }
  }

  lemma {:induction false} SwitchTextProper(selector: Tokens, cases: seq<SwitchCase>, otherwise: Tokens)
    requires Proper(selector) && Proper(otherwise) && forall c <- cases :: ProperCase(c)
    ensures Proper(SwitchText(selector, cases, otherwise))
  {
    if |cases| > 0 {
      assert ProperCase(cases[0]);
      SwitchTextProper(selector, cases[1..], otherwise);
    }
  }

  lemma {:induction false} CasesProper(ls: Lines, indent: nat, caseIndent: nat)
    requires ProperLines(ls)
    ensures var r := LowerCases(ls, indent, caseIndent);
            r.GoodCases? ==> ProperLines(r.rest) && forall c <- r.cases :: ProperCase(c)
    decreases |ls|, 0
  {
    hide LowerRhs, FindArrow;
    if ls != [] {
      var line, after := ls[0], ls[1..];
      if line.text == [] || line.indent > caseIndent {
        CasesProper(after, indent, caseIndent);
      } else if line.indent == caseIndent && line.indent > indent && FindArrow(line.text).Some? {
        var arrow := FindArrow(line.text).value;
        var text := CaseText(line.text[arrow + 2..]);
        RhsProper(after, line.indent, text);
        var value := LowerRhs(after, line.indent, text);
        if value.Good? {
          CasesProper(value.rest, indent, caseIndent);
        }
      }
    }
  }

  lemma {:induction false} MatchProper(ts: Tokens)
    requires Proper(ts)
    ensures AssignMatch(ts).Some? ==> Proper(AssignMatch(ts).value.text)
  {
  }

  lemma {:induction false} CompoundProper(ts: Tokens)
    requires Proper(ts)
    ensures CompoundMatch(ts).Some? ==> Proper(CompoundMatch(ts).value.text)
  {
  }

  lemma {:induction false} FunctionBodyProper(ls: Lines, parentIndent: nat)
    requires ProperLines(ls)
    ensures ProperLowered(LowerFunctionBody(ls, parentIndent))
  {
    var body := DropBlanks(ls);
    if body != [] {
      RhsProper(body[1..], body[0].indent, body[0].text);
      BranchProper(body, parentIndent);
    }
  }

  /** Every assignment of a script has a text that can be evaluated. */
  lemma {:induction false} StatementsProper(ls: Lines)
    requires ProperLines(ls)
    ensures forall a <- Statements(ls) :: Proper(a.text)
    decreases |ls|
  {
    hide LowerFunctionBody, LowerIf, CompoundMatch, AssignMatch, FunctionText;
    if ls != [] {
      var line, after := ls[0], ls[1..];
      FunctionBodyProper(after, line.indent);
      MatchProper(line.text);
      CompoundProper(line.text);
      var a := AssignmentOf(line.text);
      if a.Some? && StartsIf(a.value.text) {
        IfProper(after, line.indent, a.value.text);
      }
      StatementsProper(ReadLine(line, after).rest);
    }
  }

  // ----- What is read -----

  /** "name op= value" is read as "name op (value)", whose tree is that operation on the whole value. */
  lemma {:induction false} CompoundReads(name: string, op: ArithOp, value: Tokens)
    requires IsPlainName(name) && Lower(name) != "not" && Read(value).Some?
    ensures var text := [IdentTok(name), OpTok(op)] + Paren(value);
            && AssignmentOf([IdentTok(name), OpTok(op), Equals] + value) == Some(Assignment(name, text))
            && Read(text) == Some(Arith(op, Name(name), Read(value).value))
  {
    hide Read;
    var ts := [IdentTok(name), OpTok(op), Equals] + value;
    assert value != [] by {
      NothingReads();
    }
    assert ts[2..][1..] == value && ts[..2] == [IdentTok(name), OpTok(op)];
    OperationReads(name, op, value);
  }

  lemma {:induction false} NothingReads()
    ensures Read([]) == None
  {
    assert ParsePrimary([]) == Fail;
    assert ParseUnary([]) == Fail;
    assert ParseMultiplicative([]) == Fail;
    assert ParseAdditive([]) == Fail;
    assert ParseComparison([]) == Fail;
    assert ParseLogical([]) == Fail;
  }

  lemma {:induction false} OperationReads(name: string, op: ArithOp, value: Tokens)
    requires Lower(name) != "not" && Read(value).Some?
    ensures Read([IdentTok(name), OpTok(op)] + Paren(value)) == Some(Arith(op, Name(name), Read(value).value))
  {
    hide Read;
    var tree := Arith(op, Name(name), Read(value).value);
    var rest := [OpTok(op)] + Paren(value);
    var all := [IdentTok(name), OpTok(op)] + Paren(value);
    assert all[1..] == rest && rest[1..] == Paren(value) && Paren(value) + [] == Paren(value);
    ParenReads(value, []);
    assert ParseUnary(all) == ParsePrimary(all) == Done(Name(name), rest);
    assert ParseMultiplicative(Paren(value)) == Done(Read(value).value, []);
    if IsMultiplicative(OpTok(op)) {
      assert MultiplicativeRest(Name(name), rest) == MultiplicativeRest(tree, []) == Done(tree, []);
      assert ParseMultiplicative(all) == Done(tree, []);
    } else {
      assert ParseMultiplicative(all) == Done(Name(name), rest);
      assert AdditiveRest(Name(name), rest) == AdditiveRest(tree, []) == Done(tree, []);
    }
    assert ParseAdditive(all) == Done(tree, []);
    DoneReads(all, tree);
  }

  lemma {:induction false} DoneReads(all: Tokens, tree: Expr)
    requires ParseAdditive(all) == Done(tree, [])
    ensures Read(all) == Some(tree)
  {
    assert ParseComparison(all) == Done(tree, []);
    assert ParseLogical(all) == Done(tree, []);
  }

  lemma {:induction false} AssignmentIsNoOther(ts: Tokens, names: set<string>)
    requires AssignMatch(ts).Some?
    ensures !IsCallOf(ts, names) && FunctionText(ts).None? && CompoundMatch(ts).None? && ts != []
  {
    hide AfterLastArrow;
  }

  lemma {:induction false} BlanksReadNothing(ls: Lines)
    ensures Statements(DropBlanks(ls)) == Statements(ls)
  {
    if ls != [] && ls[0].text == [] {
      BlanksReadNothing(ls[1..]);
    }
  }

  /** An assigned if-expression is read as one assignment, whose text shows at every bar what the blocks select. */
  lemma {:induction false} IfAssignmentShows(head: Tokens, name: string, tree: IfTree, indent: nat, tight: bool,
          rest: Lines, ctx: Context, i: nat)
    requires AssignMatch(head + [IF] + tree.condition) == Some(Assignment(name, [IF] + tree.condition))
    requires IfForm(tree) && Settled(rest, indent)
    requires ctx.Valid() && NaFree(ctx) && ctx.Bars() >= 2 && i < ctx.Bars() && IfOk(tree, ctx, {})
    ensures Statements([Line(indent, head + [IF] + tree.condition, tight)] + IfLines(tree, indent) + rest)
            == [Assignment(name, IfText(tree))] + Statements(rest)
    ensures Shows(IfText(tree), ctx, i, IfAt(tree, ctx, i))
  {
    hide AssignMatch, CompoundMatch, FunctionText, LowerIf, LowerFunctionBody, IfText, IfLines, IfForm, IfOk,
         DropBlanks, Settled, Shows, IfAt;
    var line := Line(indent, head + [IF] + tree.condition, tight);
    var after := IfLines(tree, indent) + rest;
    AssignmentIsNoOther(line.text, DECLARATIONS + OUTPUTS);
    IfIsNoCall(tree.condition, OUTPUTS + DRAWINGS);
    IfLowers(tree, indent, rest);
    IfMeans(tree, ctx, ctx, {}, i);
    assert [line] + IfLines(tree, indent) + rest == [line] + after;
    assert ([line] + after)[1..] == after;
    BlanksReadNothing(rest);
  }

  lemma {:induction false} IfIsNoCall(condition: Tokens, names: set<string>)
    requires "if" !in names
    ensures !IsCallOf([IF] + condition, names)
  {
  }

  /** An assignment under an if that is a statement is read as if it stood alone: neither the condition nor the
      indentation matters. */
  lemma {:induction false} ConditionIsPassedOver(indent: nat, condition: Tokens, tight: bool, deeper: nat,
          name: string, value: Tokens, rest: Lines)
    requires FunctionText([IF] + condition).None? && AssignmentOf([IF] + condition).None?
    requires IsPlainName(name) && value != [] && !StartsIf(value) && !IsCallOf(value, OUTPUTS + DRAWINGS)
    ensures var block :=
            [Line(indent, [IF] + condition, tight), Line(deeper, [IdentTok(name), Colon, Equals] + value, false)];
            Statements(block + rest) == [Assignment(name, value)] + Statements(rest)
  {
    hide AssignmentOf, FunctionText, CompoundMatch, LowerIf, LowerFunctionBody;
    var first, second := Line(indent, [IF] + condition, tight),
        Line(deeper, [IdentTok(name), Colon, Equals] + value, false);
    IfIsNoCall(condition, DECLARATIONS + OUTPUTS);
    assert ([first, second] + rest)[1..] == [second] + rest && ([second] + rest)[1..] == rest;
    ReassignmentReads(name, value);
    assert ReadLine(first, [second] + rest) == Passed([second] + rest);
    assert ReadLine(second, rest) == Assigns(Assignment(name, value), rest);
  }

  lemma {:induction false} ReassignmentReads(name: string, value: Tokens)
    requires IsPlainName(name) && value != []
    ensures var ts := [IdentTok(name), Colon, Equals] + value;
            AssignmentOf(ts) == Some(Assignment(name, value)) && FunctionText(ts).None?
              && !IsCallOf(ts, DECLARATIONS + OUTPUTS)
  {
    var ts := [IdentTok(name), Colon, Equals] + value;
    assert LeadingNames(ts[1..]) == 0;
    assert ts[..0] == [] && ts[1..][2..] == value;
  }
}
