/** The lowering of indented if / else-if / else and switch blocks to conditional expressions. */
module PineLowering {
  import opened Options
  import opened PineGrammar
  import opened PineBlocks

  type Lines = seq<Line>

  datatype Lowered = Bad | Good(text: Tokens, rest: Lines)

  datatype LoweredCases = BadCases | GoodCases(cases: seq<SwitchCase>, rest: Lines)

  datatype SwitchCase = SwitchCase(caseLabel: Tokens, value: Tokens)

  function DropBlanks(ls: Lines): (r: Lines)
    ensures |r| <= |ls| && r == ls[|ls| - |r|..]
    ensures r != [] ==> r[0].text != []
  {
    if ls != [] && ls[0].text == [] then DropBlanks(ls[1..]) else ls
  }

  /** The conditional opened by a line with text `first`; ls are the lines after it. */
  function LowerIf(ls: Lines, indent: nat, first: Tokens): (r: Lowered)
    requires StartsIf(first)
    ensures r.Good? ==> |r.rest| <= |ls|
    decreases |ls|, 2
  {
    var whenTrue := LowerBranch(ls, indent);
    if whenTrue.Bad? || whenTrue.rest == [] || whenTrue.rest[0].indent != indent then Bad
    else
      var line := whenTrue.rest[0];
      var after := whenTrue.rest[1..];
      if IsElseIf(line.text) then
        var nested := LowerIf(after, indent, line.text[1..]);
        if nested.Bad? then Bad else Good(TernaryText(first[1..], whenTrue.text, nested.text), nested.rest)
      else if line.text != [ELSE] then Bad
      else
        var whenFalse := LowerBranch(after, indent);
        if whenFalse.Bad? then Bad else Good(TernaryText(first[1..], whenTrue.text, whenFalse.text), whenFalse.rest)
  }

  function LowerBranch(ls: Lines, parentIndent: nat): (r: Lowered)
    ensures r.Good? ==> |r.rest| <= |ls|
    decreases |ls|, 1
  {
    var body := DropBlanks(ls);
    if body == [] || body[0].indent <= parentIndent then Bad
    else LowerBody(body, body[0].indent, map[], NA)
  }

  /** The statements of a branch from here on; locals keep the text last assigned to each name. */
  function LowerBody(ls: Lines, indent: nat, locals: map<string, Tokens>, expression: Tokens): (r: Lowered)
    ensures r.Good? ==> |r.rest| <= |ls|
    decreases |ls|, 0
  {
    if ls == [] then Good(expression, ls)
    else
      var line, after := ls[0], ls[1..];
      if line.text == [] then LowerBody(after, indent, locals, expression)
      else if line.indent < indent then Good(expression, ls)
      else if line.indent > indent then LowerBody(after, indent, locals, expression)
      else
        var a := AssignMatch(line.text);
        if a.Some? then
          var value := LowerRhs(after, indent, a.value.text);
          if value.Bad? then Bad
          else LowerBody(value.rest, indent, locals[a.value.name := value.text], value.text)
        else if StartsIf(line.text) || StartsSwitch(line.text) then
          var value := LowerRhs(after, indent, line.text);
          if value.Bad? then Bad else LowerBody(value.rest, indent, locals, value.text)
        else
          var shown := if IsLocal(line.text, locals) then locals[line.text[0].text] else line.text;
          LowerBody(after, indent, locals, shown)
  }

  predicate IsLocal(text: Tokens, locals: map<string, Tokens>) {
    |text| == 1 && text[0].IdentTok? && text[0].text in locals
  }

  function LowerRhs(ls: Lines, indent: nat, text: Tokens): (r: Lowered)
    ensures r.Good? ==> |r.rest| <= |ls|
    decreases |ls|, 3
  {
    if StartsIf(text) then LowerIf(ls, indent, text)
    else if StartsSwitch(text) then LowerSwitch(ls, indent, text)
    else Good(text, ls)
  }

  function LowerSwitch(ls: Lines, indent: nat, first: Tokens): (r: Lowered)
    requires StartsSwitch(first)
    ensures r.Good? ==> |r.rest| <= |ls|
    decreases |ls|, 2
  {
    var body := DropBlanks(ls);
    if body == [] || body[0].indent <= indent then Bad
    else
      var c := LowerCases(body, indent, body[0].indent);
      SwitchOf(first[1..], c)
  }

  function LowerCases(ls: Lines, indent: nat, caseIndent: nat): (r: LoweredCases)
    ensures r.GoodCases? ==> |r.rest| <= |ls|
    decreases |ls|, 0
  {
    if ls == [] then GoodCases([], ls)
    else
      var line, after := ls[0], ls[1..];
      if line.text == [] then LowerCases(after, indent, caseIndent)
      else if line.indent < caseIndent || line.indent <= indent then GoodCases([], ls)
      else if line.indent > caseIndent then LowerCases(after, indent, caseIndent)
      else
        var arrow := FindArrow(line.text);
        if arrow.None? then GoodCases([], ls)
        else
          var value := LowerRhs(after, line.indent, CaseText(line.text[arrow.value + 2..]));
          if value.Bad? then BadCases
          else
            PutCase(SwitchCase(line.text[..arrow.value], value.text), LowerCases(value.rest, indent, caseIndent))
  }

  function LowerFunctionBody(ls: Lines, parentIndent: nat): (r: Lowered)
    ensures r.Good? ==> |r.rest| <= |ls|
  {
    var body := DropBlanks(ls);
    if body == [] || body[0].indent <= parentIndent then Bad
    else if StartsIf(body[0].text) || StartsSwitch(body[0].text) then LowerRhs(body[1..], body[0].indent, body[0].text)
    else LowerBranch(body, parentIndent)
  }

  function CaseText(text: Tokens): Tokens {
    if text == [] then NA else text
  }

  function FallbackText(cases: seq<SwitchCase>): Tokens {
    if |cases| == 0 then NA
    else
      var last := cases[|cases| - 1];
      if last.caseLabel == [] then last.value else FallbackText(cases[..|cases| - 1])
  }

  function CaseTest(selector: Tokens, caseLabel: Tokens): Tokens {
    if selector == [] then caseLabel else TestText(selector, caseLabel)
  }

  function SwitchText(selector: Tokens, cases: seq<SwitchCase>, otherwise: Tokens): Tokens {
    if |cases| == 0 then otherwise
    else
      var more := SwitchText(selector, cases[1..], otherwise);
      if cases[0].caseLabel == [] then more
      else TernaryText(CaseTest(selector, cases[0].caseLabel), cases[0].value, more)
  }

  // ----- The index-driven loops of compiler.go -----

  datatype Outcome = Error | Parsed(text: Tokens, end: nat)

  /** The loop's result is the function's: the same text, and an index at the same remaining lines. */
  ghost predicate Same(o: Outcome, r: Lowered, lines: Lines) {
    match r
    case Bad => o.Error?
    case Good(text, rest) => o.Parsed? && o.text == text && o.end <= |lines| && lines[o.end..] == rest
  }

  lemma {:induction false} Advance(lines: Lines, index: nat)
    requires index < |lines|
    ensures lines[index..][0] == lines[index] && lines[index..][1..] == lines[index + 1..]
  {
  }

  method ParsePineIfExpression(lines: Lines, startIndex: nat, indent: nat, firstText: Tokens) returns (o: Outcome)
    requires startIndex < |lines| && StartsIf(firstText)
    ensures Same(o, LowerIf(lines[startIndex + 1..], indent, firstText), lines)
    ensures o.Parsed? ==> startIndex < o.end <= |lines|
    decreases |lines| - startIndex, 0
  {
    hide LowerBranch, LowerBody, LowerRhs, TernaryText;
    var condition := firstText[1..];
    var whenTrue := ParsePineIfBranch(lines, startIndex + 1, indent);
    if whenTrue.Error? {
      return Error;
    }
    var elseLine := Line(0, [], false);
    if whenTrue.end < |lines| {
      elseLine := lines[whenTrue.end];
      Advance(lines, whenTrue.end);
    }
    if elseLine.indent != indent {
      return Error;
    }
    if IsElseIf(elseLine.text) {
      var nested := ParsePineIfExpression(lines, whenTrue.end, indent, elseLine.text[1..]);
      if nested.Error? {
        return Error;
      }
      return Parsed(TernaryText(condition, whenTrue.text, nested.text), nested.end);
    }
    if elseLine.text != [ELSE] {
      return Error;
    }
    var whenFalse := ParsePineIfBranch(lines, whenTrue.end + 1, indent);
    if whenFalse.Error? {
      return Error;
    }
    return Parsed(TernaryText(condition, whenTrue.text, whenFalse.text), whenFalse.end);
  }

  method SkipBlankLines(lines: Lines, start: nat) returns (index: nat)
    requires start <= |lines|
    ensures start <= index <= |lines| && lines[index..] == DropBlanks(lines[start..])
  {
    hide DropBlanks;
    index := start;
    while index < |lines| && lines[index].text == []
      invariant start <= index <= |lines|
      invariant DropBlanks(lines[index..]) == DropBlanks(lines[start..])
    {
      BlankDropped(lines, index);
      index := index + 1;
    }
    NothingDropped(lines, index);
  }

  lemma {:induction false} BlankDropped(lines: Lines, index: nat)
    requires index < |lines| && lines[index].text == []
    ensures DropBlanks(lines[index..]) == DropBlanks(lines[index + 1..])
  {
    Advance(lines, index);
  }

  lemma {:induction false} NothingDropped(lines: Lines, index: nat)
    requires index <= |lines| && (index < |lines| ==> lines[index].text != [])
    ensures DropBlanks(lines[index..]) == lines[index..]
  {
  }

  method ParseValue(lines: Lines, index: nat, indent: nat, value: Tokens) returns (o: Outcome)
    requires index < |lines|
    ensures Same(o, LowerRhs(lines[index + 1..], indent, value), lines)
    ensures o.Parsed? ==> index < o.end <= |lines|
    decreases |lines| - index, 1
  {
    if StartsIf(value) {
      o := ParsePineIfExpression(lines, index, indent, value);
    } else if StartsSwitch(value) {
      o := ParsePineSwitchExpression(lines, index, indent, value);
    } else {
      o := Parsed(value, index + 1);
    }
  }

  lemma {:induction false} SkippedLine(lines: Lines, index: nat, indent: nat, locals: map<string, Tokens>,
          expression: Tokens)
    requires index < |lines| && (lines[index].text == [] || lines[index].indent > indent)
    ensures LowerBody(lines[index..], indent, locals, expression)
            == LowerBody(lines[index + 1..], indent, locals, expression)
  {
  }

  lemma {:induction false} BranchStarts(lines: Lines, start: nat, index: nat, parentIndent: nat)
    requires start <= index <= |lines| && lines[index..] == DropBlanks(lines[start..])
    ensures LowerBranch(lines[start..], parentIndent)
            == if index == |lines| || lines[index].indent <= parentIndent then Bad
               else LowerBody(lines[index..], lines[index].indent, map[], NA)
  {
  }

  lemma {:induction false} SwitchStarts(lines: Lines, start: nat, index: nat, indent: nat, first: Tokens)
    requires start <= index <= |lines| && lines[index..] == DropBlanks(lines[start..]) && StartsSwitch(first)
    ensures LowerSwitch(lines[start..], indent, first)
            == if index == |lines| || lines[index].indent <= indent then Bad
               else SwitchOf(first[1..], LowerCases(lines[index..], indent, lines[index].indent))
  {
  }

  function SwitchOf(selector: Tokens, c: LoweredCases): Lowered {
    if c.BadCases? then Bad else Good(SwitchText(selector, c.cases, FallbackText(c.cases)), c.rest)
  }

  lemma {:induction false} StoppedBranch(lines: Lines, index: nat, indent: nat, locals: map<string, Tokens>,
          expression: Tokens)
    requires index <= |lines|
    requires index < |lines| ==> lines[index].text != [] && lines[index].indent < indent
    ensures LowerBody(lines[index..], indent, locals, expression) == Good(expression, lines[index..])
  {
  }

  lemma {:induction false} StoppedCases(lines: Lines, index: nat, indent: nat, caseIndent: nat)
    requires index <= |lines| && indent < caseIndent
    requires index < |lines| ==> lines[index].text != []
    requires index < |lines| ==>
               || lines[index].indent < caseIndent
               || (lines[index].indent == caseIndent && FindArrow(lines[index].text).None?)
    ensures LowerCases(lines[index..], indent, caseIndent) == GoodCases([], lines[index..])
  {
  }

  lemma {:induction false} SkippedCaseLine(lines: Lines, index: nat, indent: nat, caseIndent: nat)
    requires index < |lines| && indent < caseIndent && (lines[index].text == [] || lines[index].indent > caseIndent)
    ensures LowerCases(lines[index..], indent, caseIndent) == LowerCases(lines[index + 1..], indent, caseIndent)
  {
  }

  /** One statement line of a branch: the text it shows, and the local it assigns if any. */
  method ParseStatement(lines: Lines, index: nat, locals: map<string, Tokens>, ghost expression: Tokens)
    returns (o: Outcome, name: Option<string>)
    requires index < |lines| && lines[index].text != []
    ensures o.Parsed? ==> index < o.end <= |lines|
    ensures LowerBody(lines[index..], lines[index].indent, locals, expression)
            == if o.Error? then Bad
               else LowerBody(lines[o.end..], lines[index].indent,
                              if name.Some? then locals[name.value := o.text] else locals, o.text)
    decreases |lines| - index, 2
  {
    var line := lines[index];
    Advance(lines, index);
    var assignment := AssignMatch(line.text);
    if assignment.Some? {
      o := ParseValue(lines, index, line.indent, assignment.value.text);
      name := Some(assignment.value.name);
    } else if StartsIf(line.text) || StartsSwitch(line.text) {
      o := ParseValue(lines, index, line.indent, line.text);
      name := None;
    } else {
      o := Parsed(if IsLocal(line.text, locals) then locals[line.text[0].text] else line.text, index + 1);
      name := None;
    }
  }

  /** The statement loop of a branch, from its first statement on. */
  method ParseStatements(lines: Lines, startIndex: nat, branchIndent: nat) returns (o: Outcome)
    requires startIndex <= |lines|
    ensures o.Error? ==> LowerBody(lines[startIndex..], branchIndent, map[], NA) == Bad
    ensures o.Parsed? ==> startIndex <= o.end <= |lines|
    ensures o.Parsed? ==> LowerBody(lines[startIndex..], branchIndent, map[], NA) == Good(o.text, lines[o.end..])
    decreases |lines| - startIndex, 3
  {
    hide *;
    var index := startIndex;
    var locals: map<string, Tokens> := map[];
    var expression := NA;
    ghost var whole := LowerBody(lines[index..], branchIndent, locals, expression);
    while index < |lines|
      invariant startIndex <= index <= |lines|
      invariant LowerBody(lines[index..], branchIndent, locals, expression) == whole
      decreases |lines| - index
    {
      var line := lines[index];
      if line.text == [] || line.indent > branchIndent {
        SkippedLine(lines, index, branchIndent, locals, expression);
        index := index + 1;
      } else if line.indent < branchIndent {
        break;
      } else {
        var o, name := ParseStatement(lines, index, locals, expression);
        if o.Error? {
          return Error;
        }
        if name.Some? {
          locals := locals[name.value := o.text];
        }
        index, expression := o.end, o.text;
      }
    }
    StoppedBranch(lines, index, branchIndent, locals, expression);
    return Parsed(expression, index);
  }

  method ParsePineIfBranch(lines: Lines, startIndex: nat, parentIndent: nat) returns (o: Outcome)
    requires startIndex <= |lines|
    ensures Same(o, LowerBranch(lines[startIndex..], parentIndent), lines)
    ensures o.Parsed? ==> startIndex <= o.end <= |lines|
    decreases |lines| - startIndex, 4
  {
    hide LowerBranch, LowerBody, DropBlanks;
    var index := SkipBlankLines(lines, startIndex);
    BranchStarts(lines, startIndex, index, parentIndent);
    if index >= |lines| || lines[index].indent <= parentIndent {
      return Error;
    }
    o := ParseStatements(lines, index, lines[index].indent);
  }

  /** One case line: the text of its value. */
  method ParseCase(lines: Lines, index: nat, ghost indent: nat, arrow: nat) returns (o: Outcome)
    requires index < |lines| && indent < lines[index].indent && FindArrow(lines[index].text) == Some(arrow)
    ensures o.Parsed? ==> index < o.end <= |lines|
    ensures var line := lines[index];
            LowerCases(lines[index..], indent, line.indent)
            == if o.Error? then BadCases
               else PutCase(SwitchCase(line.text[..arrow], o.text), LowerCases(lines[o.end..], indent, line.indent))
    decreases |lines| - index, 2
  {
    Advance(lines, index);
    o := ParseValue(lines, index, lines[index].indent, CaseText(lines[index].text[arrow + 2..]));
  }

  function PutCase(c: SwitchCase, more: LoweredCases): LoweredCases {
    if more.BadCases? then BadCases else GoodCases([c] + more.cases, more.rest)
  }

  /** The case loop of a switch, from its first case on. */
  method ParseCases(lines: Lines, startIndex: nat, indent: nat, caseIndent: nat)
    returns (ok: bool, cases: seq<SwitchCase>, index: nat)
    requires startIndex <= |lines| && indent < caseIndent
    ensures startIndex <= index <= |lines|
    ensures LowerCases(lines[startIndex..], indent, caseIndent)
            == if ok then GoodCases(cases, lines[index..]) else BadCases
    decreases |lines| - startIndex, 3
  {
    hide *;
    index, cases, ok := startIndex, [], true;
    ghost var all := LowerCases(lines[index..], indent, caseIndent);
    ContinuesStart(all);
    while index < |lines|
      invariant startIndex <= index <= |lines|
      invariant Continues(all, cases, LowerCases(lines[index..], indent, caseIndent))
      decreases |lines| - index
    {
      var line := lines[index];
      if line.text == [] || line.indent > caseIndent {
        SkippedCaseLine(lines, index, indent, caseIndent);
        index := index + 1;
      } else {
        var arrow := FindArrow(line.text);
        if line.indent < caseIndent || arrow.None? {
          break;
        }
        var value := ParseCase(lines, index, indent, arrow.value);
        if value.Error? {
          ContinuesFails(all, cases);
          return false, [], index;
        }
        ghost var c := SwitchCase(line.text[..arrow.value], value.text);
        ContinuesStep(all, cases, c, LowerCases(lines[value.end..], indent, caseIndent));
        cases := cases + [SwitchCase(line.text[..arrow.value], value.text)];
        index := value.end;
      }
    }
    StoppedCases(lines, index, indent, caseIndent);
    ContinuesEnd(all, cases, lines[index..]);
  }

  method ParsePineSwitchExpression(lines: Lines, startIndex: nat, indent: nat, firstText: Tokens) returns (o: Outcome)
    requires startIndex < |lines| && StartsSwitch(firstText)
    ensures Same(o, LowerSwitch(lines[startIndex + 1..], indent, firstText), lines)
    ensures o.Parsed? ==> startIndex < o.end <= |lines|
    decreases |lines| - startIndex, 0
  {
    hide LowerCases, LowerSwitch, SwitchText, FallbackText, DropBlanks;
    var index := SkipBlankLines(lines, startIndex + 1);
    SwitchStarts(lines, startIndex + 1, index, indent, firstText);
    if index >= |lines| || lines[index].indent <= indent {
      return Error;
    }
    var ok, cases, end := ParseCases(lines, index, indent, lines[index].indent);
    if !ok {
      return Error;
    }
    var expression := EmitSwitch(firstText[1..], cases);
    return Parsed(expression, end);
  }

  /** Cases found so far, then the ones still to come. */
  ghost predicate Continues(all: LoweredCases, found: seq<SwitchCase>, later: LoweredCases) {
    all == if later.BadCases? then BadCases else GoodCases(found + later.cases, later.rest)
  }

  lemma {:induction false} ContinuesStart(all: LoweredCases)
    ensures Continues(all, [], all)
  {
  }

  lemma {:induction false} ContinuesFails(all: LoweredCases, found: seq<SwitchCase>)
    ensures Continues(all, found, BadCases) ==> all == BadCases
  {
  }

  lemma {:induction false} ContinuesEnd(all: LoweredCases, found: seq<SwitchCase>, rest: Lines)
    requires Continues(all, found, GoodCases([], rest))
    ensures all == GoodCases(found, rest)
  {
  }

  lemma {:induction false} ContinuesStep(all: LoweredCases, found: seq<SwitchCase>, c: SwitchCase, later: LoweredCases)
    requires Continues(all, found, PutCase(c, later))
    ensures Continues(all, found + [c], later)
  {
  }

  method EmitSwitch(selector: Tokens, cases: seq<SwitchCase>) returns (expression: Tokens)
    ensures expression == SwitchText(selector, cases, FallbackText(cases))
  {
    expression := NA;
    for k := 0 to |cases|
      invariant expression == FallbackText(cases[..k])
    {
      assert cases[..k + 1][..k] == cases[..k];
      if cases[k].caseLabel == [] {
        expression := cases[k].value;
      }
    }
    assert cases[..|cases|] == cases;
    ghost var fallback := expression;
    for i := |cases| downto 0
      invariant expression == SwitchText(selector, cases[i..], fallback)
    {
      assert cases[i..][1..] == cases[i + 1..];
      if cases[i].caseLabel != [] {
        expression := TernaryText(CaseTest(selector, cases[i].caseLabel), cases[i].value, expression);
      }
    }
    assert cases[0..] == cases;
  }

  method ParsePineFunctionBody(lines: Lines, startIndex: nat, parentIndent: nat) returns (o: Outcome)
    requires startIndex < |lines|
    ensures Same(o, LowerFunctionBody(lines[startIndex + 1..], parentIndent), lines)
    ensures o.Parsed? ==> startIndex < o.end <= |lines|
  {
    hide LowerRhs, LowerBranch;
    var index := SkipBlankLines(lines, startIndex + 1);
    if index >= |lines| || lines[index].indent <= parentIndent {
      return Error;
    }
    Advance(lines, index);
    if StartsIf(lines[index].text) || StartsSwitch(lines[index].text) {
      o := ParseValue(lines, index, lines[index].indent, lines[index].text);
    } else {
      o := ParsePineIfBranch(lines, index, parentIndent);
    }
  }
}
