/** Lowering the lines of a block tree yields the tree's own conditional text. */
module PineLoweringShape {
  import opened Options
  import opened PineGrammar
  import opened PineBlocks
  import opened PineLowering

  function RhsText(rhs: Rhs): Tokens
    decreases rhs, 0
  {
    match rhs
    case Plain(text) => text
    case If(tree) => IfText(tree)
    case Switch(s) => SwitchText(s.selector, CaseTexts(s.cases), FallbackText(CaseTexts(s.cases)))
  }

  function IfText(tree: IfTree): Tokens {
    TernaryText(tree.condition, BlockText(tree.body), ElseText(tree.otherwise))
  }

  function ElseText(tree: ElseTree): Tokens {
    match tree
    case ElseIf(t) => IfText(t)
    case Else(body) => BlockText(body)
  }

  function BlockText(b: Block): Tokens {
    BodyText(b.body, map[], NA)
  }

  /** The text of the last statement; a bare local name stands for the text assigned to it. */
  function BodyText(b: Body, locals: map<string, Tokens>, shown: Tokens): Tokens {
    match b
    case End => shown
    case Then(Blank(_), rest) => BodyText(rest, locals, shown)
    case Then(Assign(_, name, value), rest) => BodyText(rest, locals[name := RhsText(value)], RhsText(value))
    case Then(Yield(value), rest) => BodyText(rest, locals, YieldText(value, locals))
  }

  function YieldText(value: Rhs, locals: map<string, Tokens>): Tokens
    decreases value, 1
  {
    if value.Plain? && IsLocal(value.text, locals) then locals[value.text[0].text] else RhsText(value)
  }

  function CaseTexts(cases: Cases): seq<SwitchCase> {
    match cases
    case NoCases => []
    case Case(caseLabel, value, rest) => [SwitchCase(caseLabel, CaseValueText(value))] + CaseTexts(rest)
  }

  function CaseValueText(value: Rhs): Tokens
    decreases value, 1
  {
    if value == Plain([]) then NA else RhsText(value)
  }

  // ----- Where a block ends -----

  /** The next statement stands at this indentation or further out. */
  predicate Settled(rest: Lines, indent: nat) {
    DropBlanks(rest) != [] ==> DropBlanks(rest)[0].indent <= indent
  }

  predicate Below(rest: Lines, indent: nat) {
    DropBlanks(rest) != [] ==> DropBlanks(rest)[0].indent < indent
  }

  lemma {:induction false} BlanksDoNotMatter(ls: Lines, indent: nat, locals: map<string, Tokens>, shown: Tokens)
    ensures LowerBody(ls, indent, locals, shown) == LowerBody(DropBlanks(ls), indent, locals, shown)
  {
    if ls != [] && ls[0].text == [] {
      BlanksDoNotMatter(ls[1..], indent, locals, shown);
    }
  }

  lemma {:induction false} BodyEnds(ls: Lines, indent: nat, locals: map<string, Tokens>, shown: Tokens)
    requires Below(ls, indent)
    ensures LowerBody(ls, indent, locals, shown) == Good(shown, DropBlanks(ls))
  {
    BlanksDoNotMatter(ls, indent, locals, shown);
  }

  lemma {:induction false} CaseBlanksDoNotMatter(ls: Lines, indent: nat, caseIndent: nat)
    ensures LowerCases(ls, indent, caseIndent) == LowerCases(DropBlanks(ls), indent, caseIndent)
  {
    if ls != [] && ls[0].text == [] {
      CaseBlanksDoNotMatter(ls[1..], indent, caseIndent);
    }
  }

  lemma {:induction false} CasesEnd(ls: Lines, indent: nat, caseIndent: nat)
    requires Settled(ls, indent)
    ensures LowerCases(ls, indent, caseIndent) == GoodCases([], DropBlanks(ls))
  {
    CaseBlanksDoNotMatter(ls, indent, caseIndent);
  }

  lemma {:induction false} DropNothing(line: Line, rest: Lines)
    requires line.text != []
    ensures DropBlanks([line] + rest) == [line] + rest
  {
  }

  lemma {:induction false} DropBlank(k: nat, rest: Lines)
    ensures DropBlanks([Line(k, [], false)] + rest) == DropBlanks(rest)
  {
  }

  lemma {:induction false} BodySettled(b: Body, indent: nat, rest: Lines)
    requires BodyForm(b)
    ensures HasStatement(b) ==> DropBlanks(BodyLines(b, indent) + rest) != []
                                && DropBlanks(BodyLines(b, indent) + rest)[0].indent == indent
    ensures Below(rest, indent) ==> Settled(BodyLines(b, indent) + rest, indent)
  {
    hide DropBlanks, RhsLines, OpeningText;
    match b
    case End =>
      assert BodyLines(b, indent) + rest == rest;
    case Then(Blank(k), more) =>
      assert BodyLines(b, indent) + rest == [Line(k, [], false)] + (BodyLines(more, indent) + rest);
      DropBlank(k, BodyLines(more, indent) + rest);
      BodySettled(more, indent, rest);
    case Then(first, more) =>
      var lines := StatementLines(first, indent);
      StatementHasText(first, indent);
      assert BodyLines(b, indent) + rest == [lines[0]] + (lines[1..] + BodyLines(more, indent) + rest);
      DropNothing(lines[0], lines[1..] + BodyLines(more, indent) + rest);
  }

  lemma {:induction false} StatementHasText(s: Statement, indent: nat)
    requires StatementForm(s) && IsStatement(s)
    ensures var lines := StatementLines(s, indent); lines != [] && lines[0].text != [] && lines[0].indent == indent
  {
  }

  // ----- Each construct -----

  /** What lowering leaves after a right-hand side: blank lines behind a block are consumed with it. */
  function After(rhs: Rhs, rest: Lines): Lines {
    if rhs.Plain? then rest else DropBlanks(rest)
  }

  lemma {:induction false} RhsLowers(rhs: Rhs, indent: nat, rest: Lines)
    requires RhsForm(rhs) && Settled(rest, indent)
    ensures LowerRhs(RhsLines(rhs, indent) + rest, indent, OpeningText(rhs)) == Good(RhsText(rhs), After(rhs, rest))
    decreases rhs, 3
  {
    hide LowerIf, LowerSwitch, SwitchText, FallbackText, LowerCases, DropBlanks;
    match rhs
    case Plain(text) =>
      assert RhsLines(rhs, indent) + rest == rest;
    case If(tree) =>
      IfLowers(tree, indent, rest);
    case Switch(s) =>
      SwitchLowers(s, indent, rest);
  }

  /** The lines lower to the text of the switch, leaving `after`. */
  predicate SwitchLowersTo(ls: Lines, indent: nat, s: SwitchTree, after: Lines) {
    LowerSwitch(ls, indent, [SWITCH] + s.selector)
    == Good(SwitchText(s.selector, CaseTexts(s.cases), FallbackText(CaseTexts(s.cases))), after)
  }

  /** The lines lower to the text of the conditional, leaving `after`. */
  predicate IfLowersTo(ls: Lines, indent: nat, tree: IfTree, after: Lines) {
    LowerIf(ls, indent, [IF] + tree.condition) == Good(IfText(tree), after)
  }

  /** The lines lower to the text of the block, leaving `after`. */
  predicate BlockLowersTo(ls: Lines, indent: nat, b: Block, after: Lines) {
    LowerBranch(ls, indent) == Good(BlockText(b), after)
  }

  lemma {:induction false} SwitchLowers(s: SwitchTree, indent: nat, rest: Lines)
    requires s.margin > 0 && s.cases.Case? && CasesForm(s.cases) && Settled(rest, indent)
    ensures SwitchLowersTo(CaseLines(s.cases, indent + s.margin) + rest, indent, s, DropBlanks(rest))
    decreases s, 3
  {
    hide SwitchText, FallbackText, LowerCases, LowerSwitch, CasesForm, DropBlanks, CaseTexts;
    var caseIndent := indent + s.margin;
    var ls := CaseLines(s.cases, caseIndent) + rest;
    FirstCase(s.cases, caseIndent, rest);
    assert ls[0..] == ls;
    SwitchStarts(ls, 0, 0, indent, [SWITCH] + s.selector);
    CasesLower(s.cases, indent, caseIndent, rest);
    assert ([SWITCH] + s.selector)[1..] == s.selector;
  }

  lemma {:induction false} FirstCase(cases: Cases, caseIndent: nat, rest: Lines)
    requires cases.Case?
    ensures var ls := CaseLines(cases, caseIndent) + rest;
            ls != [] && ls[0].indent == caseIndent && DropBlanks(ls) == ls
  {
  }

  lemma {:induction false} IfLowers(tree: IfTree, indent: nat, rest: Lines)
    requires IfForm(tree) && Settled(rest, indent)
    ensures IfLowersTo(IfLines(tree, indent) + rest, indent, tree, DropBlanks(rest))
    decreases tree, 2
  {
    hide LowerIf, LowerBranch, TernaryText, DropBlanks, BlockLines, BlockForm, BlockText, Settled, IfLines, IfText,
         ElseLines, IfLowersTo, BlockLowersTo;
    ElseIsSettled(tree, indent, rest);
    BlockLowers(tree.body, indent, ElseLines(tree.otherwise, indent) + rest);
    match tree.otherwise
    case ElseIf(t) =>
      IfLowers(t, indent, rest);
      IfWithElseIf(tree, t, indent, rest);
    case Else(body) =>
      BlockLowers(body, indent, rest);
      IfWithElse(tree, body, indent, rest);
  }

  lemma {:induction false} ElseIsSettled(tree: IfTree, indent: nat, rest: Lines)
    ensures var otherwise := ElseLines(tree.otherwise, indent) + rest;
            DropBlanks(otherwise) == otherwise && Settled(otherwise, indent)
  {
    hide BlockLines;
  }

  lemma {:induction false} IfWithElseIf(tree: IfTree, t: IfTree, indent: nat, rest: Lines)
    requires tree.otherwise == ElseIf(t) && |t.condition| > 0
    requires var otherwise := ElseLines(tree.otherwise, indent) + rest;
             && DropBlanks(otherwise) == otherwise
             && BlockLowersTo(BlockLines(tree.body, indent) + otherwise, indent, tree.body, otherwise)
    requires IfLowersTo(IfLines(t, indent) + rest, indent, t, DropBlanks(rest))
    ensures IfLowersTo(IfLines(tree, indent) + rest, indent, tree, DropBlanks(rest))
  {
    hide LowerIf, LowerBranch, TernaryText, DropBlanks, BlockLines, BlockText;
    var line, after := Line(indent, [ELSE, IF] + t.condition, t.tight), IfLines(t, indent) + rest;
    var otherwise, ls := ElseLines(tree.otherwise, indent) + rest, IfLines(tree, indent) + rest;
    assert otherwise == [line] + after;
    assert ls == BlockLines(tree.body, indent) + otherwise;
    assert line.text[1..] == [IF] + t.condition && IsElseIf(line.text);
    assert IfText(tree) == TernaryText(tree.condition, BlockText(tree.body), IfText(t));
    hide IfLines, ElseLines, IfText, IsElseIf;
    assert BlockLowersTo(ls, indent, tree.body, otherwise);
    ElseIfStep(ls, indent, tree.condition, BlockText(tree.body), line, after);
  }

  lemma {:induction false} IfWithElse(tree: IfTree, body: Block, indent: nat, rest: Lines)
    requires tree.otherwise == Else(body)
    requires var otherwise := ElseLines(tree.otherwise, indent) + rest;
             && DropBlanks(otherwise) == otherwise
             && BlockLowersTo(BlockLines(tree.body, indent) + otherwise, indent, tree.body, otherwise)
    requires BlockLowersTo(BlockLines(body, indent) + rest, indent, body, DropBlanks(rest))
    ensures IfLowersTo(IfLines(tree, indent) + rest, indent, tree, DropBlanks(rest))
  {
    hide LowerIf, LowerBranch, TernaryText, DropBlanks, BlockLines, BlockText, IfLines, ElseLines, IfText;
    var otherwise, ls := ElseLines(tree.otherwise, indent) + rest, IfLines(tree, indent) + rest;
    ElseForms(tree, body, indent, rest);
    assert BlockLowersTo(ls, indent, tree.body, otherwise);
    ElseStep(ls, indent, tree.condition, BlockText(tree.body), Line(indent, [ELSE], false),
             BlockLines(body, indent) + rest);
  }

  lemma {:induction false} ElseForms(tree: IfTree, body: Block, indent: nat, rest: Lines)
    requires tree.otherwise == Else(body)
    ensures ElseLines(tree.otherwise, indent) + rest
            == [Line(indent, [ELSE], false)] + (BlockLines(body, indent) + rest)
    ensures IfLines(tree, indent) + rest == BlockLines(tree.body, indent) + (ElseLines(tree.otherwise, indent) + rest)
    ensures IfText(tree) == TernaryText(tree.condition, BlockText(tree.body), BlockText(body))
  {
    hide TernaryText, BlockLines, BlockText;
  }

  lemma {:induction false} BlockLowers(b: Block, indent: nat, rest: Lines)
    requires BlockForm(b) && Settled(rest, indent)
    ensures BlockLowersTo(BlockLines(b, indent) + rest, indent, b, DropBlanks(rest))
    decreases b, 2
  {
    hide LowerBranch, LowerBody, BodyForm, HasStatement, BodyText, DropBlanks, BodyLines;
    var ls := BlockLines(b, indent) + rest;
    BodySettled(b.body, indent + b.margin, rest);
    BranchStartsAt(ls, indent);
    BodyLowers(b.body, indent + b.margin, rest, map[], NA);
    BlanksDoNotMatter(ls, indent + b.margin, map[], NA);
  }

  lemma {:induction false} BranchStartsAt(ls: Lines, indent: nat)
    requires DropBlanks(ls) != [] && DropBlanks(ls)[0].indent > indent
    ensures LowerBranch(ls, indent) == LowerBody(DropBlanks(ls), DropBlanks(ls)[0].indent, map[], NA)
  {
  }

  lemma {:induction false} ElseIfStep(ls: Lines, indent: nat, condition: Tokens, body: Tokens, line: Line, after: Lines)
    requires LowerBranch(ls, indent) == Good(body, [line] + after) && line.indent == indent && IsElseIf(line.text)
    ensures LowerIf(ls, indent, [IF] + condition)
            == var nested := LowerIf(after, indent, line.text[1..]);
               if nested.Bad? then Bad else Good(TernaryText(condition, body, nested.text), nested.rest)
  {
  }

  lemma {:induction false} ElseStep(ls: Lines, indent: nat, condition: Tokens, body: Tokens, line: Line, after: Lines)
    requires LowerBranch(ls, indent) == Good(body, [line] + after) && line.indent == indent && line.text == [ELSE]
    ensures LowerIf(ls, indent, [IF] + condition)
            == var other := LowerBranch(after, indent);
               if other.Bad? then Bad else Good(TernaryText(condition, body, other.text), other.rest)
  {
  }

  lemma {:induction false} BlankStep(k: nat, ls: Lines, indent: nat, locals: map<string, Tokens>, shown: Tokens)
    ensures LowerBody([Line(k, [], false)] + ls, indent, locals, shown) == LowerBody(ls, indent, locals, shown)
  {
  }

  lemma {:induction false} StatementStep(line: Line, ls: Lines, locals: map<string, Tokens>, shown: Tokens,
          name: string, value: Tokens)
    requires AssignMatch(line.text) == Some(Assignment(name, value))
    ensures LowerBody([line] + ls, line.indent, locals, shown)
            == var v := LowerRhs(ls, line.indent, value);
               if v.Bad? then Bad else LowerBody(v.rest, line.indent, locals[name := v.text], v.text)
  {
  }

  lemma {:induction false} YieldStep(line: Line, ls: Lines, locals: map<string, Tokens>, shown: Tokens)
    requires AssignMatch(line.text).None? && line.text != []
    ensures LowerBody([line] + ls, line.indent, locals, shown)
            == if StartsIf(line.text) || StartsSwitch(line.text) then
                 var v := LowerRhs(ls, line.indent, line.text);
                 if v.Bad? then Bad else LowerBody(v.rest, line.indent, locals, v.text)
               else LowerBody(ls, line.indent, locals, if IsLocal(line.text, locals) then locals[line.text[0].text]
                              else line.text)
  {
  }

  lemma {:induction false} BodyLowers(b: Body, indent: nat, rest: Lines, locals: map<string, Tokens>, shown: Tokens)
    requires BodyForm(b) && Below(rest, indent)
    ensures LowerBody(BodyLines(b, indent) + rest, indent, locals, shown)
            == Good(BodyText(b, locals, shown), DropBlanks(rest))
    decreases b, 1
  {
    hide LowerBody, LowerRhs, DropBlanks, AssignMatch, RhsForm, OpeningText, RhsText, YieldText;
    match b
    case End =>
      assert BodyLines(b, indent) + rest == rest;
      BodyEnds(rest, indent, locals, shown);
    case Then(Blank(k), more) =>
      assert BodyLines(b, indent) + rest == [Line(k, [], false)] + (BodyLines(more, indent) + rest);
      BlankStep(k, BodyLines(more, indent) + rest, indent, locals, shown);
      BodyLowers(more, indent, rest, locals, shown);
    case Then(Assign(_, name, value), more) =>
      AssignLowers(b.first, more, indent, rest, locals, shown);
      BodyLowers(more, indent, rest, locals[name := RhsText(value)], RhsText(value));
    case Then(Yield(value), more) =>
      YieldLowers(b.first, more, indent, rest, locals, shown);
      BodyLowers(more, indent, rest, locals, YieldText(value, locals));
  }

  lemma {:induction false} AssignLowers(s: Statement, more: Body, indent: nat, rest: Lines,
          locals: map<string, Tokens>, shown: Tokens)
    requires s.Assign? && StatementForm(s) && BodyForm(more) && Below(rest, indent)
    ensures LowerBody(BodyLines(Then(s, more), indent) + rest, indent, locals, shown)
            == LowerBody(BodyLines(more, indent) + rest, indent, locals[s.name := RhsText(s.value)], RhsText(s.value))
    decreases s, 4
  {
    hide LowerBody, LowerRhs, DropBlanks, AssignMatch, RhsForm, OpeningText, RhsText, YieldText, BodyForm;
    var later := BodyLines(more, indent) + rest;
    var line := Line(indent, s.head + OpeningText(s.value), false);
    var ls := RhsLines(s.value, indent) + later;
    assert BodyLines(Then(s, more), indent) + rest == [line] + ls;
    BodySettled(more, indent, rest);
    StatementStep(line, ls, locals, shown, s.name, OpeningText(s.value));
    RhsLowers(s.value, indent, later);
    BlanksDoNotMatter(later, indent, locals[s.name := RhsText(s.value)], RhsText(s.value));
  }

  lemma {:induction false} YieldLowers(s: Statement, more: Body, indent: nat, rest: Lines, locals: map<string, Tokens>,
          shown: Tokens)
    requires s.Yield? && StatementForm(s) && BodyForm(more) && Below(rest, indent)
    ensures LowerBody(BodyLines(Then(s, more), indent) + rest, indent, locals, shown)
            == LowerBody(BodyLines(more, indent) + rest, indent, locals, YieldText(s.value, locals))
    decreases s, 4
  {
    hide LowerBody, LowerRhs, DropBlanks, AssignMatch, RhsForm, BodyForm, StartsIf, StartsSwitch;
    var later := BodyLines(more, indent) + rest;
    var line := Line(indent, OpeningText(s.value), Opens(s.value));
    var ls := RhsLines(s.value, indent) + later;
    assert BodyLines(Then(s, more), indent) + rest == [line] + ls;
    BodySettled(more, indent, rest);
    YieldStep(line, ls, locals, shown);
    RhsLowers(s.value, indent, later);
    YieldOpens(s.value, locals);
    if s.value.Plain? {
      assert ls == later;
    }
    BlanksDoNotMatter(later, indent, locals, YieldText(s.value, locals));
  }

  lemma {:induction false} YieldOpens(value: Rhs, locals: map<string, Tokens>)
    requires RhsForm(value)
    ensures StartsIf(OpeningText(value)) || StartsSwitch(OpeningText(value)) <==> !value.Plain?
    ensures !value.Plain? ==> YieldText(value, locals) == RhsText(value)
  {
  }

  lemma {:induction false} CaseStep(line: Line, ls: Lines, indent: nat, arrow: nat)
    requires indent < line.indent && FindArrow(line.text) == Some(arrow)
    ensures LowerCases([line] + ls, indent, line.indent)
            == var v := LowerRhs(ls, line.indent, CaseText(line.text[arrow + 2..]));
               if v.Bad? then BadCases
               else PutCase(SwitchCase(line.text[..arrow], v.text), LowerCases(v.rest, indent, line.indent))
  {
  }

  lemma {:induction false} CasesLower(cases: Cases, indent: nat, caseIndent: nat, rest: Lines)
    requires CasesForm(cases) && indent < caseIndent && Settled(rest, indent)
    ensures LowerCases(CaseLines(cases, caseIndent) + rest, indent, caseIndent)
            == GoodCases(CaseTexts(cases), DropBlanks(rest))
    decreases cases, 1
  {
    hide LowerCases, LowerRhs, FindArrow;
    match cases
    case NoCases =>
      assert CaseLines(cases, caseIndent) + rest == rest;
      CasesEnd(rest, indent, caseIndent);
    case Case(caseLabel, value, more) =>
      var line := Line(caseIndent, caseLabel + ARROW + OpeningText(value), false);
      var later := CaseLines(more, caseIndent) + rest;
      var ls := RhsLines(value, caseIndent) + later;
      assert CaseLines(cases, caseIndent) + rest == [line] + ls;
      CaseStep(line, ls, indent, |caseLabel|);
      assert line.text[|caseLabel| + 2..] == OpeningText(value) && line.text[..|caseLabel|] == caseLabel;
      CasesSettled(more, indent, caseIndent, rest);
      CaseValueLowers(value, caseIndent, later);
      CasesLower(more, indent, caseIndent, rest);
      CaseBlanksDoNotMatter(later, indent, caseIndent);
  }

  lemma {:induction false} CaseValueLowers(value: Rhs, indent: nat, rest: Lines)
    requires RhsForm(value) && Settled(rest, indent)
    ensures LowerRhs(RhsLines(value, indent) + rest, indent, CaseText(OpeningText(value)))
            == Good(CaseValueText(value), After(value, rest))
    decreases value, 4
  {
    if value == Plain([]) {
      assert RhsLines(value, indent) + rest == rest;
    } else {
      RhsLowers(value, indent, rest);
    }
  }

  lemma {:induction false} CasesSettled(cases: Cases, indent: nat, caseIndent: nat, rest: Lines)
    requires indent < caseIndent && Settled(rest, indent)
    ensures Settled(CaseLines(cases, caseIndent) + rest, caseIndent)
  {
    var ls := CaseLines(cases, caseIndent) + rest;
    if cases.NoCases? {
      assert ls == rest;
    } else {
      assert ls == [ls[0]] + ls[1..];
      DropNothing(ls[0], ls[1..]);
    }
  }
}
