/** Indented blocks of a script: the source lines they are written as, and what they mean bar by bar. */
module PineBlocks {
  import opened Options
  import opened PineNumbers
  import opened PineValues
  import opened PineExpressions
  import opened PineGrammar

  /** A source line; `tight` tells "if(" from "if (" at its start. */
  datatype Line = Line(indent: nat, text: Tokens, tight: bool)

  const IF := IdentTok("if")
  const ELSE := IdentTok("else")
  const SWITCH := IdentTok("switch")
  const ARROW: Tokens := [Equals, CompareTok(Greater)]
  const NA: Tokens := [IdentTok("na")]

  predicate StartsIf(ts: Tokens) {
    First(ts) == IF
  }

  predicate StartsSwitch(ts: Tokens) {
    First(ts) == SWITCH
  }

  predicate IsElseIf(ts: Tokens) {
    |ts| > 2 && ts[0] == ELSE && ts[1] == IF
  }

  predicate IsPlainName(name: string) {
    |name| > 0 && '.' !in name
  }

  const MODIFIERS: set<string> := {"var", "varip", "const", "simple", "series"}
  const TYPES: set<string> := {"float", "int", "bool", "color", "string", "line", "label", "box", "table"}

  /** Modifiers, then one type word. */
  predicate IsTypePrefix(ts: Tokens) {
    && |ts| > 0 && ts[0].IdentTok?
    && if |ts| == 1 then ts[0].text in TYPES
       else ts[0].text in MODIFIERS && IsTypePrefix(ts[1..])
  }

  /** The optional declaration in front of an assigned name. */
  predicate IsDeclaration(ts: Tokens) {
    || ts == []
    || IsTypePrefix(ts)
    || (ts[0] == IdentTok("export") && IsTypePrefix(ts[1..]))
  }

  /** Number of leading identifiers. */
  function LeadingNames(ts: Tokens): (n: nat)
    ensures n <= |ts| && forall i | 0 <= i < n :: ts[i].IdentTok?
  {
    if |ts| > 0 && ts[0].IdentTok? then 1 + LeadingNames(ts[1..]) else 0
  }

  /** The text after "=" or ":=".  A line "x == y" has "= y" after its first equals sign. */
  function AssignedText(ts: Tokens): Option<Tokens> {
    match First(ts)
    case Equals => Some(ts[1..])
    case CompareTok(Equal) => Some([Equals] + ts[1..])
    case Colon =>
      if |ts| > 1 && ts[1] == Equals then Some(ts[2..])
      else if |ts| > 1 && ts[1] == CompareTok(Equal) then Some([Equals] + ts[2..])
      else None
    case _ => None
  }

  /** assignmentRe: an optional declaration, a name, "=" or ":=", and a non-empty value. */
  function AssignMatch(ts: Tokens): Option<Assignment> {
    var n := LeadingNames(ts);
    if n == 0 || !IsPlainName(ts[n - 1].text) || !IsDeclaration(ts[..n - 1]) then None
    else
      var value := AssignedText(ts[n..]);
      if value.None? || value.value == [] then None
      else Some(Assignment(ts[n - 1].text, value.value))
  }

  // ----- Block trees -----

  datatype Rhs = Plain(text: Tokens) | If(tree: IfTree) | Switch(switch: SwitchTree)

  datatype IfTree = IfTree(condition: Tokens, tight: bool, body: Block, otherwise: ElseTree)

  datatype ElseTree = ElseIf(tree: IfTree) | Else(body: Block)

  /** A body indented by `margin` more than the line that opens it. */
  datatype Block = Block(margin: nat, body: Body)

  datatype Body = End | Then(first: Statement, rest: Body)

  /** `head` is the text of an assignment line up to and including its equals sign. */
  datatype Statement =
    | Blank(indent: nat)
    | Assign(head: Tokens, name: string, value: Rhs)
    | Yield(value: Rhs)

  datatype SwitchTree = SwitchTree(selector: Tokens, margin: nat, cases: Cases)

  /** An empty caseLabel is the fallback. */
  datatype Cases = NoCases | Case(caseLabel: Tokens, value: Rhs, rest: Cases)

  /** What a right-hand side shows on the line it starts on. */
  function OpeningText(rhs: Rhs): Tokens {
    match rhs
    case Plain(text) => text
    case If(tree) => [IF] + tree.condition
    case Switch(s) => [SWITCH] + s.selector
  }

  function Opens(rhs: Rhs): bool {
    rhs.If? && rhs.tree.tight
  }

  // ----- The lines of a tree -----

  function RhsLines(rhs: Rhs, indent: nat): seq<Line>
    decreases rhs, 0
  {
    match rhs
    case Plain(_) => []
    case If(tree) => IfLines(tree, indent)
    case Switch(s) => CaseLines(s.cases, indent + s.margin)
  }

  /** The lines after the one that holds the condition. */
  function IfLines(tree: IfTree, indent: nat): seq<Line> {
    BlockLines(tree.body, indent) + ElseLines(tree.otherwise, indent)
  }

  function ElseLines(tree: ElseTree, indent: nat): seq<Line> {
    match tree
    case ElseIf(t) => [Line(indent, [ELSE, IF] + t.condition, t.tight)] + IfLines(t, indent)
    case Else(body) => [Line(indent, [ELSE], false)] + BlockLines(body, indent)
  }

  function BlockLines(b: Block, indent: nat): seq<Line> {
    BodyLines(b.body, indent + b.margin)
  }

  function BodyLines(b: Body, indent: nat): seq<Line> {
    match b
    case End => []
    case Then(first, rest) => StatementLines(first, indent) + BodyLines(rest, indent)
  }

  function StatementLines(s: Statement, indent: nat): seq<Line> {
    match s
    case Blank(k) => [Line(k, [], false)]
    case Assign(head, _, value) => [Line(indent, head + OpeningText(value), false)] + RhsLines(value, indent)
    case Yield(value) => [Line(indent, OpeningText(value), Opens(value))] + RhsLines(value, indent)
  }

  function CaseLines(cases: Cases, indent: nat): seq<Line> {
    match cases
    case NoCases => []
    case Case(caseLabel, value, rest) =>
      [Line(indent, caseLabel + ARROW + OpeningText(value), false)] + RhsLines(value, indent) + CaseLines(rest, indent)
  }

  // ----- Trees whose lines are read back as what they are -----

  function FindArrow(ts: Tokens): (r: Option<nat>)
    ensures r.Some? ==> r.value + 2 <= |ts|
  {
    if |ts| < 2 then None
    else if ts[0] == Equals && ts[1] == CompareTok(Greater) then Some(0)
    else
      var later := FindArrow(ts[1..]);
      if later.None? then None else Some(later.value + 1)
  }

  predicate IsStatement(s: Statement) {
    !s.Blank?
  }

  predicate HasStatement(b: Body) {
    b.Then? && (IsStatement(b.first) || HasStatement(b.rest))
  }

  /** Nothing opens a block unless it is one. */
  predicate OpensTruly(rhs: Rhs) {
    rhs.Plain? ==> !StartsIf(rhs.text) && !StartsSwitch(rhs.text)
  }

  predicate RhsForm(rhs: Rhs)
    decreases rhs, 0
  {
    match rhs
    case Plain(_) => OpensTruly(rhs)
    case If(tree) => IfForm(tree)
    case Switch(s) => s.margin > 0 && s.cases.Case? && CasesForm(s.cases)
  }

  predicate IfForm(tree: IfTree) {
    |tree.condition| > 0 && BlockForm(tree.body) && ElseForm(tree.otherwise)
  }

  predicate ElseForm(tree: ElseTree) {
    match tree
    case ElseIf(t) => IfForm(t)
    case Else(body) => BlockForm(body)
  }

  predicate BlockForm(b: Block) {
    b.margin > 0 && HasStatement(b.body) && BodyForm(b.body)
  }

  predicate BodyForm(b: Body) {
    b.Then? ==> StatementForm(b.first) && BodyForm(b.rest)
  }

  predicate StatementForm(s: Statement) {
    match s
    case Blank(_) => true
    case Assign(head, name, value) =>
      && AssignMatch(head + OpeningText(value)) == Some(Assignment(name, OpeningText(value)))
      && RhsForm(value)
    case Yield(value) =>
      && OpeningText(value) != [] && AssignMatch(OpeningText(value)) == None
      && RhsForm(value)
  }

  predicate CasesForm(cases: Cases) {
    match cases
    case NoCases => true
    case Case(caseLabel, value, rest) =>
      && FindArrow(caseLabel + ARROW + OpeningText(value)) == Some(|caseLabel|)
      && RhsForm(value) && CasesForm(rest)
  }

  // ----- What a tree means at one bar -----

  /** The number a text shows at bar i. */
  function PointOf(ts: Tokens, ctx: Context, i: nat): Num
    requires ctx.Valid()
  {
    match EvalText(ts, ctx)
    case Some(v) => GetAt(v, i)
    case None => NaN
  }

  predicate HoldsAt(ts: Tokens, ctx: Context, i: nat)
    requires ctx.Valid()
  {
    EvalText(ts, ctx).Some? && TruthyAt(EvalText(ts, ctx).value, i)
  }

  /** The selector equals the caseLabel at bar i; without a selector the caseLabel is itself a condition. */
  predicate CaseHoldsAt(selector: Tokens, caseLabel: Tokens, ctx: Context, i: nat)
    requires ctx.Valid()
  {
    if selector == [] then HoldsAt(caseLabel, ctx, i)
    else
      var a, b := EvalText(selector, ctx), EvalText(caseLabel, ctx);
      a.Some? && b.Some? && TruthyAt(Compare(a.value, b.value, Equal, ctx.Bars(), ctx.print_), i)
  }

  function RhsAt(rhs: Rhs, ctx: Context, i: nat): Num
    requires ctx.Valid()
    decreases rhs, 0
  {
    match rhs
    case Plain(text) => PointOf(text, ctx, i)
    case If(tree) => IfAt(tree, ctx, i)
    case Switch(s) => CasesAt(s.selector, s.cases, FallbackAt(s.cases, NaN, ctx, i), ctx, i)
  }

  function IfAt(tree: IfTree, ctx: Context, i: nat): Num
    requires ctx.Valid()
    decreases tree, 1
  {
    if HoldsAt(tree.condition, ctx, i) then BlockAt(tree.body, ctx, i)
    else
      match tree.otherwise
      case ElseIf(t) => IfAt(t, ctx, i)
      case Else(body) => BlockAt(body, ctx, i)
  }

  function BlockAt(b: Block, ctx: Context, i: nat): Num
    requires ctx.Valid()
    decreases b, 1
  {
    BodyAt(b.body, ctx, NaN, i)
  }

  /** Statements run in order; an assigned local is a variable for the statements after it; the block
      shows what its last statement shows. */
  function BodyAt(b: Body, ctx: Context, shown: Num, i: nat): Num
    requires ctx.Valid()
    decreases b, 1
  {
    match b
    case End => shown
    case Then(Blank(_), rest) => BodyAt(rest, ctx, shown, i)
    case Then(Yield(value), rest) => BodyAt(rest, ctx, RhsAt(value, ctx, i), i)
    case Then(Assign(_, name, value), rest) =>
      var local := Series(seq(ctx.Bars(), j requires 0 <= j => RhsAt(value, ctx, j)));
      BodyAt(rest, ctx.(variables := ctx.variables[name := local]), RhsAt(value, ctx, i), i)
  }

  /** The last fallback of a switch. */
  function FallbackAt(cases: Cases, shown: Num, ctx: Context, i: nat): Num
    requires ctx.Valid()
    decreases cases, 1
  {
    match cases
    case NoCases => shown
    case Case(caseLabel, value, rest) =>
      FallbackAt(rest, if caseLabel == [] then CaseValueAt(value, ctx, i) else shown, ctx, i)
  }

  /** The first case that holds, else the fallback. */
  function CasesAt(selector: Tokens, cases: Cases, fallback: Num, ctx: Context, i: nat): Num
    requires ctx.Valid()
    decreases cases, 1
  {
    match cases
    case NoCases => fallback
    case Case(caseLabel, value, rest) =>
      if caseLabel != [] && CaseHoldsAt(selector, caseLabel, ctx, i) then CaseValueAt(value, ctx, i)
      else CasesAt(selector, rest, fallback, ctx, i)
  }

  /** A case with nothing after its arrow shows na. */
  function CaseValueAt(value: Rhs, ctx: Context, i: nat): Num
    requires ctx.Valid()
    decreases value, 1
  {
    if value == Plain([]) then NaN else RhsAt(value, ctx, i)
  }
}
