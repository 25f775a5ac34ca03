/** The guard of a drawing call: the conjunction of conditions read off the lines above it. */
module PineGuards {
  import opened Options
  import opened PineValues
  import opened PineExpressions
  import opened PineGrammar
  import opened PineBlocks

  type Lines = seq<Line>

  /** Any word that begins with "else" starts an else line here. */
  predicate StartsElse(ts: Tokens) {
    First(ts).IdentTok? && "else" <= First(ts).text
  }

  /** What follows the "else" of an else line, which may be the rest of the same word. */
  function AfterElse(ts: Tokens): Tokens
    requires StartsElse(ts)
  {
    if ts[0] == ELSE then ts[1..] else [IdentTok(ts[0].text[4..])] + ts[1..]
  }

  /** "else if ...", or "elseif ...", with something after it. */
  predicate IsElseIfLine(ts: Tokens) {
    StartsElse(ts) && StartsIf(AfterElse(ts)) && |AfterElse(ts)| > 1
  }

  /** The condition of an "if" text; "if(" loses its parenthesis and a final one. */
  function BranchCondition(ts: Tokens, tight: bool): Tokens
    requires StartsIf(ts)
  {
    if !tight || First(ts[1..]) != LParen then ts[1..]
    else
      var inner := ts[2..];
      if |inner| > 0 && inner[|inner| - 1] == RParen then inner[..|inner| - 1] else inner
  }

  /** The earlier conditions of the chain at this indentation, topmost first, looking up from line `cursor`. */
  function PrecedingConditions(lines: Lines, cursor: nat, indent: nat): seq<Tokens>
    requires cursor <= |lines|
  {
    if cursor == 0 then []
    else
      var line := lines[cursor - 1];
      if line.indent < indent then []
      else if line.indent != indent then PrecedingConditions(lines, cursor - 1, indent)
      else if StartsIf(line.text) && !line.tight then [BranchCondition(line.text, false)]
      else if IsElseIf(line.text) then
        PrecedingConditions(lines, cursor - 1, indent) + [BranchCondition(line.text[1..], line.tight)]
      else PrecedingConditions(lines, cursor - 1, indent)
  }

  function Negated(conditions: seq<Tokens>): seq<Literal> {
    seq(|conditions|, i requires 0 <= i < |conditions| => Literal(true, conditions[i]))
  }

  /** What the line at `index` demands of the lines inside its block; empty when it opens none. */
  function BranchPredicate(lines: Lines, index: nat): Tokens
    requires index < |lines|
  {
    var line := lines[index];
    if StartsElse(line.text) then
      var parents := PrecedingConditions(lines, index, line.indent);
      if IsElseIfLine(line.text) then
        ConjunctionText(Negated(parents) + [Literal(false, BranchCondition(AfterElse(line.text), line.tight))])
      else ConjunctionText(Negated(parents))
    else if StartsIf(line.text) then BranchCondition(line.text, line.tight)
    else []
  }

  /** The nearest line above `cursor`, further out than `indent`, that opens a conditional block. */
  function EnclosingLine(lines: Lines, cursor: nat, indent: nat): (r: Option<nat>)
    requires cursor <= |lines|
    ensures r.Some? ==> r.value < cursor
  {
    if cursor == 0 then None
    else
      var line := lines[cursor - 1];
      if line.text == [] || line.indent >= indent then EnclosingLine(lines, cursor - 1, indent)
      else if BranchPredicate(lines, cursor - 1) != [] then Some(cursor - 1)
      else if line.indent == 0 then None
      else EnclosingLine(lines, cursor - 1, indent)
  }

  /** The demands of all enclosing blocks, outermost first. */
  function EnclosingConditions(lines: Lines, index: nat, indent: nat): seq<Tokens>
    requires index <= |lines|
  {
    match EnclosingLine(lines, index, indent)
    case None => []
    case Some(p) => EnclosingConditions(lines, p, lines[p].indent) + [BranchPredicate(lines, p)]
  }

  function Wrapped(conditions: seq<Tokens>): seq<Literal> {
    seq(|conditions|, i requires 0 <= i < |conditions| => Literal(false, conditions[i]))
  }

  function GuardText(lines: Lines, index: nat): Tokens
    requires index < |lines|
  {
    ConjunctionText(Wrapped(EnclosingConditions(lines, index, lines[index].indent)))
  }

  // ----- The loops of object_runtime.go -----

  function Reversed<T>(s: seq<T>): seq<T> {
    seq(|s|, i requires 0 <= i < |s| => s[|s| - 1 - i])
  }

  method ReverseInPlace(conditions: array<Tokens>)
    modifies conditions
    ensures conditions[..] == Reversed(old(conditions[..]))
  {
    var left, right := 0, conditions.Length - 1;
    while left < right
      invariant 0 <= left <= right + 1 <= conditions.Length && left + right == conditions.Length - 1
      invariant forall k | 0 <= k < left || right < k < conditions.Length ::
                conditions[k] == old(conditions[conditions.Length - 1 - k])
      invariant forall k | left <= k <= right :: conditions[k] == old(conditions[k])
    {
      conditions[left], conditions[right] := conditions[right], conditions[left];
      left, right := left + 1, right - 1;
    }
  }

  method PrecedingBranchConditions(lines: Lines, index: nat, indent: nat) returns (conditions: seq<Tokens>)
    requires index <= |lines|
    ensures conditions == PrecedingConditions(lines, index, indent)
  {
    hide BranchCondition;
    var found: seq<Tokens> := [];
    var cursor: nat := index;
    var stopped := false;
    assert PrecedingConditions(lines, cursor, indent) + Reversed(found) == PrecedingConditions(lines, index, indent);
    while cursor > 0 && !stopped
      invariant 0 <= cursor <= index
      invariant (if stopped then [] else PrecedingConditions(lines, cursor, indent)) + Reversed(found)
             == PrecedingConditions(lines, index, indent)
      decreases cursor, !stopped
    {
      var line := lines[cursor - 1];
      if line.indent < indent {
        stopped := true;
      } else if line.indent == indent && StartsIf(line.text) && !line.tight {
        ReversedSnoc(found, BranchCondition(line.text, false));
        found := found + [BranchCondition(line.text, false)];
        stopped := true;
      } else {
        if line.indent == indent && IsElseIf(line.text) {
          ReversedSnoc(found, BranchCondition(line.text[1..], line.tight));
          found := found + [BranchCondition(line.text[1..], line.tight)];
        }
        cursor := cursor - 1;
      }
    }
    var a := new Tokens[|found|](i requires 0 <= i < |found| => found[i]);
    assert a[..] == found;
    ReverseInPlace(a);
    conditions := a[..];
    assert [] + Reversed(found) == Reversed(found);
  }

  lemma {:induction false} ReversedSnoc<T>(s: seq<T>, x: T)
    ensures Reversed(s + [x]) == [x] + Reversed(s)
  {
  }

  method EnclosingIfCondition(lines: Lines, index: nat) returns (guard: Tokens)
    requires index < |lines|
    ensures guard == GuardText(lines, index)
  {
    hide BranchPredicate, ConjunctionText, Wrapped;
    var conditions: seq<Tokens> := [];
    var currentIndex: nat, currentIndent: nat := index, lines[index].indent;
    var found := true;
    assert EnclosingConditions(lines, index, currentIndent) + Reversed(conditions)
           == EnclosingConditions(lines, index, lines[index].indent);
    while found
      invariant currentIndex <= index
      invariant (if found then EnclosingConditions(lines, currentIndex, currentIndent) else []) + Reversed(conditions)
             == EnclosingConditions(lines, index, lines[index].indent)
      decreases currentIndex, found
    {
      var p := FindEnclosing(lines, currentIndex, currentIndent);
      if p.None? {
        found := false;
      } else {
        var condition := BranchPredicate(lines, p.value);
        ReversedSnoc(conditions, condition);
        conditions := conditions + [condition];
        currentIndex, currentIndent := p.value, lines[p.value].indent;
      }
    }
    assert [] + Reversed(conditions) == Reversed(conditions);
    guard := ConjunctionText(Wrapped(Reversed(conditions)));
  }

  method FindEnclosing(lines: Lines, index: nat, indent: nat) returns (r: Option<nat>)
    requires index <= |lines|
    ensures r == EnclosingLine(lines, index, indent)
  {
    var cursor: nat := index;
    while cursor > 0
      invariant 0 <= cursor <= index
      invariant EnclosingLine(lines, cursor, indent) == EnclosingLine(lines, index, indent)
    {
      var candidate := lines[cursor - 1];
      if candidate.text != [] && candidate.indent < indent {
        if BranchPredicate(lines, cursor - 1) != [] {
          return Some(cursor - 1);
        }
        if candidate.indent == 0 {
          return None;
        }
      }
      cursor := cursor - 1;
    }
    return None;
  }

  // ----- Programs: statements and if / else-if / else chains -----

  datatype Nodes =
    | Nothing
    | Draw(text: Tokens, rest: Nodes)
    | Empty(indent: nat, rest: Nodes)
    | Chain(condition: Tokens, tight: bool, margin: nat, body: Nodes, tail: Tail, rest: Nodes)

  datatype Tail =
    | NoElse
    | ElseIfArm(condition: Tokens, tight: bool, margin: nat, body: Nodes, tail: Tail)
    | ElseArm(margin: nat, body: Nodes)

  function IfTokens(condition: Tokens, tight: bool): Tokens {
    [IF] + if tight then Paren(condition) else condition
  }

  function NodesLines(nodes: Nodes, indent: nat): Lines {
    match nodes
    case Nothing => []
    case Draw(text, rest) => [Line(indent, text, false)] + NodesLines(rest, indent)
    case Empty(k, rest) => [Line(k, [], false)] + NodesLines(rest, indent)
    case Chain(condition, tight, margin, body, tail, rest) =>
      [Line(indent, IfTokens(condition, tight), tight)] + NodesLines(body, indent + margin) + TailLines(tail, indent)
        + NodesLines(rest, indent)
  }

  function TailLines(tail: Tail, indent: nat): Lines {
    match tail
    case NoElse => []
    case ElseIfArm(condition, tight, margin, body, more) =>
      [Line(indent, [ELSE] + IfTokens(condition, tight), tight)] + NodesLines(body, indent + margin)
        + TailLines(more, indent)
    case ElseArm(margin, body) =>
      [Line(indent, [ELSE], false)] + NodesLines(body, indent + margin)
  }

  function Size(nodes: Nodes): nat {
    |NodesLines(nodes, 0)|
  }

  function TailSize(tail: Tail): nat {
    |TailLines(tail, 0)|
  }

  /** The call lines that run when the conditions are as `holds` says; lines are numbered from `at`. */
  function Runs(nodes: Nodes, at: nat, holds: Tokens -> bool): set<nat> {
    match nodes
    case Nothing => {}
    case Draw(_, rest) => {at} + Runs(rest, at + 1, holds)
    case Empty(_, rest) => Runs(rest, at + 1, holds)
    case Chain(condition, _, _, body, tail, rest) =>
      (if holds(condition) then Runs(body, at + 1, holds) else TailRuns(tail, at + 1 + Size(body), holds))
      + Runs(rest, at + 1 + Size(body) + TailSize(tail), holds)
  }

  function TailRuns(tail: Tail, at: nat, holds: Tokens -> bool): set<nat> {
    match tail
    case NoElse => {}
    case ElseIfArm(condition, _, _, body, more) =>
      if holds(condition) then Runs(body, at + 1, holds) else TailRuns(more, at + 1 + Size(body), holds)
    case ElseArm(_, body) => Runs(body, at + 1, holds)
  }

  /** The lines, numbered from `at`, that are calls. */
  function Calls(nodes: Nodes, at: nat): set<nat> {
    match nodes
    case Nothing => {}
    case Draw(_, rest) => {at} + Calls(rest, at + 1)
    case Empty(_, rest) => Calls(rest, at + 1)
    case Chain(_, _, _, body, tail, rest) =>
      Calls(body, at + 1) + TailCalls(tail, at + 1 + Size(body)) + Calls(rest, at + 1 + Size(body) + TailSize(tail))
  }

  function TailCalls(tail: Tail, at: nat): set<nat> {
    match tail
    case NoElse => {}
    case ElseIfArm(_, _, _, body, more) => Calls(body, at + 1) + TailCalls(more, at + 1 + Size(body))
    case ElseArm(_, body) => Calls(body, at + 1)
  }

  /** Blocks are indented; a chain with an else part starts "if " and not "if("; a blank line inside a
      chain is not indented less than the chain. */
  predicate NodesForm(nodes: Nodes, indent: nat, floor: nat) {
    match nodes
    case Nothing => true
    case Draw(text, rest) => text != [] && NodesForm(rest, indent, floor)
    case Empty(k, rest) => k >= floor && NodesForm(rest, indent, floor)
    case Chain(condition, tight, margin, body, tail, rest) =>
      && condition != [] && margin > 0
      && (tight ==> tail.NoElse?)
      && NodesForm(body, indent + margin, indent)
      && TailForm(tail, indent)
      && NodesForm(rest, indent, floor)
  }

  predicate TailForm(tail: Tail, indent: nat) {
    match tail
    case NoElse => true
    case ElseIfArm(condition, tight, margin, body, more) =>
      condition != [] && margin > 0 && NodesForm(body, indent + margin, indent) && TailForm(more, indent)
    case ElseArm(margin, body) => margin > 0 && NodesForm(body, indent + margin, indent)
  }

  lemma {:induction false} SizeAnywhere(nodes: Nodes, indent: nat)
    ensures |NodesLines(nodes, indent)| == Size(nodes)
    decreases nodes
  {
    match nodes
    case Nothing =>
    case Draw(_, rest) => SizeAnywhere(rest, indent); SizeAnywhere(rest, 0);
    case Empty(_, rest) => SizeAnywhere(rest, indent); SizeAnywhere(rest, 0);
    case Chain(_, _, margin, body, tail, rest) =>
      SizeAnywhere(rest, indent);
      SizeAnywhere(rest, 0);
      SizeAnywhere(body, indent + margin);
      SizeAnywhere(body, margin);
      TailSizeAnywhere(tail, indent);
  }

  lemma {:induction false} TailSizeAnywhere(tail: Tail, indent: nat)
    ensures |TailLines(tail, indent)| == TailSize(tail)
    decreases tail
  {
    match tail
    case NoElse =>
    case ElseIfArm(_, _, margin, body, more) =>
      SizeAnywhere(body, indent + margin);
      SizeAnywhere(body, margin);
      TailSizeAnywhere(more, indent);
    case ElseArm(margin, body) =>
      SizeAnywhere(body, indent + margin);
      SizeAnywhere(body, margin);
  }

  // ----- Looking up past deeper lines -----

  /** These lines of the script are the ones given. */
  predicate StandsAt(lines: Lines, at: nat, part: Lines) {
    at + |part| <= |lines| && lines[at..at + |part|] == part
  }

  lemma {:induction false} StandsApart(lines: Lines, at: nat, front: Lines, back: Lines)
    requires StandsAt(lines, at, front + back)
    ensures StandsAt(lines, at, front) && StandsAt(lines, at + |front|, back)
  {
    var all := lines[at..at + |front| + |back|];
    assert lines[at..at + |front|] == all[..|front|] == front;
    assert lines[at + |front|..at + |front| + |back|] == all[|front|..] == back;
  }

  /** Statements are at least this deep, blank lines at least at the floor. */
  predicate Deep(part: Lines, indent: nat, floor: nat) {
    forall k | 0 <= k < |part| :: part[k].indent >= if part[k].text == [] then floor else indent
  }

  lemma {:induction false} DeepTogether(front: Lines, back: Lines, indent: nat, floor: nat)
    requires Deep(front, indent, floor) && Deep(back, indent, floor)
    ensures Deep(front + back, indent, floor)
  {
  }

  lemma {:induction false} NodesDeep(nodes: Nodes, indent: nat, floor: nat)
    requires NodesForm(nodes, indent, floor) && floor <= indent
    ensures Deep(NodesLines(nodes, indent), indent, floor)
    decreases nodes
  {
    match nodes
    case Nothing =>
    case Draw(text, rest) =>
      NodesDeep(rest, indent, floor);
      DeepTogether([Line(indent, text, false)], NodesLines(rest, indent), indent, floor);
    case Empty(k, rest) =>
      NodesDeep(rest, indent, floor);
      DeepTogether([Line(k, [], false)], NodesLines(rest, indent), indent, floor);
    case Chain(condition, tight, margin, body, tail, rest) =>
      NodesDeep(body, indent + margin, indent);
      TailDeep(tail, indent);
      NodesDeep(rest, indent, floor);
      var head := [Line(indent, IfTokens(condition, tight), tight)];
      DeepTogether(head, NodesLines(body, indent + margin), indent, floor);
      DeepTogether(head + NodesLines(body, indent + margin), TailLines(tail, indent), indent, floor);
      DeepTogether(head + NodesLines(body, indent + margin) + TailLines(tail, indent), NodesLines(rest, indent),
                   indent, floor);
  }

  lemma {:induction false} TailDeep(tail: Tail, indent: nat)
    requires TailForm(tail, indent)
    ensures Deep(TailLines(tail, indent), indent, indent)
    decreases tail
  {
    match tail
    case NoElse =>
    case ElseIfArm(condition, tight, margin, body, more) =>
      NodesDeep(body, indent + margin, indent);
      TailDeep(more, indent);
      var head := [Line(indent, [ELSE] + IfTokens(condition, tight), tight)];
      DeepTogether(head, NodesLines(body, indent + margin), indent, indent);
      DeepTogether(head + NodesLines(body, indent + margin), TailLines(more, indent), indent, indent);
    case ElseArm(margin, body) =>
      NodesDeep(body, indent + margin, indent);
      DeepTogether([Line(indent, [ELSE], false)], NodesLines(body, indent + margin), indent, indent);
  }

  lemma {:induction false} SkipDeeper(lines: Lines, at: nat, part: Lines, indent: nat, floor: nat)
    requires StandsAt(lines, at, part) && Deep(part, indent, floor)
    ensures EnclosingConditions(lines, at + |part|, indent) == EnclosingConditions(lines, at, indent)
    decreases |part|
  {
    hide BranchPredicate;
    if |part| > 0 {
      var front, last := part[..|part| - 1], part[|part| - 1];
      assert part == front + [last];
      StandsApart(lines, at, front, [last]);
      assert lines[at + |front|] == last by {
        assert lines[at + |front|..at + |part|][0] == last;
      }
      SkipDeeper(lines, at, front, indent, floor);
      assert EnclosingLine(lines, at + |part|, indent) == EnclosingLine(lines, at + |front|, indent);
    }
  }

  lemma {:induction false} SkipBody(lines: Lines, at: nat, part: Lines, indent: nat)
    requires StandsAt(lines, at, part) && Deep(part, indent + 1, indent)
    ensures PrecedingConditions(lines, at + |part|, indent) == PrecedingConditions(lines, at, indent)
    decreases |part|
  {
    if |part| > 0 {
      var front, last := part[..|part| - 1], part[|part| - 1];
      assert part == front + [last];
      StandsApart(lines, at, front, [last]);
      assert lines[at + |front|] == last by {
        assert lines[at + |front|..at + |part|][0] == last;
      }
      SkipBody(lines, at, front, indent);
    }
  }

  // ----- Truth of guards at one bar -----

  predicate Evaluates(ts: Tokens, ctx: Context)
    requires ctx.Valid()
  {
    EvalText(ts, ctx).Some?
  }

  function Truth(ctx: Context, i: nat): Tokens -> bool
    requires ctx.Valid()
  {
    (ts: Tokens) => HoldsAt(ts, ctx, i)
  }

  predicate AllHold(texts: seq<Tokens>, ctx: Context, i: nat)
    requires ctx.Valid()
  {
    forall k | 0 <= k < |texts| :: HoldsAt(texts[k], ctx, i)
  }

  predicate NoneHold(texts: seq<Tokens>, ctx: Context, i: nat)
    requires ctx.Valid()
  {
    forall k | 0 <= k < |texts| :: !HoldsAt(texts[k], ctx, i)
  }

  predicate AllEvaluate(texts: seq<Tokens>, ctx: Context)
    requires ctx.Valid()
  {
    forall k | 0 <= k < |texts| :: Evaluates(texts[k], ctx)
  }

  predicate LiteralHolds(l: Literal, ctx: Context, i: nat)
    requires ctx.Valid()
  {
    HoldsAt(l.condition, ctx, i) != l.negated
  }

  lemma {:induction false} AndHolds(a: Value, b: Value, n: nat, i: nat)
    requires i < n
    ensures TruthyAt(Logical(a, b, And, n), i) <==> TruthyAt(a, i) && TruthyAt(b, i)
    ensures TruthyAt(LogicalNot(a, n), i) <==> !TruthyAt(a, i)
  {
  }

  lemma {:induction false} ConjunctionHolds(ls: seq<Literal>, ctx: Context, i: nat)
    requires ctx.Valid() && i < ctx.Bars() && |ls| > 0
    requires forall k | 0 <= k < |ls| :: Evaluates(ls[k].condition, ctx)
    ensures Readable(ls) && Eval(ConjunctionTree(ls), ctx).Some?
    ensures TruthyAt(Eval(ConjunctionTree(ls), ctx).value, i)
            <==> forall k | 0 <= k < |ls| :: LiteralHolds(ls[k], ctx, i)
    decreases |ls|
  {
    hide Logical, LogicalNot, Read, Apply;
    var front, last := ls[..|ls| - 1], ls[|ls| - 1];
    var v := EvalText(last.condition, ctx).value;
    assert Eval(LiteralTree(last), ctx) == Some(if last.negated then LogicalNot(v, ctx.Bars()) else v);
    AndHolds(v, v, ctx.Bars(), i);
    if |ls| > 1 {
      ConjunctionHolds(front, ctx, i);
      AndHolds(Eval(ConjunctionTree(front), ctx).value, Eval(LiteralTree(last), ctx).value, ctx.Bars(), i);
      assert forall k | 0 <= k < |ls| - 1 :: front[k] == ls[k];
    }
  }

  lemma {:induction false} ConjunctionTextHolds(ls: seq<Literal>, ctx: Context, i: nat)
    requires ctx.Valid() && i < ctx.Bars() && |ls| > 0
    requires forall k | 0 <= k < |ls| :: Evaluates(ls[k].condition, ctx)
    ensures Evaluates(ConjunctionText(ls), ctx)
    ensures HoldsAt(ConjunctionText(ls), ctx, i) <==> forall k | 0 <= k < |ls| :: LiteralHolds(ls[k], ctx, i)
  {
    hide ConjunctionText, ConjunctionTree, Eval, Read;
    ConjunctionHolds(ls, ctx, i);
    ConjunctionReads(ls);
  }

  /** The demand of an else-if arm: its own condition, and none of the earlier ones. */
  lemma {:induction false} ElseIfDemand(parents: seq<Tokens>, condition: Tokens, ctx: Context, i: nat)
    requires ctx.Valid() && i < ctx.Bars() && AllEvaluate(parents, ctx) && Evaluates(condition, ctx)
    ensures var text := ConjunctionText(Negated(parents) + [Literal(false, condition)]);
            Evaluates(text, ctx) && (HoldsAt(text, ctx, i) <==> NoneHold(parents, ctx, i) && HoldsAt(condition, ctx, i))
  {
    hide ConjunctionText, HoldsAt, Evaluates;
    var ls := Negated(parents) + [Literal(false, condition)];
    ConjunctionTextHolds(ls, ctx, i);
    assert forall k | 0 <= k < |parents| :: ls[k] == Literal(true, parents[k]);
    assert ls[|parents|] == Literal(false, condition);
    if HoldsAt(ConjunctionText(ls), ctx, i) {
      assert LiteralHolds(ls[|parents|], ctx, i);
      forall k | 0 <= k < |parents|
        ensures !HoldsAt(parents[k], ctx, i)
      {
        assert LiteralHolds(ls[k], ctx, i);
      }
    }
  }

  lemma {:induction false} ElseDemand(parents: seq<Tokens>, ctx: Context, i: nat)
    requires ctx.Valid() && i < ctx.Bars() && AllEvaluate(parents, ctx) && |parents| > 0
    ensures var text := ConjunctionText(Negated(parents));
            Evaluates(text, ctx) && (HoldsAt(text, ctx, i) <==> NoneHold(parents, ctx, i))
  {
    hide ConjunctionText, HoldsAt, Evaluates;
    var ls := Negated(parents);
    ConjunctionTextHolds(ls, ctx, i);
    if HoldsAt(ConjunctionText(ls), ctx, i) {
      forall k | 0 <= k < |parents|
        ensures !HoldsAt(parents[k], ctx, i)
      {
        assert LiteralHolds(ls[k], ctx, i);
      }
    }
  }

  // ----- The guard is the path -----

  /** What the script demands of line j. */
  function Demands(lines: Lines, j: nat): seq<Tokens>
    requires j < |lines|
  {
    EnclosingConditions(lines, j, lines[j].indent)
  }

  /** Beyond the demands `outer`, line j is guarded by exactly what `runs` says. */
  ghost predicate Exact(lines: Lines, j: nat, outer: seq<Tokens>, runs: bool, ctx: Context, i: nat)
    requires ctx.Valid()
  {
    && j < |lines|
    && outer <= Demands(lines, j)
    && AllEvaluate(Demands(lines, j)[|outer|..], ctx)
    && (runs <==> AllHold(Demands(lines, j)[|outer|..], ctx, i))
  }

  /** Every line of `calls` is guarded by `under` together with being among `runs`. */
  ghost predicate AllExact(lines: Lines, calls: set<nat>, under: bool, runs: set<nat>, outer: seq<Tokens>,
          ctx: Context, i: nat)
    requires ctx.Valid()
  {
    forall j | j in calls :: Exact(lines, j, outer, under && j in runs, ctx, i)
  }

  predicate ConditionsEvaluate(nodes: Nodes, ctx: Context)
    requires ctx.Valid()
  {
    match nodes
    case Nothing => true
    case Draw(_, rest) => ConditionsEvaluate(rest, ctx)
    case Empty(_, rest) => ConditionsEvaluate(rest, ctx)
    case Chain(condition, _, _, body, tail, rest) =>
      Evaluates(condition, ctx) && ConditionsEvaluate(body, ctx) && TailEvaluates(tail, ctx)
        && ConditionsEvaluate(rest, ctx)
  }

  predicate TailEvaluates(tail: Tail, ctx: Context)
    requires ctx.Valid()
  {
    match tail
    case NoElse => true
    case ElseIfArm(condition, _, _, body, more) =>
      Evaluates(condition, ctx) && ConditionsEvaluate(body, ctx) && TailEvaluates(more, ctx)
    case ElseArm(_, body) => ConditionsEvaluate(body, ctx)
  }

  lemma {:induction false} CallsInRange(nodes: Nodes, at: nat, holds: Tokens -> bool)
    ensures Runs(nodes, at, holds) <= Calls(nodes, at)
    ensures forall j | j in Calls(nodes, at) :: at <= j < at + Size(nodes)
    decreases nodes
  {
    match nodes
    case Nothing =>
    case Draw(_, rest) => CallsInRange(rest, at + 1, holds);
    case Empty(_, rest) => CallsInRange(rest, at + 1, holds);
    case Chain(_, _, margin, body, tail, rest) =>
      CallsInRange(body, at + 1, holds);
      TailCallsInRange(tail, at + 1 + Size(body), holds);
      CallsInRange(rest, at + 1 + Size(body) + TailSize(tail), holds);
      SizeAnywhere(body, margin);
  }

  lemma {:induction false} TailCallsInRange(tail: Tail, at: nat, holds: Tokens -> bool)
    ensures TailRuns(tail, at, holds) <= TailCalls(tail, at)
    ensures forall j | j in TailCalls(tail, at) :: at <= j < at + TailSize(tail)
    decreases tail
  {
    match tail
    case NoElse =>
    case ElseIfArm(_, _, margin, body, more) =>
      CallsInRange(body, at + 1, holds);
      TailCallsInRange(more, at + 1 + Size(body), holds);
      SizeAnywhere(body, margin);
    case ElseArm(margin, body) =>
      CallsInRange(body, at + 1, holds);
      SizeAnywhere(body, margin);
  }

  /** Inside a block opened at line h the demands are the outer ones and the block's own. */
  lemma {:induction false} BlockDemands(lines: Lines, h: nat, indent: nat)
    requires h < |lines| && lines[h].text != [] && lines[h].indent < indent && BranchPredicate(lines, h) != []
    ensures EnclosingConditions(lines, h + 1, indent)
            == EnclosingConditions(lines, h, lines[h].indent) + [BranchPredicate(lines, h)]
  {
  }

  /** One more demand narrows what runs. */
  lemma {:induction false} Narrow(lines: Lines, j: nat, outer: seq<Tokens>, demand: Tokens, runs: bool, ctx: Context,
          i: nat)
    requires ctx.Valid() && Evaluates(demand, ctx)
    requires Exact(lines, j, outer + [demand], runs, ctx, i)
    ensures Exact(lines, j, outer, HoldsAt(demand, ctx, i) && runs, ctx, i)
  {
    hide HoldsAt, Evaluates, Demands;
    var d := Demands(lines, j);
    var inner, more := d[|outer| + 1..], d[|outer|..];
    assert outer <= outer + [demand] <= d;
    assert more == [demand] + inner by {
      assert d[|outer|] == (outer + [demand])[|outer|] == demand;
    }
    assert forall k | 0 <= k < |inner| :: inner[k] == more[k + 1];
    assert more[0] == demand;
    if AllHold(more, ctx, i) {
      assert HoldsAt(more[0], ctx, i);
      forall k | 0 <= k < |inner|
        ensures HoldsAt(inner[k], ctx, i)
      {
        assert HoldsAt(more[k + 1], ctx, i);
      }
    }
  }

  lemma {:induction false} NarrowAll(lines: Lines, calls: set<nat>, runs: set<nat>, outer: seq<Tokens>, demand: Tokens,
          ctx: Context, i: nat)
    requires ctx.Valid() && Evaluates(demand, ctx) && AllExact(lines, calls, true, runs, outer + [demand], ctx, i)
    ensures AllExact(lines, calls, HoldsAt(demand, ctx, i), runs, outer, ctx, i)
  {
    hide Exact, HoldsAt, Evaluates;
    forall j | j in calls
      ensures Exact(lines, j, outer, HoldsAt(demand, ctx, i) && j in runs, ctx, i)
    {
      Narrow(lines, j, outer, demand, j in runs, ctx, i);
    }
  }

  lemma {:induction false} GuardsArePaths(nodes: Nodes, lines: Lines, at: nat, indent: nat, floor: nat,
          outer: seq<Tokens>, ctx: Context, i: nat)
    requires ctx.Valid() && i < ctx.Bars() && ConditionsEvaluate(nodes, ctx)
    requires NodesForm(nodes, indent, floor) && floor <= indent && StandsAt(lines, at, NodesLines(nodes, indent))
    requires EnclosingConditions(lines, at, indent) == outer
    ensures AllExact(lines, Calls(nodes, at), true, Runs(nodes, at, Truth(ctx, i)), outer, ctx, i)
    decreases nodes, 1
  {
    hide EnclosingConditions, Exact, Deep, Truth, StandsAt, ConditionsEvaluate;
    match nodes
    case Nothing =>
    case Draw(text, rest) =>
      DrawStands(nodes, lines, at, indent, floor, ctx);
      GuardsArePaths(rest, lines, at + 1, indent, floor, outer, ctx, i);
      OwnDemands(lines, at, outer, ctx, i);
      PlainTogether(nodes, lines, at, outer, ctx, i);
    case Empty(k, rest) =>
      DrawStands(nodes, lines, at, indent, floor, ctx);
      GuardsArePaths(rest, lines, at + 1, indent, floor, outer, ctx, i);
      PlainTogether(nodes, lines, at, outer, ctx, i);
    case Chain(condition, tight, margin, body, tail, rest) =>
      ChainStands(nodes, lines, at, indent);
      var next := at + 1 + Size(body) + TailSize(tail);
      ChainGuards(nodes, lines, at, indent, floor, outer, ctx, i);
      SkipChain(nodes, lines, at, indent, floor);
      RestEvaluates(nodes, ctx);
      GuardsArePaths(rest, lines, next, indent, floor, outer, ctx, i);
      ChainTogether(nodes, lines, at, outer, ctx, i);
  }

  lemma {:induction false} RestEvaluates(nodes: Nodes, ctx: Context)
    requires !nodes.Nothing? && ctx.Valid() && ConditionsEvaluate(nodes, ctx)
    ensures ConditionsEvaluate(nodes.rest, ctx)
  {
  }

  lemma {:induction false} DrawStands(nodes: Nodes, lines: Lines, at: nat, indent: nat, floor: nat, ctx: Context)
    requires (nodes.Draw? || nodes.Empty?) && ctx.Valid() && ConditionsEvaluate(nodes, ctx)
    requires NodesForm(nodes, indent, floor) && floor <= indent && StandsAt(lines, at, NodesLines(nodes, indent))
    ensures ConditionsEvaluate(nodes.rest, ctx) && NodesForm(nodes.rest, indent, floor)
    ensures at < |lines| && StandsAt(lines, at + 1, NodesLines(nodes.rest, indent))
    ensures nodes.Draw? ==> lines[at].indent == indent
    ensures EnclosingConditions(lines, at + 1, indent) == EnclosingConditions(lines, at, indent)
  {
    hide EnclosingConditions;
    match nodes
    case Draw(text, rest) => OneLine(lines, at, Line(indent, text, false), NodesLines(rest, indent), indent);
    case Empty(k, rest) => BlankLine(lines, at, k, NodesLines(rest, indent), indent);
  }

  /** A call, or no call, before the rest. */
  lemma {:induction false} PlainTogether(nodes: Nodes, lines: Lines, at: nat, outer: seq<Tokens>, ctx: Context, i: nat)
    requires (nodes.Draw? || nodes.Empty?) && ctx.Valid()
    requires AllExact(lines, Calls(nodes.rest, at + 1), true, Runs(nodes.rest, at + 1, Truth(ctx, i)), outer, ctx, i)
    requires nodes.Draw? ==> Exact(lines, at, outer, true, ctx, i)
    ensures AllExact(lines, Calls(nodes, at), true, Runs(nodes, at, Truth(ctx, i)), outer, ctx, i)
  {
    hide Exact, HoldsAt, Truth;
    CallsInRange(nodes.rest, at + 1, Truth(ctx, i));
  }

  /** Lines of different parts of a chain are different lines. */
  lemma {:induction false} ChainTogether(nodes: Nodes, lines: Lines, at: nat, outer: seq<Tokens>, ctx: Context, i: nat)
    requires nodes.Chain? && ctx.Valid()
    requires AllExact(lines, Calls(nodes.body, at + 1), HoldsAt(nodes.condition, ctx, i),
                      Runs(nodes.body, at + 1, Truth(ctx, i)), outer, ctx, i)
    requires var t := at + 1 + Size(nodes.body);
             AllExact(lines, TailCalls(nodes.tail, t), !HoldsAt(nodes.condition, ctx, i),
                      TailRuns(nodes.tail, t, Truth(ctx, i)), outer, ctx, i)
    requires var next := at + 1 + Size(nodes.body) + TailSize(nodes.tail);
             AllExact(lines, Calls(nodes.rest, next), true, Runs(nodes.rest, next, Truth(ctx, i)), outer, ctx, i)
    ensures AllExact(lines, Calls(nodes, at), true, Runs(nodes, at, Truth(ctx, i)), outer, ctx, i)
  {
    hide Exact, HoldsAt, Size, TailSize;
    var holds := Truth(ctx, i);
    CallsInRange(nodes.body, at + 1, holds);
    TailCallsInRange(nodes.tail, at + 1 + Size(nodes.body), holds);
    CallsInRange(nodes.rest, at + 1 + Size(nodes.body) + TailSize(nodes.tail), holds);
    forall j | j in Calls(nodes, at)
      ensures Exact(lines, j, outer, j in Runs(nodes, at, holds), ctx, i)
    {
    }
  }

  lemma {:induction false} OneLine(lines: Lines, at: nat, line: Line, rest: Lines, indent: nat)
    requires StandsAt(lines, at, [line] + rest) && line.indent >= indent
    ensures lines[at] == line && StandsAt(lines, at + 1, rest)
    ensures EnclosingConditions(lines, at + 1, indent) == EnclosingConditions(lines, at, indent)
  {
  }

  lemma {:induction false} BlankLine(lines: Lines, at: nat, k: nat, rest: Lines, indent: nat)
    requires StandsAt(lines, at, [Line(k, [], false)] + rest)
    ensures StandsAt(lines, at + 1, rest)
    ensures EnclosingConditions(lines, at + 1, indent) == EnclosingConditions(lines, at, indent)
  {
    StandsApart(lines, at, [Line(k, [], false)], rest);
    SkipDeeper(lines, at, [Line(k, [], false)], indent, 0);
  }

  lemma {:induction false} OwnDemands(lines: Lines, at: nat, outer: seq<Tokens>, ctx: Context, i: nat)
    requires ctx.Valid() && at < |lines| && EnclosingConditions(lines, at, lines[at].indent) == outer
    ensures Exact(lines, at, outer, true, ctx, i)
  {
  }

  lemma {:induction false} ChainStands(nodes: Nodes, lines: Lines, at: nat, indent: nat)
    requires nodes.Chain? && StandsAt(lines, at, NodesLines(nodes, indent))
    ensures at < |lines| && lines[at] == Line(indent, IfTokens(nodes.condition, nodes.tight), nodes.tight)
    ensures StandsAt(lines, at + 1, NodesLines(nodes.body, indent + nodes.margin))
    ensures StandsAt(lines, at + 1 + Size(nodes.body), TailLines(nodes.tail, indent))
    ensures StandsAt(lines, at + 1 + Size(nodes.body) + TailSize(nodes.tail), NodesLines(nodes.rest, indent))
  {
    hide NodesLines, TailLines, IfTokens;
    var head := Line(indent, IfTokens(nodes.condition, nodes.tight), nodes.tight);
    var body, tail, rest := NodesLines(nodes.body, indent + nodes.margin), TailLines(nodes.tail, indent),
        NodesLines(nodes.rest, indent);
    SizeAnywhere(nodes.body, indent + nodes.margin);
    TailSizeAnywhere(nodes.tail, indent);
    ChainLines(nodes, indent);
    assert [head] + body + (tail + rest) == [head] + body + tail + rest;
    ArmStands(lines, at, head, body, tail + rest);
    StandsApart(lines, at + 1 + |body|, tail, rest);
  }

  lemma {:induction false} ChainLines(nodes: Nodes, indent: nat)
    requires nodes.Chain?
    ensures NodesLines(nodes, indent)
            == [Line(indent, IfTokens(nodes.condition, nodes.tight), nodes.tight)]
              + NodesLines(nodes.body, indent + nodes.margin)
               + TailLines(nodes.tail, indent) + NodesLines(nodes.rest, indent)
  {
  }

  lemma {:induction false} SkipChain(nodes: Nodes, lines: Lines, at: nat, indent: nat, floor: nat)
    requires nodes.Chain? && NodesForm(nodes, indent, floor) && floor <= indent
             && StandsAt(lines, at, NodesLines(nodes, indent))
    ensures at + 1 + Size(nodes.body) + TailSize(nodes.tail) <= |lines|
    ensures EnclosingConditions(lines, at + 1 + Size(nodes.body) + TailSize(nodes.tail), indent)
            == EnclosingConditions(lines, at, indent)
  {
    hide EnclosingConditions, NodesLines, TailLines, Size, TailSize;
    ChainStands(nodes, lines, at, indent);
    SizeAnywhere(nodes.body, indent + nodes.margin);
    TailSizeAnywhere(nodes.tail, indent);
    NodesDeep(nodes.body, indent + nodes.margin, indent);
    TailDeep(nodes.tail, indent);
    var body := NodesLines(nodes.body, indent + nodes.margin);
    assert Deep(body, indent, indent);
    assert StandsAt(lines, at, [lines[at]]);
    SkipDeeper(lines, at, [lines[at]], indent, indent);
    SkipDeeper(lines, at + 1, body, indent, indent);
    SkipDeeper(lines, at + 1 + |body|, TailLines(nodes.tail, indent), indent, indent);
  }

  lemma {:induction false} HeadPredicate(lines: Lines, h: nat, condition: Tokens, tight: bool)
    requires h < |lines| && lines[h].text == IfTokens(condition, tight) && lines[h].tight == tight
    ensures BranchPredicate(lines, h) == condition
  {
    BranchConditionOf(condition, tight);
  }

  lemma {:induction false} BranchConditionOf(condition: Tokens, tight: bool)
    ensures BranchCondition(IfTokens(condition, tight), tight) == condition
  {
  }

  lemma {:induction false} ConjunctionNotEmpty(ls: seq<Literal>)
    requires |ls| > 0
    ensures ConjunctionText(ls) != []
  {
  }

  /** The guards inside one chain: its first arm, then its else part. */
  lemma {:induction false} ChainGuards(nodes: Nodes, lines: Lines, at: nat, indent: nat, floor: nat,
          outer: seq<Tokens>, ctx: Context, i: nat)
    requires nodes.Chain? && ctx.Valid() && i < ctx.Bars() && ConditionsEvaluate(nodes, ctx)
    requires NodesForm(nodes, indent, floor) && StandsAt(lines, at, NodesLines(nodes, indent))
    requires EnclosingConditions(lines, at, indent) == outer
    ensures AllExact(lines, Calls(nodes.body, at + 1), HoldsAt(nodes.condition, ctx, i),
                     Runs(nodes.body, at + 1, Truth(ctx, i)), outer, ctx, i)
    ensures var t := at + 1 + Size(nodes.body);
            AllExact(lines, TailCalls(nodes.tail, t), !HoldsAt(nodes.condition, ctx, i),
                     TailRuns(nodes.tail, t, Truth(ctx, i)), outer, ctx, i)
    decreases nodes, 0
  {
    hide EnclosingConditions, Exact, HoldsAt, Runs, TailRuns, Evaluates, BranchPredicate, Deep, NodesLines, TailLines,
         PrecedingConditions;
    var condition, body, tail := nodes.condition, nodes.body, nodes.tail;
    ChainStands(nodes, lines, at, indent);
    HeadPredicate(lines, at, condition, nodes.tight);
    BlockDemands(lines, at, indent + nodes.margin);
    GuardsArePaths(body, lines, at + 1, indent + nodes.margin, indent, outer + [condition], ctx, i);
    NarrowAll(lines, Calls(body, at + 1), Runs(body, at + 1, Truth(ctx, i)), outer, condition, ctx, i);
    if !tail.NoElse? {
      SizeAnywhere(body, indent + nodes.margin);
      HeadCondition(lines, at, condition, indent);
      AfterBlock(lines, at, body, indent, nodes.margin);
      assert AllEvaluate([condition], ctx);
      TailGuards(tail, lines, at + 1 + Size(body), indent, outer, [condition], ctx, i);
      NoneHoldSnoc([], condition, ctx, i);
    }
  }

  lemma {:induction false} HeadCondition(lines: Lines, h: nat, condition: Tokens, indent: nat)
    requires h < |lines| && lines[h] == Line(indent, IfTokens(condition, false), false)
    ensures PrecedingConditions(lines, h + 1, indent) == [condition]
  {
  }

  lemma {:induction false} ArmCondition(lines: Lines, h: nat, condition: Tokens, tight: bool, indent: nat)
    requires h < |lines| && lines[h] == Line(indent, [ELSE] + IfTokens(condition, tight), tight) && condition != []
    ensures PrecedingConditions(lines, h + 1, indent) == PrecedingConditions(lines, h, indent) + [condition]
  {
    assert ([ELSE] + IfTokens(condition, tight))[1..] == IfTokens(condition, tight);
    BranchConditionOf(condition, tight);
  }

  /** Past a block both searches see what they saw at the line that opened it. */
  lemma {:induction false} AfterBlock(lines: Lines, h: nat, body: Nodes, indent: nat, margin: nat)
    requires margin > 0 && NodesForm(body, indent + margin, indent)
    requires h < |lines| && lines[h].indent == indent && StandsAt(lines, h + 1, NodesLines(body, indent + margin))
    ensures h + 1 + Size(body) <= |lines|
    ensures EnclosingConditions(lines, h + 1 + Size(body), indent) == EnclosingConditions(lines, h, indent)
    ensures PrecedingConditions(lines, h + 1 + Size(body), indent) == PrecedingConditions(lines, h + 1, indent)
  {
    hide EnclosingConditions, PrecedingConditions;
    var part := NodesLines(body, indent + margin);
    SizeAnywhere(body, indent + margin);
    NodesDeep(body, indent + margin, indent);
    assert Deep(part, indent, indent) && Deep(part, indent + 1, indent);
    SkipBody(lines, h + 1, part, indent);
    assert StandsAt(lines, h, [lines[h]]);
    SkipDeeper(lines, h, [lines[h]], indent, indent);
    SkipDeeper(lines, h + 1, part, indent, indent);
  }

  lemma {:induction false} ArmStands(lines: Lines, at: nat, line: Line, body: Lines, more: Lines)
    requires StandsAt(lines, at, [line] + body + more)
    ensures at < |lines| && lines[at] == line
    ensures StandsAt(lines, at + 1, body) && StandsAt(lines, at + 1 + |body|, more)
  {
    assert [line] + body + more == [line] + (body + more);
    StandsApart(lines, at, [line], body + more);
    StandsApart(lines, at + 1, body, more);
    assert lines[at] == lines[at..at + 1][0];
  }

  lemma {:induction false} ArmPredicate(lines: Lines, h: nat, condition: Tokens, tight: bool)
    requires h < |lines| && lines[h].text == [ELSE] + IfTokens(condition, tight) && lines[h].tight == tight
             && condition != []
    ensures BranchPredicate(lines, h)
            == ConjunctionText(Negated(PrecedingConditions(lines, h, lines[h].indent)) + [Literal(false, condition)])
  {
    assert lines[h].text[1..] == IfTokens(condition, tight);
    BranchConditionOf(condition, tight);
  }

  lemma {:induction false} ElsePredicate(lines: Lines, h: nat)
    requires h < |lines| && lines[h].text == [ELSE]
    ensures BranchPredicate(lines, h) == ConjunctionText(Negated(PrecedingConditions(lines, h, lines[h].indent)))
  {
  }

  lemma {:induction false} NoneHoldSnoc(parents: seq<Tokens>, condition: Tokens, ctx: Context, i: nat)
    requires ctx.Valid()
    ensures NoneHold(parents + [condition], ctx, i) <==> NoneHold(parents, ctx, i) && !HoldsAt(condition, ctx, i)
    ensures NoneHold([condition], ctx, i) <==> !HoldsAt(condition, ctx, i)
  {
    hide HoldsAt;
    var all := parents + [condition];
    assert all[|parents|] == condition && forall k | 0 <= k < |parents| :: all[k] == parents[k];
    assert [condition][0] == condition;
  }

  lemma {:induction false} TailGuards(tail: Tail, lines: Lines, at: nat, indent: nat, outer: seq<Tokens>,
          parents: seq<Tokens>, ctx: Context, i: nat)
    requires ctx.Valid() && i < ctx.Bars() && TailEvaluates(tail, ctx)
    requires TailForm(tail, indent) && StandsAt(lines, at, TailLines(tail, indent))
    requires |parents| > 0 && AllEvaluate(parents, ctx)
    requires PrecedingConditions(lines, at, indent) == parents && EnclosingConditions(lines, at, indent) == outer
    ensures AllExact(lines, TailCalls(tail, at), NoneHold(parents, ctx, i), TailRuns(tail, at, Truth(ctx, i)), outer,
                     ctx, i)
    decreases tail, 1
  {
    match tail
    case NoElse =>
    case ElseIfArm(condition, tight, margin, body, more) =>
      ElseIfGuards(tail, lines, at, indent, outer, parents, ctx, i);
    case ElseArm(margin, body) =>
      ElseGuards(tail, lines, at, indent, outer, parents, ctx, i);
  }

  lemma {:induction false} ElseGuards(tail: Tail, lines: Lines, at: nat, indent: nat, outer: seq<Tokens>,
          parents: seq<Tokens>, ctx: Context, i: nat)
    requires tail.ElseArm? && ctx.Valid() && i < ctx.Bars() && TailEvaluates(tail, ctx)
    requires TailForm(tail, indent) && StandsAt(lines, at, TailLines(tail, indent))
    requires |parents| > 0 && AllEvaluate(parents, ctx)
    requires PrecedingConditions(lines, at, indent) == parents && EnclosingConditions(lines, at, indent) == outer
    ensures AllExact(lines, TailCalls(tail, at), NoneHold(parents, ctx, i), TailRuns(tail, at, Truth(ctx, i)), outer,
                     ctx, i)
    decreases tail, 0
  {
    hide EnclosingConditions, PrecedingConditions, Exact, HoldsAt, Evaluates, BranchPredicate, NodesLines, Runs, Calls,
         ConjunctionText;
    var body := tail.body;
    var part := NodesLines(body, indent + tail.margin);
    assert [Line(indent, [ELSE], false)] + part + [] == TailLines(tail, indent);
    ArmStands(lines, at, Line(indent, [ELSE], false), part, []);
    ElsePredicate(lines, at);
    var demand := BranchPredicate(lines, at);
    ElseDemand(parents, ctx, i);
    ConjunctionNotEmpty(Negated(parents));
    BlockDemands(lines, at, indent + tail.margin);
    GuardsArePaths(body, lines, at + 1, indent + tail.margin, indent, outer + [demand], ctx, i);
    NarrowAll(lines, Calls(body, at + 1), Runs(body, at + 1, Truth(ctx, i)), outer, demand, ctx, i);
  }

  lemma {:induction false} ElseIfGuards(tail: Tail, lines: Lines, at: nat, indent: nat, outer: seq<Tokens>,
          parents: seq<Tokens>, ctx: Context, i: nat)
    requires tail.ElseIfArm? && ctx.Valid() && i < ctx.Bars() && TailEvaluates(tail, ctx)
    requires TailForm(tail, indent) && StandsAt(lines, at, TailLines(tail, indent))
    requires |parents| > 0 && AllEvaluate(parents, ctx)
    requires PrecedingConditions(lines, at, indent) == parents && EnclosingConditions(lines, at, indent) == outer
    ensures AllExact(lines, TailCalls(tail, at), NoneHold(parents, ctx, i), TailRuns(tail, at, Truth(ctx, i)), outer,
                     ctx, i)
    decreases tail, 0
  {
    hide EnclosingConditions, PrecedingConditions, Exact, HoldsAt, Evaluates, BranchPredicate, NodesLines, Runs, Calls,
         ConjunctionText, NoneHold;
    var condition, body, more := tail.condition, tail.body, tail.tail;
    var line := Line(indent, [ELSE] + IfTokens(condition, tail.tight), tail.tight);
    var part := NodesLines(body, indent + tail.margin);
    assert [line] + part + TailLines(more, indent) == TailLines(tail, indent);
    ArmStands(lines, at, line, part, TailLines(more, indent));
    SizeAnywhere(body, indent + tail.margin);
    ArmPredicate(lines, at, condition, tail.tight);
    var demand := BranchPredicate(lines, at);
    ElseIfDemand(parents, condition, ctx, i);
    ConjunctionNotEmpty(Negated(parents) + [Literal(false, condition)]);
    BlockDemands(lines, at, indent + tail.margin);
    GuardsArePaths(body, lines, at + 1, indent + tail.margin, indent, outer + [demand], ctx, i);
    var holds := Truth(ctx, i);
    CallsInRange(body, at + 1, holds);
    TailCallsInRange(more, at + 1 + Size(body), holds);
    NarrowAll(lines, Calls(body, at + 1), Runs(body, at + 1, holds), outer, demand, ctx, i);
    ArmCondition(lines, at, condition, tail.tight, indent);
    AfterBlock(lines, at, body, indent, tail.margin);
    assert AllEvaluate(parents + [condition], ctx);
    TailGuards(more, lines, at + 1 + Size(body), indent, outer, parents + [condition], ctx, i);
    NoneHoldSnoc(parents, condition, ctx, i);
  }

  // ----- The theorem for a whole script -----

  predicate Guarded(lines: Lines, j: nat, ctx: Context, i: nat)
    requires j < |lines| && ctx.Valid()
  {
    GuardText(lines, j) == [] || HoldsAt(GuardText(lines, j), ctx, i)
  }

  /** The guard of any line is the conjunction of its demands; no guard means always. */
  lemma {:induction false} GuardMeans(lines: Lines, j: nat, ctx: Context, i: nat)
    requires j < |lines| && ctx.Valid() && i < ctx.Bars() && AllEvaluate(Demands(lines, j), ctx)
    ensures GuardText(lines, j) != [] ==> Evaluates(GuardText(lines, j), ctx)
    ensures Guarded(lines, j, ctx, i) <==> AllHold(Demands(lines, j), ctx, i)
  {
    hide HoldsAt, Evaluates, ConjunctionText, EnclosingConditions;
    var d := Demands(lines, j);
    var ls := Wrapped(d);
    if d == [] {
      NoLiterals(ls);
    } else {
      ConjunctionNotEmpty(ls);
      ConjunctionTextHolds(ls, ctx, i);
      forall k | 0 <= k < |d|
        ensures LiteralHolds(ls[k], ctx, i) <==> HoldsAt(d[k], ctx, i)
      {
      }
    }
  }

  lemma {:induction false} AllSplit(outer: seq<Tokens>, all: seq<Tokens>, ctx: Context, i: nat)
    requires ctx.Valid() && outer <= all
    ensures AllHold(all, ctx, i) <==> AllHold(outer, ctx, i) && AllHold(all[|outer|..], ctx, i)
    ensures AllEvaluate(all, ctx) <==> AllEvaluate(outer, ctx) && AllEvaluate(all[|outer|..], ctx)
  {
    hide HoldsAt, Evaluates;
    assert forall k | 0 <= k < |outer| :: outer[k] == all[k];
    assert forall k | |outer| <= k < |all| :: all[k] == all[|outer|..][k - |outer|];
  }

  /** The guard of a call in a block at any place of a script holds at a bar exactly when the conditions around the
      block hold and control flow inside it reaches the call. */
  lemma {:induction false} GuardWithin(nodes: Nodes, lines: Lines, at: nat, indent: nat, floor: nat,
          outer: seq<Tokens>, ctx: Context, i: nat, j: nat)
    requires ctx.Valid() && i < ctx.Bars() && ConditionsEvaluate(nodes, ctx) && AllEvaluate(outer, ctx)
    requires NodesForm(nodes, indent, floor) && floor <= indent && StandsAt(lines, at, NodesLines(nodes, indent))
    requires EnclosingConditions(lines, at, indent) == outer && j in Calls(nodes, at)
    ensures j < |lines| && (GuardText(lines, j) != [] ==> Evaluates(GuardText(lines, j), ctx))
    ensures Guarded(lines, j, ctx, i) <==> AllHold(outer, ctx, i) && j in Runs(nodes, at, Truth(ctx, i))
  {
    hide HoldsAt, Evaluates, EnclosingConditions, Runs, Calls, GuardText;
    GuardsArePaths(nodes, lines, at, indent, floor, outer, ctx, i);
    assert Exact(lines, j, outer, j in Runs(nodes, at, Truth(ctx, i)), ctx, i);
    AllSplit(outer, Demands(lines, j), ctx, i);
    GuardMeans(lines, j, ctx, i);
  }

  /** The guard of a call holds at a bar exactly when control flow reaches the call at that bar; no
      guard means always. */
  lemma {:induction false} GuardIsThePath(nodes: Nodes, ctx: Context, i: nat, j: nat)
    requires ctx.Valid() && i < ctx.Bars() && ConditionsEvaluate(nodes, ctx)
    requires NodesForm(nodes, 0, 0) && j in Calls(nodes, 0)
    ensures j < |NodesLines(nodes, 0)|
    ensures var guard := GuardText(NodesLines(nodes, 0), j);
            && (guard != [] ==> Evaluates(guard, ctx))
            && (j in Runs(nodes, 0, Truth(ctx, i)) <==> guard == [] || HoldsAt(guard, ctx, i))
  {
    hide HoldsAt, Evaluates, GuardText, EnclosingConditions, Runs, Calls;
    var lines := NodesLines(nodes, 0);
    assert StandsAt(lines, 0, lines) by {
      assert lines[0..|lines|] == lines;
    }
    NothingAbove(lines);
    GuardWithin(nodes, lines, 0, 0, 0, [], ctx, i, j);
  }

  lemma {:induction false} NoLiterals(ls: seq<Literal>)
    requires ls == []
    ensures ConjunctionText(ls) == []
  {
  }

  lemma {:induction false} NothingAbove(lines: Lines)
    ensures EnclosingConditions(lines, 0, 0) == []
  {
  }

  /** The bars at which a call draws.  A call that keeps its object (`var`) draws at the first of them only. */
  method ObjectCreationIndices(lines: Lines, j: nat, persistent: bool, ctx: Context) returns (starts: seq<nat>)
    requires j < |lines| && ctx.Valid()
    ensures !persistent ==> forall i: nat :: i in starts <==>
              i < ctx.Bars() && (GuardText(lines, j) == [] || HoldsAt(GuardText(lines, j), ctx, i))
    ensures persistent ==> |starts| <= 1
    ensures persistent && GuardText(lines, j) != [] ==>
              if exists i: nat :: i < ctx.Bars() && HoldsAt(GuardText(lines, j), ctx, i)
              then |starts| == 1 && starts[0] < ctx.Bars() && HoldsAt(GuardText(lines, j), ctx, starts[0])
                   && forall i: nat | i < starts[0] :: !HoldsAt(GuardText(lines, j), ctx, i)
              else starts == []
    ensures persistent && GuardText(lines, j) == [] ==> starts == [0]
  {
    hide GuardText, EvalText;
    var guard := EnclosingIfCondition(lines, j);
    starts := [];
    if guard == [] {
      if persistent {
        return [0];
      }
      for i := 0 to ctx.Bars()
        invariant forall k: nat :: k in starts <==> k < i
      {
        starts := starts + [i];
      }
      return;
    }
    var value := EvalText(guard, ctx);
    if value.Some? {
      for i := 0 to ctx.Bars()
        invariant forall k: nat :: k in starts <==> k < i && HoldsAt(guard, ctx, k)
        invariant |starts| > 0 ==> starts[0] < i && HoldsAt(guard, ctx, starts[0]) && forall k: nat | k < starts[0] ::
                  !HoldsAt(guard, ctx, k)
      {
        if TruthyAt(value.value, i) {
          starts := starts + [i];
        }
      }
    }
    if persistent && |starts| > 1 {
      starts := starts[..1];
    }
    if starts == [] {
      assert forall k: nat :: k < ctx.Bars() ==> !HoldsAt(guard, ctx, k) by {
        assert forall k: nat :: k in starts <==> false;
      }
    }
  }

  // ----- Where guard and path part -----

  predicate NoHeads(part: Lines, indent: nat) {
    forall k | 0 <= k < |part| && part[k].indent == indent :: !StartsIf(part[k].text) || part[k].tight
  }

  /** One of the first n lines is indented less. */
  predicate Shallow(part: Lines, n: nat, indent: nat)
    requires n <= |part|
  {
    exists k | 0 <= k < n :: part[k].indent < indent
  }

  /** Past lines without a chain of their own, the search finds their arms, and what it found before them unless
      one of them is indented less. */
  lemma {:induction false} StretchConditions(lines: Lines, at: nat, part: Lines, n: nat, indent: nat)
    requires StandsAt(lines, at, part) && NoHeads(part, indent) && n <= |part|
    ensures PrecedingConditions(lines, at + n, indent)
            == (if Shallow(part, n, indent) then [] else PrecedingConditions(lines, at, indent))
              + PrecedingConditions(part, n, indent)
    decreases n
  {
    hide BranchCondition;
    if n > 0 {
      StretchConditions(lines, at, part, n - 1, indent);
      assert lines[at + n - 1] == part[n - 1] by {
        assert lines[at..at + |part|][n - 1] == part[n - 1];
      }
      if part[n - 1].indent < indent {
        assert Shallow(part, n, indent);
      } else {
        assert Shallow(part, n, indent) <==> Shallow(part, n - 1, indent);
      }
    }
  }

  /** An else part knows all earlier conditions of its chain exactly when no line between them is indented less
      and the chain starts "if " - or starts "if(" where an earlier chain leaves the same condition. */
  lemma {:induction false} ElseKnowsItsChainWhen(lines: Lines, h: nat, indent: nat, condition: Tokens, tight: bool,
          inside: Lines)
    requires h < |lines| && lines[h] == Line(indent, IfTokens(condition, tight), tight)
    requires StandsAt(lines, h + 1, inside) && NoHeads(inside, indent)
    ensures PrecedingConditions(lines, h + 1 + |inside|, indent)
            == [condition] + PrecedingConditions(inside, |inside|, indent)
            <==> !Shallow(inside, |inside|, indent) && (!tight || PrecedingConditions(lines, h, indent) == [condition])
  {
    StretchConditions(lines, h + 1, inside, |inside|, indent);
    HeadFound(lines, h, indent, condition, tight);
    var found, arms := PrecedingConditions(lines, h + 1, indent), PrecedingConditions(inside, |inside|, indent);
    if [condition] + arms == found + arms {
      assert |found| == 1 && ([condition] + arms)[0] == (found + arms)[0];
    }
    assert |[condition] + arms| != |[] + arms|;
  }

  lemma {:induction false} HeadFound(lines: Lines, h: nat, indent: nat, condition: Tokens, tight: bool)
    requires h < |lines| && lines[h] == Line(indent, IfTokens(condition, tight), tight)
    ensures PrecedingConditions(lines, h + 1, indent)
            == if tight then PrecedingConditions(lines, h, indent) else [condition]
  {
    BranchConditionOf(condition, tight);
  }

  /** Past the first body of a chain at any indentation, with its statements deeper, the head's condition is still
      found exactly when no blank line of the body is indented less than the chain. */
  lemma {:induction false} BlankLinesKeepHeadWhen(lines: Lines, h: nat, indent: nat, condition: Tokens, inside: Lines)
    requires h < |lines| && lines[h] == Line(indent, IfTokens(condition, false), false)
    requires StandsAt(lines, h + 1, inside) && Deep(inside, indent + 1, 0)
    ensures PrecedingConditions(lines, h + 1 + |inside|, indent) == [condition] <==> Deep(inside, indent + 1, indent)
  {
    BodyHasNoArms(inside, |inside|, indent);
    ElseKnowsItsChainWhen(lines, h, indent, condition, false, inside);
    assert [condition] + [] == [condition];
    assert Shallow(inside, |inside|, indent) <==> !Deep(inside, indent + 1, indent);
  }

  lemma {:induction false} BodyHasNoArms(part: Lines, n: nat, indent: nat)
    requires Deep(part, indent + 1, 0) && n <= |part|
    ensures NoHeads(part, indent) && PrecedingConditions(part, n, indent) == []
    decreases n
  {
    if n > 0 {
      BodyHasNoArms(part, n - 1, indent);
    }
  }

  /** What guards a call under the else of a two-armed chain: the negation of what its search finds; and when that
      is nothing, no guard at the margin, but the head's own condition in a nested chain. */
  lemma {:induction false} ElseGuardIs(lines: Lines, h: nat, indent: nat, condition: Tokens, tight: bool,
          inside: Lines, c: nat)
    requires h < |lines| && lines[h] == Line(indent, IfTokens(condition, tight), tight) && condition != [] && indent < c
    requires StandsAt(lines, h + 1, inside) && Deep(inside, c, 0)
    requires h + 1 + |inside| < |lines| && lines[h + 1 + |inside|] == Line(indent, [ELSE], false)
    ensures var outer, found := EnclosingConditions(lines, h, indent),
            PrecedingConditions(lines, h + 1 + |inside|, indent);
            EnclosingConditions(lines, h + 2 + |inside|, c)
            == if found != [] then outer + [ConjunctionText(Negated(found))]
               else if indent == 0 then []
               else outer + [condition]
  {
    hide ConjunctionText, EnclosingConditions, PrecedingConditions;
    var e := h + 1 + |inside|;
    ElsePredicate(lines, e);
    HeadPredicate(lines, h, condition, tight);
    if PrecedingConditions(lines, e, indent) != [] {
      ConjunctionNotEmpty(Negated(PrecedingConditions(lines, e, indent)));
      BlockDemands(lines, e, c);
      assert StandsAt(lines, h, [lines[h]]);
      SkipDeeper(lines, h, [lines[h]], indent, indent);
      SkipDeeper(lines, h + 1, inside, indent, 0);
    } else {
      NoLiterals(Negated([]));
      PastPlainLine(lines, e, c);
      SkipDeeper(lines, h + 1, inside, c, 0);
      BlockDemands(lines, h, c);
    }
  }

  lemma {:induction false} PastPlainLine(lines: Lines, e: nat, c: nat)
    requires e < |lines| && lines[e].text != [] && lines[e].indent < c && BranchPredicate(lines, e) == []
    ensures EnclosingConditions(lines, e + 1, c) == if lines[e].indent
            == 0 then [] else EnclosingConditions(lines, e, c)
  {
  }

  /** A blank line indented less than a nested chain, inside its first body, turns its else around: the calls
      under it are guarded by the condition itself. */
  lemma {:induction false} BlankLineInvertsElse(lines: Lines, h: nat, indent: nat, condition: Tokens, inside: Lines,
          c: nat)
    requires h < |lines| && lines[h] == Line(indent, IfTokens(condition, false), false) && condition != [] && indent < c
    requires StandsAt(lines, h + 1, inside) && Deep(inside, c, 0) && !Deep(inside, c, indent)
    requires h + 1 + |inside| < |lines| && lines[h + 1 + |inside|] == Line(indent, [ELSE], false)
    ensures EnclosingConditions(lines, h + 2 + |inside|, c) == EnclosingConditions(lines, h, indent) + [condition]
  {
    hide EnclosingConditions, PrecedingConditions, ConjunctionText;
    assert Deep(inside, indent + 1, 0);
    StretchConditions(lines, h + 1, inside, |inside|, indent);
    BodyHasNoArms(inside, |inside|, indent);
    assert Shallow(inside, |inside|, indent);
    assert PrecedingConditions(lines, h + 1 + |inside|, indent) == [];
    hide Deep, Shallow, NoHeads, StandsAt;
    ElseGuardIs(lines, h, indent, condition, false, inside, c);
  }

  /** A chain that starts "if(" and has none above it does the same to its else when it is nested; at the margin
      the calls under its else have no guard at all. */
  lemma {:induction false} TightHeadMisleadsElse(lines: Lines, h: nat, indent: nat, condition: Tokens, inside: Lines,
          c: nat)
    requires h < |lines| && lines[h] == Line(indent, IfTokens(condition, true), true) && condition != [] && indent < c
    requires PrecedingConditions(lines, h, indent) == []
    requires StandsAt(lines, h + 1, inside) && Deep(inside, c, 0)
    requires h + 1 + |inside| < |lines| && lines[h + 1 + |inside|] == Line(indent, [ELSE], false)
    ensures EnclosingConditions(lines, h + 2 + |inside|, c)
            == if indent == 0 then [] else EnclosingConditions(lines, h, indent) + [condition]
  {
    hide EnclosingConditions, PrecedingConditions, ConjunctionText;
    assert Deep(inside, indent + 1, 0);
    StretchConditions(lines, h + 1, inside, |inside|, indent);
    BodyHasNoArms(inside, |inside|, indent);
    HeadFound(lines, h, indent, condition, true);
    assert PrecedingConditions(lines, h + 1 + |inside|, indent) == [];
    ElseGuardIs(lines, h, indent, condition, true, inside, c);
  }

  /** "if(a) ... (b)" loses its first and its last parenthesis, and what is left is not an expression. */
  lemma {:induction false} TightCompoundHeadFails(a: Tokens, between: Tokens, b: Tokens)
    requires Read(a).Some?
    ensures BranchCondition([IF] + Paren(a) + between + Paren(b), true) == a + [RParen] + between + [LParen] + b
    ensures Read(a + [RParen] + between + [LParen] + b).None?
  {
    var after := [RParen] + between + [LParen] + b;
    var text := [IF] + Paren(a) + between + Paren(b);
    assert text[1] == LParen && text[2..][..|text| - 3] == a + [RParen] + between + [LParen] + b;
    assert text[1..][0] == LParen && text[|text| - 1] == RParen;
    TernaryThen(a, after);
    assert a + after == a + [RParen] + between + [LParen] + b;
  }

  // ----- Sibling arms -----

  /** The calls of each arm of a chain, first arm first. */
  function Arms(nodes: Nodes, at: nat): seq<set<nat>>
    requires nodes.Chain?
  {
    [Calls(nodes.body, at + 1)] + TailArms(nodes.tail, at + 1 + Size(nodes.body))
  }

  function TailArms(tail: Tail, at: nat): seq<set<nat>> {
    match tail
    case NoElse => []
    case ElseIfArm(_, _, _, body, more) => [Calls(body, at + 1)] + TailArms(more, at + 1 + Size(body))
    case ElseArm(_, body) => [Calls(body, at + 1)]
  }

  /** The calls that stand in a block itself, not in a chain inside it. */
  function OwnCalls(nodes: Nodes, at: nat): set<nat> {
    match nodes
    case Nothing => {}
    case Draw(_, rest) => {at} + OwnCalls(rest, at + 1)
    case Empty(_, rest) => OwnCalls(rest, at + 1)
    case Chain(_, _, _, body, tail, rest) => OwnCalls(rest, at + 1 + Size(body) + TailSize(tail))
  }

  function OwnCallsOfArms(nodes: Nodes, at: nat): seq<set<nat>>
    requires nodes.Chain?
  {
    [OwnCalls(nodes.body, at + 1)] + TailOwnCalls(nodes.tail, at + 1 + Size(nodes.body))
  }

  function TailOwnCalls(tail: Tail, at: nat): seq<set<nat>> {
    match tail
    case NoElse => []
    case ElseIfArm(_, _, _, body, more) => [OwnCalls(body, at + 1)] + TailOwnCalls(more, at + 1 + Size(body))
    case ElseArm(_, body) => [OwnCalls(body, at + 1)]
  }

  predicate EndsInElse(tail: Tail) {
    match tail
    case NoElse => false
    case ElseIfArm(_, _, _, _, more) => EndsInElse(more)
    case ElseArm(_, _) => true
  }

  lemma {:induction false} OwnCallsRun(nodes: Nodes, at: nat, holds: Tokens -> bool)
    ensures OwnCalls(nodes, at) <= Runs(nodes, at, holds)
    decreases nodes
  {
    match nodes
    case Nothing =>
    case Draw(_, rest) => OwnCallsRun(rest, at + 1, holds);
    case Empty(_, rest) => OwnCallsRun(rest, at + 1, holds);
    case Chain(_, _, _, body, tail, rest) => OwnCallsRun(rest, at + 1 + Size(body) + TailSize(tail), holds);
  }

  /** Where the calls of an arm are. */
  lemma {:induction false} TailArmIsInside(tail: Tail, at: nat, p: nat)
    requires p < |TailArms(tail, at)|
    ensures TailArms(tail, at)[p] <= TailCalls(tail, at)
    decreases tail
  {
    match tail
    case NoElse =>
    case ElseIfArm(_, _, _, body, more) =>
      if p > 0 {
        TailArmIsInside(more, at + 1 + Size(body), p - 1);
      }
    case ElseArm(_, _) =>
  }

  lemma {:induction false} TailArmsExclude(tail: Tail, at: nat, holds: Tokens -> bool, p: nat, q: nat, j: nat, k: nat)
    requires p < q < |TailArms(tail, at)| && j in TailArms(tail, at)[p] && k in TailArms(tail, at)[q]
    ensures !(j in TailRuns(tail, at, holds) && k in TailRuns(tail, at, holds))
    decreases tail
  {
    match tail
    case NoElse =>
    case ElseIfArm(condition, _, _, body, more) =>
      var next := at + 1 + Size(body);
      CallsInRange(body, at + 1, holds);
      TailCallsInRange(more, next, holds);
      TailArmIsInside(more, next, q - 1);
      if p > 0 {
        TailArmIsInside(more, next, p - 1);
        TailArmsExclude(more, next, holds, p - 1, q - 1, j, k);
      }
    case ElseArm(_, _) =>
  }

  lemma {:induction false} TailIsExhaustive(tail: Tail, at: nat, holds: Tokens -> bool) returns (p: nat)
    requires EndsInElse(tail)
    ensures p < |TailOwnCalls(tail, at)| && TailOwnCalls(tail, at)[p] <= TailRuns(tail, at, holds)
    decreases tail
  {
    match tail
    case ElseIfArm(condition, _, _, body, more) =>
      if holds(condition) {
        p := 0;
        OwnCallsRun(body, at + 1, holds);
      } else {
        var q := TailIsExhaustive(more, at + 1 + Size(body), holds);
        p := q + 1;
      }
    case ElseArm(_, body) =>
      p := 0;
      OwnCallsRun(body, at + 1, holds);
  }

  /** Calls in different arms of a chain are never both reached. */
  lemma {:induction false} SiblingArmsExclude(nodes: Nodes, at: nat, holds: Tokens -> bool, p: nat, q: nat, j: nat,
          k: nat)
    requires nodes.Chain? && p < q < |Arms(nodes, at)| && j in Arms(nodes, at)[p] && k in Arms(nodes, at)[q]
    ensures !(j in Runs(nodes, at, holds) && k in Runs(nodes, at, holds))
  {
    var t := at + 1 + Size(nodes.body);
    CallsInRange(nodes.body, at + 1, holds);
    TailCallsInRange(nodes.tail, t, holds);
    CallsInRange(nodes.rest, t + TailSize(nodes.tail), holds);
    TailArmIsInside(nodes.tail, t, q - 1);
    if p > 0 {
      TailArmIsInside(nodes.tail, t, p - 1);
      TailArmsExclude(nodes.tail, t, holds, p - 1, q - 1, j, k);
    }
  }

  /** A chain that ends in else always reaches one arm. */
  lemma {:induction false} ElseIsExhaustive(nodes: Nodes, at: nat, holds: Tokens -> bool) returns (p: nat)
    requires nodes.Chain? && EndsInElse(nodes.tail)
    ensures p < |OwnCallsOfArms(nodes, at)| && OwnCallsOfArms(nodes, at)[p] <= Runs(nodes, at, holds)
  {
    if holds(nodes.condition) {
      p := 0;
      OwnCallsRun(nodes.body, at + 1, holds);
    } else {
      var q := TailIsExhaustive(nodes.tail, at + 1 + Size(nodes.body), holds);
      p := q + 1;
    }
  }

  lemma {:induction false} ArmsAreCalls(nodes: Nodes, at: nat, p: nat)
    requires nodes.Chain? && p < |Arms(nodes, at)|
    ensures Arms(nodes, at)[p] <= Calls(nodes, at)
  {
    if p > 0 {
      TailArmIsInside(nodes.tail, at + 1 + Size(nodes.body), p - 1);
    }
  }

  /** The guards of calls in different arms of a chain, wherever in a script it stands, never hold at the same bar. */
  lemma {:induction false} SiblingGuardsExclude(nodes: Nodes, lines: Lines, at: nat, indent: nat, floor: nat,
          outer: seq<Tokens>, ctx: Context, i: nat, p: nat, q: nat, j: nat, k: nat)
    requires ctx.Valid() && i < ctx.Bars() && ConditionsEvaluate(nodes, ctx) && AllEvaluate(outer, ctx)
    requires NodesForm(nodes, indent, floor) && floor <= indent && StandsAt(lines, at, NodesLines(nodes, indent))
    requires EnclosingConditions(lines, at, indent) == outer
    requires nodes.Chain? && p < q < |Arms(nodes, at)| && j in Arms(nodes, at)[p] && k in Arms(nodes, at)[q]
    ensures j < |lines| && k < |lines|
    ensures !(Guarded(lines, j, ctx, i) && Guarded(lines, k, ctx, i))
  {
    hide HoldsAt, Evaluates, GuardText, Runs, Calls, Arms, NodesLines, EnclosingConditions, NodesForm;
    ArmsAreCalls(nodes, at, p);
    ArmsAreCalls(nodes, at, q);
    GuardWithin(nodes, lines, at, indent, floor, outer, ctx, i, j);
    GuardWithin(nodes, lines, at, indent, floor, outer, ctx, i, k);
    SiblingArmsExclude(nodes, at, Truth(ctx, i), p, q, j, k);
  }

  /** Where the conditions around a chain that ends in else hold, the guards of all calls that stand in one of its
      arms hold; where they do not, no guard inside it holds. */
  lemma {:induction false} SiblingGuardsExhaust(nodes: Nodes, lines: Lines, at: nat, indent: nat, floor: nat,
          outer: seq<Tokens>, ctx: Context, i: nat) returns (p: nat)
    requires ctx.Valid() && i < ctx.Bars() && ConditionsEvaluate(nodes, ctx) && AllEvaluate(outer, ctx)
    requires NodesForm(nodes, indent, floor) && floor <= indent && StandsAt(lines, at, NodesLines(nodes, indent))
    requires EnclosingConditions(lines, at, indent) == outer
    requires nodes.Chain? && EndsInElse(nodes.tail)
    ensures p < |OwnCallsOfArms(nodes, at)|
    ensures forall j <- OwnCallsOfArms(nodes, at)[p] ::
              j < |lines| && (Guarded(lines, j, ctx, i) <==> AllHold(outer, ctx, i))
    ensures !AllHold(outer, ctx, i) ==> forall j <- Calls(nodes, at) :: j < |lines| && !Guarded(lines, j, ctx, i)
  {
    hide HoldsAt, Evaluates, GuardText, Runs, Calls, OwnCallsOfArms, NodesLines, EnclosingConditions, NodesForm,
         AllHold;
    var holds := Truth(ctx, i);
    p := ElseIsExhaustive(nodes, at, holds);
    CallsInRange(nodes, at, holds);
    forall j | j in Calls(nodes, at)
      ensures j < |lines| && (Guarded(lines, j, ctx, i) <==> AllHold(outer, ctx, i) && j in Runs(nodes, at, holds))
    {
      GuardWithin(nodes, lines, at, indent, floor, outer, ctx, i, j);
    }
  }
}
