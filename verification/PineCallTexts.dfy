/** Calls recognised in a text before it is parsed: the body of a call that is the whole text, and the
    texts of its arguments. */
module PineCallTexts {
  import opened Options
  import opened Sequences
  import opened PineGrammar

  // ----- The body of a call -----

  function Turn(t: Token): int {
    match t
    case LParen => 1
    case RParen => -1
    case _ => 0
  }

  /** A position counted from `n` tokens earlier. */
  function Later(r: Option<nat>, n: nat): Option<nat> {
    if r.None? then None else Some(r.value + n)
  }

  /** Where the last of `depth` open parentheses closes. */
  function Closing(ts: Tokens, depth: nat): (r: Option<nat>)
    requires depth > 0
    ensures r.Some? ==> r.value < |ts| && ts[r.value] == RParen
  {
    if |ts| == 0 then None
    else if depth + Turn(ts[0]) == 0 then Some(0)
    else Later(Closing(ts[1..], depth + Turn(ts[0])), 1)
  }

  /** The body of a call of `name` that is the whole text. */
  function CallBody(ts: Tokens, name: string): (body: Option<Tokens>)
    ensures body.Some? ==> ts == [IdentTok(name), LParen] + body.value + [RParen]
  {
    if |ts| < 3 || ts[0] != IdentTok(name) || ts[1] != LParen || Closing(ts[2..], 1) != Some(|ts| - 3 as nat) then None
    else Some(ts[2..|ts| - 1])
  }

  lemma {:induction false} ClosingStep(ts: Tokens, i: nat, depth: nat)
    requires i <= |ts| && depth > 0
    ensures Closing(ts[i..], depth) ==
            if i == |ts| then None
            else if depth + Turn(ts[i]) == 0 then Some(0)
            else Later(Closing(ts[i + 1..], depth + Turn(ts[i])), 1)
  {
    if i < |ts| {
      assert ts[i..][1..] == ts[i + 1..];
    }
  }

  method FindCallBody(ts: Tokens, name: string) returns (body: Option<Tokens>)
    ensures body == CallBody(ts, name)
  {
    hide Closing;
    if |ts| < 2 || ts[0] != IdentTok(name) || ts[1] != LParen {
      return None;
    }
    var depth: nat, i := 1, 2;
    while i < |ts|
      invariant 2 <= i <= |ts| && depth > 0
      invariant Closing(ts[2..], 1) == Later(Closing(ts[i..], depth), i - 2)
    {
      ClosingStep(ts, i, depth);
      if ts[i] == LParen {
        depth := depth + 1;
      } else if ts[i] == RParen {
        if depth == 1 {
          return if i == |ts| - 1 then Some(ts[2..i]) else None;
        }
        depth := depth - 1;
      }
      i := i + 1;
    }
    ClosingStep(ts, i, depth);
    return None;
  }

  /** How deep a text ends. */
  function Depth(ts: Tokens): int {
    if |ts| == 0 then 0 else Depth(Front(ts)) + Turn(Last(ts))
  }

  /** No parenthesis closes before it opens, and all are closed. */
  ghost predicate Balanced(ts: Tokens) {
    Depth(ts) == 0 && forall i | 0 <= i <= |ts| :: Depth(ts[..i]) >= 0
  }

  lemma {:induction false} DepthSplits(s: Tokens, t: Tokens)
    ensures Depth(s + t) == Depth(s) + Depth(t)
  {
    if |t| == 0 {
      assert s + t == s;
    } else {
      DepthSplits(s, Front(t));
      assert Front(s + t) == s + Front(t);
    }
  }

  lemma {:induction false} DepthOfOne(t: Token)
    ensures Depth([t]) == Turn(t)
  {
    assert Front([t]) == [];
  }

  /** Closing finds the first place where everything open is closed. */
  lemma {:induction false} ClosingIs(ts: Tokens, depth: nat, k: nat)
    requires depth > 0 && k < |ts|
    ensures Closing(ts, depth) == Some(k) <==>
            depth + Depth(ts[..k + 1]) == 0 && forall i | 0 <= i <= k :: depth + Depth(ts[..i]) > 0
  {
    var rest := ts[1..];
    DepthOfOne(ts[0]);
    assert ts[..1] == [ts[0]] && ts[..0] == [];
    forall i | 0 < i <= k + 1
      ensures Depth(ts[..i]) == Turn(ts[0]) + Depth(rest[..i - 1])
    {
      DepthSplits([ts[0]], rest[..i - 1]);
      assert ts[..i] == [ts[0]] + rest[..i - 1];
    }
    if depth + Turn(ts[0]) > 0 && k > 0 {
      ClosingIs(rest, depth + Turn(ts[0]), k - 1);
      if Closing(rest, depth + Turn(ts[0])) == Some(k - 1) {
        forall i | 0 <= i <= k
          ensures depth + Depth(ts[..i]) > 0
        {
          if i > 0 {
            assert depth + Turn(ts[0]) + Depth(rest[..i - 1]) > 0;
          }
        }
      } else if depth + Depth(ts[..k + 1]) == 0 && forall i | 0 <= i <= k :: depth + Depth(ts[..i]) > 0 {
        forall i | 0 <= i <= k - 1
          ensures depth + Turn(ts[0]) + Depth(rest[..i]) > 0
        {
          assert depth + Depth(ts[..i + 1]) > 0;
        }
        assert false;
      }
    }
  }

  /** A text is wholly one call exactly when its body is balanced. */
  lemma {:induction false} WholeCallWhen(name: string, body: Tokens)
    ensures CallBody([IdentTok(name), LParen] + body + [RParen], name) == Some(body) <==> Balanced(body)
    ensures !Balanced(body) ==> CallBody([IdentTok(name), LParen] + body + [RParen], name) == None
  {
    var ts, inner := [IdentTok(name), LParen] + body + [RParen], body + [RParen];
    assert ts[2..] == inner && ts[2..|ts| - 1] == body;
    ClosingIs(inner, 1, |body|);
    DepthSplits(body, [RParen]);
    DepthOfOne(RParen);
    assert inner[..|body| + 1] == inner;
    forall i | 0 <= i <= |body|
      ensures inner[..i] == body[..i]
    {
    }
    assert body[..|body|] == body;
  }

  // ----- The texts of its arguments -----

  function Nesting(t: Token): int {
    match t
    case LParen => 1
    case LBracket => 1
    case RParen => -1
    case RBracket => -1
    case _ => 0
  }

  function NonEmpty(part: Tokens): seq<Tokens> {
    if part == [] then [] else [part]
  }

  /** The parts between the commas outside all brackets; `current` is the part being read. */
  function Split(current: Tokens, ts: Tokens, depth: int): seq<Tokens>
    decreases |ts|
  {
    if |ts| == 0 then NonEmpty(current)
    else if ts[0] == Comma && depth == 0 then NonEmpty(current) + Split([], ts[1..], 0)
    else Split(current + [ts[0]], ts[1..], depth + Nesting(ts[0]))
  }

  method SplitTopLevel(ts: Tokens) returns (out: seq<Tokens>)
    ensures out == Split([], ts, 0)
  {
    out := [];
    var depth, start := 0, 0;
    for i := 0 to |ts|
      invariant 0 <= start <= i
      invariant out + Split(ts[start..i], ts[i..], depth) == Split([], ts, 0)
    {
      assert ts[i..][1..] == ts[i + 1..];
      assert ts[start..i] + [ts[i]] == ts[start..i + 1];
      if ts[i] == Comma && depth == 0 {
        if start < i {
          out := out + [ts[start..i]];
        }
        start := i + 1;
        assert ts[start..i + 1] == [];
      } else {
        depth := depth + Nesting(ts[i]);
      }
    }
    assert ts[start..|ts|] == ts[start..] && ts[|ts|..] == [];
    if start < |ts| {
      out := out + [ts[start..]];
    }
  }

  /** The first equals sign outside all brackets. */
  function TopLevelEquals(ts: Tokens, depth: int): (r: Option<nat>)
    ensures r.Some? ==> r.value < |ts| && ts[r.value] == Equals
  {
    if |ts| == 0 then None
    else if ts[0] == Equals && depth == 0 then Some(0)
    else Later(TopLevelEquals(ts[1..], depth + Nesting(ts[0])), 1)
  }

  lemma {:induction false} EqualsStep(ts: Tokens, i: nat, depth: int)
    requires i <= |ts|
    ensures TopLevelEquals(ts[i..], depth) ==
            if i == |ts| then None
            else if ts[i] == Equals && depth == 0 then Some(0)
            else Later(TopLevelEquals(ts[i + 1..], depth + Nesting(ts[i])), 1)
  {
    if i < |ts| {
      assert ts[i..][1..] == ts[i + 1..];
    }
  }

  method FindTopLevelEquals(ts: Tokens) returns (r: Option<nat>)
    ensures r == TopLevelEquals(ts, 0)
  {
    hide TopLevelEquals;
    var depth := 0;
    assert ts[0..] == ts;
    for i := 0 to |ts|
      invariant TopLevelEquals(ts, 0) == Later(TopLevelEquals(ts[i..], depth), i)
    {
      EqualsStep(ts, i, depth);
      if ts[i] == Equals && depth == 0 {
        return Some(i);
      }
      depth := depth + Nesting(ts[i]);
    }
    EqualsStep(ts, |ts|, depth);
    return None;
  }

  datatype CallArguments = CallArguments(positional: seq<Tokens>, named: map<Tokens, Tokens>)

  function AddArgument(args: CallArguments, part: Tokens): CallArguments {
    match TopLevelEquals(part, 0)
    case Some(eq) =>
      if eq > 0 then args.(named := args.named[part[..eq] := part[eq + 1..]])
      else args.(positional := args.positional + [part])
    case None => args.(positional := args.positional + [part])
  }

  function AddArguments(parts: seq<Tokens>): CallArguments {
    if |parts| == 0 then CallArguments([], map[]) else AddArgument(AddArguments(Front(parts)), Last(parts))
  }

  function Arguments(body: Tokens): CallArguments {
    AddArguments(Split([], body, 0))
  }

  method ParseCallArguments(body: Tokens) returns (args: CallArguments)
    ensures args == Arguments(body)
  {
    var parts := SplitTopLevel(body);
    args := CallArguments([], map[]);
    for i := 0 to |parts|
      invariant args == AddArguments(parts[..i])
    {
      assert Front(parts[..i + 1]) == parts[..i];
      var eq := FindTopLevelEquals(parts[i]);
      if eq.Some? && eq.value > 0 {
        args := args.(named := args.named[parts[i][..eq.value] := parts[i][eq.value + 1..]]);
      } else {
        args := args.(positional := args.positional + [parts[i]]);
      }
    }
    assert parts[..|parts|] == parts;
  }

  /** An argument by name or else by place; empty when it is missing. */
  function RawArg(args: CallArguments, key: string, index: nat): Tokens {
    var named := [IdentTok(key)];
    if named in args.named && args.named[named] != [] then args.named[named]
    else if index < |args.positional| then args.positional[index]
    else []
  }

  // ----- What the arguments are made of -----

  predicate Within(part: Tokens, whole: Tokens) {
    |part| <= |whole| && forall t <- part :: t in whole
  }

  lemma {:induction false} SplitWithin(current: Tokens, ts: Tokens, depth: int, whole: Tokens)
    requires Within(current, whole) && Within(ts, whole) && |current| + |ts| <= |whole|
    ensures forall p <- Split(current, ts, depth) :: p != [] && Within(p, whole)
    decreases |ts|
  {
    if |ts| > 0 {
      if ts[0] == Comma && depth == 0 {
        SplitWithin([], ts[1..], 0, whole);
      } else {
        SplitWithin(current + [ts[0]], ts[1..], depth + Nesting(ts[0]), whole);
      }
    }
  }

  lemma {:induction false} AddedWithin(parts: seq<Tokens>, whole: Tokens)
    requires forall p <- parts :: Within(p, whole)
    ensures forall p <- AddArguments(parts).positional :: Within(p, whole)
    ensures forall key <- AddArguments(parts).named :: Within(AddArguments(parts).named[key], whole)
  {
    if |parts| > 0 {
      AddedWithin(Front(parts), whole);
      var before, part := AddArguments(Front(parts)), Last(parts);
      var eq := TopLevelEquals(part, 0);
      if eq.Some? && eq.value > 0 {
        var key, value := part[..eq.value], part[eq.value + 1..];
        assert AddArguments(parts).named == before.named[key := value];
        assert Within(part, whole) && Within(value, part);
      }
    }
  }

  /** An argument is no longer than the body and made of its tokens. */
  lemma {:induction false} ArgumentWithin(body: Tokens, key: string, index: nat)
    ensures Within(RawArg(Arguments(body), key, index), body)
  {
    SplitWithin([], body, 0, body);
    AddedWithin(Split([], body, 0), body);
  }

  // ----- Writing arguments and reading them back -----

  function NestingOf(ts: Tokens): int {
    if |ts| == 0 then 0 else NestingOf(Front(ts)) + Nesting(Last(ts))
  }

  /** One argument: brackets closed, and no comma outside them. */
  ghost predicate IsPart(ts: Tokens) {
    && ts != [] && NestingOf(ts) == 0
    && forall i | 0 <= i < |ts| && NestingOf(ts[..i]) == 0 :: ts[i] != Comma
  }

  function Joined(parts: seq<Tokens>): Tokens {
    if |parts| == 0 then []
    else if |parts| == 1 then parts[0]
    else parts[0] + [Comma] + Joined(parts[1..])
  }

  lemma {:induction false} ReadsOn(part: Tokens, rest: Tokens, i: nat)
    requires IsPart(part) && i <= |part|
    ensures Split(part[..i], part[i..] + rest, NestingOf(part[..i])) == Split(part, rest, 0)
    decreases |part| - i
  {
    if i == |part| {
      assert part[..i] == part && part[i..] + rest == rest;
    } else {
      var now := part[i..] + rest;
      assert now[0] == part[i] && now[1..] == part[i + 1..] + rest;
      assert part[..i] + [part[i]] == part[..i + 1] && Front(part[..i + 1]) == part[..i];
      assert Split(part[..i], now, NestingOf(part[..i])) == Split(part[..i + 1], now[1..], NestingOf(part[..i + 1]));
      hide Split;
      ReadsOn(part, rest, i + 1);
    }
  }

  /** Arguments written with commas between them are read back as they are. */
  lemma {:induction false} SplitOfJoined(parts: seq<Tokens>)
    requires forall p <- parts :: IsPart(p)
    ensures Split([], Joined(parts), 0) == parts
  {
    if |parts| > 0 {
      var rest := if |parts| == 1 then [] else [Comma] + Joined(parts[1..]);
      assert Joined(parts) == parts[0] + rest;
      ReadsOn(parts[0], rest, 0);
      assert parts[0][..0] == [] && parts[0][0..] == parts[0];
      if |parts| > 1 {
        SplitOfJoined(parts[1..]);
        assert rest[1..] == Joined(parts[1..]);
      }
    }
  }
}
