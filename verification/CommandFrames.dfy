/** Signed command frames between the worker's host and its adapter: length-prefixed signing bytes and strictly
    increasing sequence numbers. */
module CommandFrames {
  import opened ByteStrings
  import opened Options

  const PROTOCOL_VERSION := 1
  const MAX_FRAME_BYTES := 64 * 1024
  const MAX_FRAME_TTL_MS := 60_000
  const MAX_FUTURE_SKEW_MS := 30_000

  // ----- Length-prefixed fields -----

  /** struct.pack(">I", n) for a length that fits. */
  function PackLength(n: nat): (r: Bytes)
    ensures |r| == 4
  {
    [(n / 0x100_0000 % 256) as Byte, (n / 0x1_0000 % 256) as Byte, (n / 0x100 % 256) as Byte, (n % 256) as Byte]
  }

  function UnpackLength(b: Bytes): nat
    requires |b| == 4
  {
    ((b[0] as int * 256 + b[1] as int) * 256 + b[2] as int) * 256 + b[3] as int
  }

  function Joined(fields: seq<Bytes>): Bytes {
    if |fields| == 0 then [] else PackLength(|fields[0]|) + fields[0] + Joined(fields[1..])
  }

  predicate FieldsFit(fields: seq<Bytes>) {
    forall field <- fields :: |field| <= MAX_FRAME_BYTES
  }

  function LengthPrefixed(fields: seq<Bytes>): Option<Bytes> {
    if FieldsFit(fields) && |Joined(fields)| <= MAX_FRAME_BYTES then Some(Joined(fields)) else None
  }

  lemma {:induction false} JoinedSnoc(fields: seq<Bytes>, field: Bytes)
    ensures Joined(fields + [field]) == Joined(fields) + PackLength(|field|) + field
  {
    hide PackLength;
    if |fields| == 0 {
      assert (fields + [field])[1..] == [];
    } else {
      JoinedSnoc(fields[1..], field);
      assert (fields + [field])[1..] == fields[1..] + [field];
      var head, tail := PackLength(|fields[0]|) + fields[0], PackLength(|field|) + field;
      assert head + (Joined(fields[1..]) + tail) == head + Joined(fields[1..]) + tail;
    }
  }

  method PrefixFields(fields: seq<Bytes>) returns (r: Option<Bytes>)
    ensures r == LengthPrefixed(fields)
  {
    var output: Bytes := [];
    for i := 0 to |fields|
      invariant output == Joined(fields[..i]) && FieldsFit(fields[..i])
    {
      if |fields[i]| > MAX_FRAME_BYTES {
        assert fields[i] in fields;
        return None;
      }
      JoinedSnoc(fields[..i], fields[i]);
      assert fields[..i + 1] == fields[..i] + [fields[i]];
      output := output + PackLength(|fields[i]|);
      output := output + fields[i];
    }
    assert fields[..|fields|] == fields;
    if |output| > MAX_FRAME_BYTES {
      return None;
    }
    return Some(output);
  }

  /** Reads length-prefixed fields back. */
  function Split(bytes: Bytes): Option<seq<Bytes>> {
    if |bytes| == 0 then Some([])
    else if |bytes| < 4 then None
    else
      var n := UnpackLength(bytes[..4]);
      if |bytes| < 4 + n then None
      else
        var rest := Split(bytes[4 + n..]);
        if rest.None? then None else Some([bytes[4..4 + n]] + rest.value)
  }

  lemma {:induction false} UnpackOfPack(n: nat)
    requires n < 0x1_0000_0000
    ensures UnpackLength(PackLength(n)) == n
  {
    var a, b, c := n / 0x100, n / 0x1_0000, n / 0x100_0000;
    assert n == a * 256 + n % 256;
    assert a == b * 256 + a % 256;
    assert b == c * 256 + b % 256;
    assert c < 256;
  }

  lemma {:induction false} SplitFirst(field: Bytes, tail: Bytes)
    requires |field| <= MAX_FRAME_BYTES && Split(tail).Some?
    ensures Split(PackLength(|field|) + field + tail) == Some([field] + Split(tail).value)
  {
    hide PackLength, UnpackLength;
    var b := PackLength(|field|) + field + tail;
    UnpackOfPack(|field|);
    assert b[..4] == PackLength(|field|);
    assert b[4..4 + |field|] == field;
    assert b[4 + |field|..] == tail;
  }

  /** Splitting gives back every list of fields that may be sent. */
  lemma {:induction false} SplitOfJoined(fields: seq<Bytes>)
    requires FieldsFit(fields)
    ensures Split(Joined(fields)) == Some(fields)
  {
    hide PackLength, Split;
    if |fields| == 0 {
      SplitNothing();
    } else {
      var field, rest := fields[0], fields[1..];
      assert fields == [field] + rest;
      assert field in fields && forall f <- rest :: f in fields;
      SplitOfJoined(rest);
      SplitFirst(field, Joined(rest));
    }
  }

  lemma {:induction false} SplitNothing()
    ensures Split([]) == Some([])
  {
  }

  /** Distinct lists of fields never give the same bytes. */
  lemma {:induction false} FramingIsUnambiguous(fields: seq<Bytes>, others: seq<Bytes>)
    requires LengthPrefixed(fields).Some? && LengthPrefixed(fields) == LengthPrefixed(others)
    ensures fields == others
  {
    SplitOfJoined(fields);
    SplitOfJoined(others);
  }

  // ----- Frames -----

  datatype Json = Number(n: int) | Text(s: string)

  datatype Frame = Frame(
    protocolVersion: Json,
    workerId: Json,
    accountId: Json,
    leaseGeneration: Json,
    messageId: Json,
    sentAtMs: Json,
    expiresAtMs: Json,
    sequence: Json,
    kind: Json,
    payloadJson: Json,
    macHex: Json)

  datatype Config = Config(workerId: string, accountId: string, leaseGeneration: int)

  /** Printing and reading of integers, UTF-8, the keyed hash, and whether a payload is JSON. */
  datatype World = World(decimal: int -> string, parse: string -> Option<int>, utf8: string -> Bytes,
          mac: Bytes -> string, isJson: string -> bool)

  function Printed(j: Json, w: World): string {
    match j
    case Number(n) => w.decimal(n)
    case Text(s) => s
  }

  function AsInt(j: Json, w: World): Option<int> {
    match j
    case Number(n) => Some(n)
    case Text(s) => w.parse(s)
  }

  function SignedFields(f: Frame, w: World): seq<Bytes> {
    [w.utf8(Printed(f.protocolVersion, w)), w.utf8(Printed(f.workerId, w)), w.utf8(Printed(f.accountId, w)),
     w.utf8(Printed(f.leaseGeneration, w)), w.utf8(Printed(f.messageId, w)), w.utf8(Printed(f.sentAtMs, w)),
     w.utf8(Printed(f.expiresAtMs, w)), w.utf8(Printed(f.sequence, w)), w.utf8(Printed(f.kind, w)),
     w.utf8(Printed(f.payloadJson, w))]
  }

  function SigningBytes(f: Frame, w: World): Option<Bytes> {
    LengthPrefixed(SignedFields(f, w))
  }

  ghost predicate Reads(w: World) {
    && (forall s: string, t: string :: w.utf8(s) == w.utf8(t) ==> s == t)
    && (forall n: int :: w.parse(w.decimal(n)) == Some(n))
  }

  /** Frames with the same signing bytes carry the same content: kind, payload, identity, times and sequence. */
  lemma {:induction false} SignatureCoversContent(f: Frame, g: Frame, w: World)
    requires Reads(w) && SigningBytes(f, w).Some? && SigningBytes(f, w) == SigningBytes(g, w)
    ensures Printed(f.kind, w) == Printed(g.kind, w) && Printed(f.payloadJson, w) == Printed(g.payloadJson, w)
    ensures Printed(f.messageId, w) == Printed(g.messageId, w) && Printed(f.workerId, w) == Printed(g.workerId, w)
    ensures Printed(f.accountId, w) == Printed(g.accountId, w)
            && Printed(f.protocolVersion, w) == Printed(g.protocolVersion, w)
    ensures AsInt(f.sequence, w) == AsInt(g.sequence, w) && AsInt(f.leaseGeneration, w) == AsInt(g.leaseGeneration, w)
    ensures AsInt(f.sentAtMs, w) == AsInt(g.sentAtMs, w) && AsInt(f.expiresAtMs, w) == AsInt(g.expiresAtMs, w)
  {
    FramingIsUnambiguous(SignedFields(f, w), SignedFields(g, w));
    var a, b := SignedFields(f, w), SignedFields(g, w);
    assert forall i | 0 <= i < 10 :: a[i] == b[i];
    assert a[0] == b[0] && a[1] == b[1] && a[2] == b[2] && a[3] == b[3] && a[4] == b[4];
    assert a[5] == b[5] && a[6] == b[6] && a[7] == b[7] && a[8] == b[8] && a[9] == b[9];
    SameReading(f.sequence, g.sequence, w);
    SameReading(f.leaseGeneration, g.leaseGeneration, w);
    SameReading(f.sentAtMs, g.sentAtMs, w);
    SameReading(f.expiresAtMs, g.expiresAtMs, w);
  }

  lemma {:induction false} SameReading(j: Json, k: Json, w: World)
    requires Reads(w) && Printed(j, w) == Printed(k, w)
    ensures AsInt(j, w) == AsInt(k, w)
  {
  }

  const ALLOWED_COMMANDS := {"agent_heartbeat", "stop_account", "snapshot_sync", "history_sync"}

  /** A line as read: its frame unless it is too long, malformed or of the wrong shape. */
  datatype Input = Input(frame: Option<Frame>, nowMs: int, works: bool)

  predicate FreshTimes(sentAt: int, expiresAt: int, now: int) {
    expiresAt >= now && sentAt <= now + MAX_FUTURE_SKEW_MS && expiresAt >= sentAt
      && expiresAt - sentAt <= MAX_FRAME_TTL_MS
  }

  datatype Command = Command(kind: string, sequence: int)

  function VerifyCommandFrame(cfg: Config, input: Input, lastSequence: int, w: World): Option<Command> {
    if input.frame.None? then None
    else
      var f := input.frame.value;
      var lease, sequence, sentAt, expiresAt :=
          AsInt(f.leaseGeneration, w), AsInt(f.sequence, w), AsInt(f.sentAtMs, w), AsInt(f.expiresAtMs, w);
      if f.protocolVersion != Number(PROTOCOL_VERSION) || f.workerId != Text(cfg.workerId)
         || f.accountId != Text(cfg.accountId) then None
      else if lease != Some(cfg.leaseGeneration) then None
      else if sequence.None? || sequence.value <= lastSequence then None
      else if sentAt.None? || expiresAt.None? || !FreshTimes(sentAt.value, expiresAt.value, input.nowMs) then None
      else if !f.kind.Text? || f.kind.s !in ALLOWED_COMMANDS then None
      else
        var signed := SigningBytes(f, w);
        if signed.None? || Printed(f.macHex, w) != w.mac(signed.value) then None
        else if !w.isJson(Printed(f.payloadJson, w)) then None
        else Some(Command(f.kind.s, sequence.value))
  }

  // ----- The command loop -----

  datatype Output = Output(sequence: nat, kind: string)

  /** One session: the frames written, the commands accepted, and the exit code once it has ended. */
  datatype Session = Session(outputs: seq<Output>, accepted: seq<Command>, lastInput: int, exit: Option<int>)

  function Start(): Session {
    Session([Output(1, "account_snapshot")], [], 0, None)
  }

  function NextOutput(s: Session, kind: string): Output {
    Output(|s.outputs| + 1, kind)
  }

  function Degraded(s: Session): Session {
    s.(outputs := s.outputs + [NextOutput(s, "account_runtime_status")], exit := Some(2))
  }

  /** One line of input.  A command whose collection fails ends the session, after its sequence was taken. */
  function AfterLine(s: Session, cfg: Config, input: Input, w: World): Session {
    if s.exit.Some? then s
    else
      var command := VerifyCommandFrame(cfg, input, s.lastInput, w);
      if command.None? then Degraded(s)
      else
        var taken := s.(accepted := s.accepted + [command.value], lastInput := command.value.sequence);
        if !input.works then Degraded(taken)
        else if command.value.kind == "stop_account" then
          taken.(outputs := s.outputs + [NextOutput(s, "account_runtime_status")], exit := Some(0))
        else taken.(outputs := s.outputs + [NextOutput(s, command.value.kind)])
  }

  function RunSession(cfg: Config, inputs: seq<Input>, w: World): Session {
    if |inputs| == 0 then Start()
    else AfterLine(RunSession(cfg, inputs[..|inputs| - 1], w), cfg, inputs[|inputs| - 1], w)
  }

  predicate Increasing(commands: seq<Command>) {
    forall i, j | 0 <= i < j < |commands| :: commands[i].sequence < commands[j].sequence
  }

  predicate Numbered(s: Session) {
    && Increasing(s.accepted)
    && (forall c <- s.accepted :: 1 <= c.sequence <= s.lastInput)
    && s.lastInput >= 0
    && forall i | 0 <= i < |s.outputs| :: s.outputs[i].sequence == i + 1
  }

  lemma {:induction false} LineKeepsNumbers(s: Session, cfg: Config, input: Input, w: World)
    requires Numbered(s)
    ensures Numbered(AfterLine(s, cfg, input, w))
  {
    hide VerifyCommandFrame;
    if s.exit.None? && VerifyCommandFrame(cfg, input, s.lastInput, w).Some? {
      AcceptedIsNewer(cfg, input, s.lastInput, w);
      forall i | 0 <= i < |s.accepted|
        ensures s.accepted[i].sequence <= s.lastInput
      {
        assert s.accepted[i] in s.accepted;
      }
    }
  }

  /** Accepted sequence numbers strictly increase from one on; the frames written are numbered 1, 2, 3 and so on. */
  lemma {:induction false} SequencesIncrease(cfg: Config, inputs: seq<Input>, w: World)
    ensures Numbered(RunSession(cfg, inputs, w))
  {
    hide AfterLine;
    if |inputs| > 0 {
      SequencesIncrease(cfg, inputs[..|inputs| - 1], w);
      LineKeepsNumbers(RunSession(cfg, inputs[..|inputs| - 1], w), cfg, inputs[|inputs| - 1], w);
    }
  }

  lemma {:induction false} AcceptedIsNewer(cfg: Config, input: Input, last: int, w: World)
    requires VerifyCommandFrame(cfg, input, last, w).Some?
    ensures input.frame.Some? && AsInt(input.frame.value.sequence, w)
            == Some(VerifyCommandFrame(cfg, input, last, w).value.sequence)
    ensures VerifyCommandFrame(cfg, input, last, w).value.sequence > last
  {
  }

  predicate Accepts(cfg: Config, inputs: seq<Input>, i: nat, w: World)
    requires i < |inputs|
  {
    var s := RunSession(cfg, inputs[..i], w);
    s.exit.None? && VerifyCommandFrame(cfg, inputs[i], s.lastInput, w).Some?
  }

  lemma {:induction false} LastInputGrows(cfg: Config, inputs: seq<Input>, i: nat, j: nat, w: World)
    requires i < j <= |inputs| && Accepts(cfg, inputs, i, w)
    ensures AsInt(inputs[i].frame.value.sequence, w).Some?
            && RunSession(cfg, inputs[..j], w).lastInput >= AsInt(inputs[i].frame.value.sequence, w).value
    decreases j
  {
    hide VerifyCommandFrame;
    assert inputs[..j][..j - 1] == inputs[..j - 1];
    var s := RunSession(cfg, inputs[..j - 1], w);
    if s.exit.None? && VerifyCommandFrame(cfg, inputs[j - 1], s.lastInput, w).Some? {
      AcceptedIsNewer(cfg, inputs[j - 1], s.lastInput, w);
    }
    if i < j - 1 {
      LastInputGrows(cfg, inputs, i, j - 1, w);
    } else {
      AcceptedIsNewer(cfg, inputs[i], s.lastInput, w);
    }
  }

  /** No frame is accepted twice: not the same frame, nor another one with the same signing bytes. */
  lemma {:induction false} NoFrameTwice(cfg: Config, inputs: seq<Input>, i: nat, j: nat, w: World)
    requires Reads(w) && i < j < |inputs| && Accepts(cfg, inputs, i, w) && Accepts(cfg, inputs, j, w)
    ensures inputs[i].frame.Some? && inputs[j].frame.Some?
    ensures inputs[i].frame != inputs[j].frame
    ensures SigningBytes(inputs[i].frame.value, w) != SigningBytes(inputs[j].frame.value, w)
  {
    AcceptedIsNewer(cfg, inputs[i], RunSession(cfg, inputs[..i], w).lastInput, w);
    AcceptedIsNewer(cfg, inputs[j], RunSession(cfg, inputs[..j], w).lastInput, w);
    LastInputGrows(cfg, inputs, i, j, w);
    if SigningBytes(inputs[i].frame.value, w) == SigningBytes(inputs[j].frame.value, w) {
      SignatureCoversContent(inputs[i].frame.value, inputs[j].frame.value, w);
    }
  }

  /** The loop of run, over the lines it is given. */
  method RunAdapter(cfg: Config, inputs: seq<Input>, w: World)
    returns (exit: int, outputs: seq<Output>, accepted: seq<Command>)
    ensures var s := RunSession(cfg, inputs, w);
            outputs == s.outputs && accepted == s.accepted && exit == if s.exit.Some? then s.exit.value else 0
    ensures Increasing(accepted)
  {
    hide VerifyCommandFrame;
    SequencesIncrease(cfg, inputs, w);
    var outputSequence, inputSequence := 1, 0;
    outputs, accepted := [], [];
    outputs := outputs + [Output(outputSequence, "account_snapshot")];
    outputSequence := outputSequence + 1;
    for i := 0 to |inputs|
      invariant RunSession(cfg, inputs[..i], w) == Session(outputs, accepted, inputSequence, None)
      invariant outputSequence == |outputs| + 1
    {
      assert inputs[..i + 1][..i] == inputs[..i];
      var command := VerifyCommandFrame(cfg, inputs[i], inputSequence, w);
      if command.None? {
        outputs := outputs + [Output(outputSequence, "account_runtime_status")];
        EndedStays(cfg, inputs, i + 1, w);
        return 2, outputs, accepted;
      }
      inputSequence := command.value.sequence;
      accepted := accepted + [command.value];
      if !inputs[i].works {
        outputs := outputs + [Output(outputSequence, "account_runtime_status")];
        EndedStays(cfg, inputs, i + 1, w);
        return 2, outputs, accepted;
      }
      if command.value.kind == "stop_account" {
        outputs := outputs + [Output(outputSequence, "account_runtime_status")];
        EndedStays(cfg, inputs, i + 1, w);
        return 0, outputs, accepted;
      }
      outputs := outputs + [Output(outputSequence, command.value.kind)];
      outputSequence := outputSequence + 1;
    }
    assert inputs[..|inputs|] == inputs;
    return 0, outputs, accepted;
  }

  lemma {:induction false} EndedStays(cfg: Config, inputs: seq<Input>, i: nat, w: World)
    requires i <= |inputs| && RunSession(cfg, inputs[..i], w).exit.Some?
    ensures RunSession(cfg, inputs, w) == RunSession(cfg, inputs[..i], w)
    decreases |inputs| - i
  {
    if i == |inputs| {
      assert inputs[..i] == inputs;
    } else {
      assert inputs[..i + 1][..i] == inputs[..i];
      EndedStays(cfg, inputs, i + 1, w);
    }
  }
}
