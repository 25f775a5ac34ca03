/** One user's alerts and their recorded events: creating, patching, deleting, triggering and clearing, as
    row-level effects of the statements.  Stored times are whole units; `stamp` makes one of an observation. */
module AlertSteps {
  import opened Reals
  import opened Options
  import opened AlertGeometry

  datatype Status = StatusActive | StatusTriggered | StatusExpired

  datatype Alert = Alert(
    clientId: string,
    symbol: string,
    condition: string,
    price: real,
    target: Option<Target>,
    recurring: bool,
    enabled: bool,
    status: Status,
    revision: nat)

  /** `alert` is cleared when the alert is deleted; old events have no revision. */
  datatype Event = Event(
    id: nat,
    alert: Option<nat>,
    symbol: string,
    condition: string,
    targetPrice: real,
    triggerPrice: real,
    at: int,
    revision: Option<nat>)

  /** The fields an event was judged against. */
  datatype Judged = Judged(symbol: string, condition: string, price: real, target: Option<Target>, recurring: bool)

  /** Every insertion of an event that ever happened. */
  datatype Recorded = Recorded(alert: nat, revision: nat, judged: Judged, at: int)

  datatype State = State(alerts: map<nat, Alert>, events: seq<Event>, nextAlert: nat, recorded: seq<Recorded>)

  datatype World = World(curves: Curves, stamp: real -> int)

  datatype Ref = ById(id: nat) | ByClient(clientId: string)

  datatype NewAlert = NewAlert(clientId: string, symbol: string, condition: string, price: real, recurring: bool,
          enabled: bool, target: Option<Target>)

  datatype Change = Change(
    symbol: Option<string>,
    condition: Option<string>,
    price: Option<real>,
    status: Option<Status>,
    enabled: Option<bool>,
    recurring: Option<bool>,
    target: Option<Target>)

  datatype TriggerInput = TriggerInput(
    triggerPrice: Option<real>,
    targetPrice: Option<real>,
    previous: Option<Evidence>,
    current: Option<Evidence>,
    armingRevision: int)

  datatype Reply =
    | Refused
    | NotFound
    | StaleRevision
    | AlreadyTriggered(event: Event)
    | MissingEvent
    | NotMet
    | Collision
    | NotArmed
    | IdTaken
    | Triggered(event: Event)

  const MAX_HISTORY := 200

  function Fields(a: Alert): Judged {
    Judged(a.symbol, a.condition, a.price, a.target, a.recurring)
  }

  // ----- Create, Patch, Delete, ClearHistory -----

  /** The row a reference selects: ids are unique, and so are the client ids of one user. */
  function Find(s: State, ref: Ref): Option<nat> {
    match ref
    case ById(id) => if id in s.alerts then Some(id) else None
    case ByClient(clientId) => if clientId == "" then None else FindClient(s.alerts, s.nextAlert, clientId)
  }

  function FindClient(alerts: map<nat, Alert>, bound: nat, clientId: string): (r: Option<nat>)
    ensures r.Some? ==> r.value in alerts && alerts[r.value].clientId == clientId
    ensures r.None? ==> forall id | 0 <= id < bound :: id in alerts ==> alerts[id].clientId != clientId
  {
    if bound == 0 then None
    else if bound - 1 in alerts && alerts[bound - 1].clientId == clientId then Some(bound - 1)
    else FindClient(alerts, bound - 1, clientId)
  }

  function Bump(revision: nat, changed: bool): nat {
    if changed then revision + 1 else revision
  }

  /** The update half of the upsert. */
  function Upserted(a: Alert, input: NewAlert): Alert {
    var changed :=
      || a.symbol != input.symbol || a.condition != input.condition || a.price != input.price
         || a.recurring != input.recurring
      || (input.target.Some? && a.target != input.target);
    a.(symbol := input.symbol, condition := input.condition, price := input.price, recurring := input.recurring,
       enabled := input.enabled, target := if input.target.Some? then input.target else a.target,
       revision := Bump(a.revision, changed))
  }

  function AfterCreate(s: State, input: NewAlert): State {
    var existing := if input.clientId == "" then None else FindClient(s.alerts, s.nextAlert, input.clientId);
    match existing
    case Some(id) => s.(alerts := s.alerts[id := Upserted(s.alerts[id], input)])
    case None =>
      s.(alerts := s.alerts[s.nextAlert := Alert(input.clientId, input.symbol, input.condition, input.price,
                                                 input.target, input.recurring, input.enabled, StatusActive, 1)],
         nextAlert := s.nextAlert + 1)
  }

  function Or<T>(value: Option<T>, otherwise: T): T {
    match value
    case Some(v) => v
    case None => otherwise
  }

  /** A patch may set the status to active or expired only. */
  predicate PatchAllowed(change: Change) {
    change.status != Some(StatusTriggered)
  }

  function Patched(a: Alert, change: Change): Alert {
    var changed :=
      || (change.symbol.Some? && a.symbol != change.symbol.value)
      || (change.condition.Some? && a.condition != change.condition.value)
      || (change.price.Some? && a.price != change.price.value)
      || (change.recurring.Some? && a.recurring != change.recurring.value)
      || (change.target.Some? && a.target != change.target)
      || (change.status == Some(StatusActive) && a.status != StatusActive);
    a.(symbol := Or(change.symbol, a.symbol), condition := Or(change.condition, a.condition),
       price := Or(change.price, a.price),
       status := Or(change.status, a.status), enabled := Or(change.enabled, a.enabled),
       recurring := Or(change.recurring, a.recurring),
       target := if change.target.Some? then change.target else a.target,
       revision := Bump(a.revision, changed))
  }

  function AfterPatch(s: State, ref: Ref, change: Change): State {
    var id := Find(s, ref);
    if !PatchAllowed(change) || id.None? then s
    else s.(alerts := s.alerts[id.value := Patched(s.alerts[id.value], change)])
  }

  /** Deleting an alert keeps its events, without their link to it. */
  function Unlink(events: seq<Event>, alert: nat): seq<Event> {
    seq(|events|, i requires 0 <= i < |events| => if events[i].alert == Some(alert) then events[i].(alert := None)
        else events[i])
  }

  function AfterDelete(s: State, ref: Ref): State {
    var id := Find(s, ref);
    if id.None? then s else s.(alerts := s.alerts - {id.value}, events := Unlink(s.events, id.value))
  }

  // ----- Trigger -----

  /** Later time first, then later id. */
  predicate Newer(e: Event, f: Event) {
    e.at > f.at || (e.at == f.at && e.id > f.id)
  }

  function CountNewer(events: seq<Event>, e: Event): nat {
    if |events| == 0 then 0
    else CountNewer(events[..|events| - 1], e) + if Newer(events[|events| - 1], e) then 1 else 0
  }

  /** The events among `all` that are within the newest of `within`. */
  function KeepNewest(all: seq<Event>, within: seq<Event>): seq<Event> {
    if |all| == 0 then []
    else
      var e := all[|all| - 1];
      KeepNewest(all[..|all| - 1], within) + if CountNewer(within, e) < MAX_HISTORY then [e] else []
  }

  function Pruned(events: seq<Event>): seq<Event> {
    KeepNewest(events, events)
  }

  /** The newest event that satisfies a test. */
  function NewestOf(events: seq<Event>, test: Event -> bool): (r: Option<Event>)
    ensures r.Some? ==> r.value in events && test(r.value) && forall e <- events :: test(e) ==> !Newer(e, r.value)
    ensures r.None? ==> forall e <- events :: !test(e)
  {
    if |events| == 0 then None
    else
      var best, e := NewestOf(events[..|events| - 1], test), events[|events| - 1];
      assert events == events[..|events| - 1] + [e];
      if test(e) && (best.None? || Newer(e, best.value)) then Some(e) else best
  }

  predicate UnderRevision(e: Event, alert: nat, revision: nat) {
    e.alert == Some(alert) && e.revision == Some(revision)
  }

  predicate SameAttempt(e: Event, alert: nat, revision: nat, at: int) {
    UnderRevision(e, alert, revision) && e.at == at
  }

  predicate Legacy(e: Event, alert: nat) {
    e.alert == Some(alert) && e.revision == None
  }

  function Magnitude(a: real, b: real): real {
    Larger(1.0, Larger(Absolute(a), Absolute(b)))
  }

  predicate NearlyEqual(a: real, b: real) {
    Absolute(a - b) <= Larger(0.000000005000001, 0.000000001 * Magnitude(a, b))
  }

  /** Evidence in order and usable, claims positive. */
  function NormalizedInput(input: TriggerInput): Option<TriggerInput> {
    if input.current.None? then None
    else
      var current := NormalizeEvidence(input.current.value);
      var previous := if input.previous.None? then None else NormalizeEvidence(input.previous.value);
      if current.None? then None
      else if input.previous.Some? && (previous.None? || previous.value.timestamp > current.value.timestamp) then None
      else if input.armingRevision <= 0 then None
      else if (input.triggerPrice.Some? && !ValidPrice(input.triggerPrice.value))
              || (input.targetPrice.Some? && !ValidPrice(input.targetPrice.value)) then None
      else Some(input.(current := current, previous := previous))
  }

  function FixedTarget(price: real): Target {
    Target(1, "fixed-price", Some(price), None, None, "", "", None, None, "")
  }

  function JudgedTarget(a: Alert, w: World): Option<Target> {
    if a.target.None? then Some(FixedTarget(a.price)) else Validated(a.target.value, w.curves)
  }

  /** Whether the evidence meets the alert and the claims match it; the target price if so. */
  function Meets(a: Alert, input: TriggerInput, w: World): Option<real>
    requires input.current.Some?
  {
    var target := JudgedTarget(a, w);
    if target.None? then None
    else
      match EvaluateTechnicalAlert(a.condition, target.value, input.previous, input.current.value, w.curves)
      case NotActive(_) => None
      case Evaluated(triggered, targetPrice) =>
        if !triggered then None
        else if input.triggerPrice.Some? && !NearlyEqual(input.triggerPrice.value, input.current.value.price) then None
        else if input.targetPrice.Some? && !NearlyEqual(input.targetPrice.value, targetPrice) then None
        else Some(targetPrice)
  }

  function ReplyToTriggered(s: State, id: nat, revision: nat): Reply {
    match NewestOf(s.events, e => UnderRevision(e, id, revision))
    case Some(e) => AlreadyTriggered(e)
    case None =>
      match NewestOf(s.events, e => Legacy(e, id))
      case Some(e) => AlreadyTriggered(e)
      case None => MissingEvent
  }

  predicate TakenId(events: seq<Event>, id: nat) {
    exists e <- events :: e.id == id
  }

  /** The event a trigger would insert, under an id that the table draws at random. */
  function EventOf(eventId: nat, id: nat, a: Alert, input: TriggerInput, targetPrice: real, w: World): Event
    requires input.current.Some?
  {
    var current := input.current.value;
    Event(eventId, Some(id), a.symbol, a.condition, targetPrice, current.price, w.stamp(current.timestamp),
          Some(a.revision))
  }

  function ReplyToTrigger(s: State, ref: Ref, given: TriggerInput, eventId: nat, w: World): Reply {
    var normalized, found := NormalizedInput(given), Find(s, ref);
    if normalized.None? then Refused
    else if found.None? then NotFound
    else
      var input, id, a := normalized.value, found.value, s.alerts[found.value];
      if input.armingRevision != a.revision then StaleRevision
      else if a.status == StatusTriggered then ReplyToTriggered(s, id, a.revision)
      else
        var met := Meets(a, input, w);
        if met.None? then NotMet
        else
          var at := w.stamp(input.current.value.timestamp);
          match NewestOf(s.events, e => SameAttempt(e, id, a.revision, at))
          case Some(e) =>
            if !NearlyEqual(e.triggerPrice, input.current.value.price) || !NearlyEqual(e.targetPrice, met.value)
              then Collision
            else AlreadyTriggered(e)
          case None =>
            if !a.enabled || a.status != StatusActive then NotArmed
            else if TakenId(s.events, eventId) then IdTaken
            else Triggered(EventOf(eventId, id, a, input, met.value, w))
  }

  function AfterTrigger(s: State, ref: Ref, given: TriggerInput, eventId: nat, w: World): State {
    var reply := ReplyToTrigger(s, ref, given, eventId, w);
    if !reply.Triggered? || Find(s, ref).None? then s
    else
      var id := Find(s, ref).value;
      var a, e := s.alerts[id], reply.event;
      s.(alerts := s.alerts[id := a.(status := if a.recurring then StatusActive else StatusTriggered)],
         events := Pruned(s.events + [e]),
         recorded := s.recorded + [Recorded(id, a.revision, Fields(a), e.at)])
  }

  // ----- Runs -----

  datatype Action =
    | Create(input: NewAlert)
    | Patch(ref: Ref, change: Change)
    | Delete(ref: Ref)
    | Trigger(ref: Ref, evidence: TriggerInput, eventId: nat)
    | ClearHistory

  function Step(s: State, a: Action, w: World): State {
    match a
    case Create(input) => AfterCreate(s, input)
    case Patch(ref, change) => AfterPatch(s, ref, change)
    case Delete(ref) => AfterDelete(s, ref)
    case Trigger(ref, evidence, eventId) => AfterTrigger(s, ref, evidence, eventId, w)
    case ClearHistory => s.(events := [])
  }

  function Run(start: State, actions: seq<Action>, w: World): State {
    if |actions| == 0 then start else Step(Run(start, actions[..|actions| - 1], w), actions[|actions| - 1], w)
  }

  // ----- Revisions -----

  /** An alert that stays never goes back in revision, and under one revision keeps the fields it is judged by. */
  predicate RevisionsGrow(s: State, r: State) {
    && s.nextAlert <= r.nextAlert
    && forall id | id in s.alerts && id in r.alerts ::
         && s.alerts[id].revision <= r.alerts[id].revision
         && (s.alerts[id].revision == r.alerts[id].revision ==> Fields(s.alerts[id]) == Fields(r.alerts[id]))
  }

  lemma {:induction false} StepRevisions(s: State, a: Action, w: World)
    requires forall id <- s.alerts :: id < s.nextAlert
    ensures RevisionsGrow(s, Step(s, a, w))
  {
    hide ReplyToTrigger, Pruned;
  }

  /** What was recorded is behind the alert's present revision, or was judged by its present fields; and a
      one-time alert that has recorded an event under its present revision is not active. */
  predicate RecordAt(s: State, i: nat)
    requires i < |s.recorded|
  {
    var r := s.recorded[i];
    && r.alert < s.nextAlert
    && (r.alert in s.alerts ==>
          && r.revision <= s.alerts[r.alert].revision
          && (r.revision == s.alerts[r.alert].revision ==>
                && r.judged == Fields(s.alerts[r.alert])
                && (!r.judged.recurring ==> s.alerts[r.alert].status != StatusActive)))
  }

  predicate PairAt(s: State, i: nat, j: nat)
    requires i < j < |s.recorded|
  {
    var r, q := s.recorded[i], s.recorded[j];
    r.alert == q.alert && r.revision == q.revision ==> r.judged == q.judged && r.judged.recurring
  }

  predicate RecordsForm(s: State) {
    && (forall id <- s.alerts :: id < s.nextAlert)
    && (forall i | 0 <= i < |s.recorded| :: RecordAt(s, i))
    && (forall i, j | 0 <= i < j < |s.recorded| :: PairAt(s, i, j))
  }

  lemma {:induction false} QuietKeepsRecords(s: State, a: Action, w: World)
    requires RecordsForm(s) && !a.Trigger?
    ensures RecordsForm(Step(s, a, w))
  {
    var r := Step(s, a, w);
    assert r.recorded == s.recorded;
    forall i | 0 <= i < |r.recorded|
      ensures RecordAt(r, i)
    {
      assert RecordAt(s, i);
    }
    forall i, j | 0 <= i < j < |r.recorded|
      ensures PairAt(r, i, j)
    {
      assert PairAt(s, i, j);
    }
  }

  lemma {:induction false} TriggeredWhen(s: State, ref: Ref, given: TriggerInput, eventId: nat, w: World)
    requires ReplyToTrigger(s, ref, given, eventId, w).Triggered?
    ensures Find(s, ref).Some? && NormalizedInput(given).Some? && NormalizedInput(given).value.current.Some?
    ensures var id, a := Find(s, ref).value, s.alerts[Find(s, ref).value];
            var input, e := NormalizedInput(given).value, ReplyToTrigger(s, ref, given, eventId, w).event;
            && a.status == StatusActive && a.enabled && input.armingRevision == a.revision
            && Meets(a, input, w).Some?
            && e == EventOf(eventId, id, a, input, Meets(a, input, w).value, w)
            && !TakenId(s.events, eventId)
            && forall f <- s.events :: !SameAttempt(f, id, a.revision, e.at)
  {
    hide Meets;
  }

  lemma {:induction false} TriggerKeepsRecords(s: State, ref: Ref, given: TriggerInput, eventId: nat, w: World)
    requires RecordsForm(s)
    ensures RecordsForm(AfterTrigger(s, ref, given, eventId, w))
  {
    hide ReplyToTrigger, Pruned, Meets, NormalizedInput;
    var r := AfterTrigger(s, ref, given, eventId, w);
    if ReplyToTrigger(s, ref, given, eventId, w).Triggered? {
      TriggeredWhen(s, ref, given, eventId, w);
      forall i | 0 <= i < |r.recorded|
        ensures RecordAt(r, i)
      {
        if i < |s.recorded| {
          assert RecordAt(s, i);
        }
      }
      forall i, j | 0 <= i < j < |r.recorded|
        ensures PairAt(r, i, j)
      {
        assert RecordAt(s, i);
        if j < |s.recorded| {
          assert PairAt(s, i, j);
        }
      }
    }
  }

  // ----- Stored events -----

  /** No two stored events share alert, revision and time, or an id. */
  predicate EventsForm(s: State) {
    && AllApart(s.events)
    && (forall e <- s.events :: StoredAt(s, e))
  }

  /** A stored event is of a past revision or the present one; under the present revision of an active alert
      there are only events of a recurring one. */
  predicate StoredAt(s: State, e: Event) {
    && (e.alert.Some? ==> e.alert.value < s.nextAlert)
    && (e.alert.Some? && e.alert.value in s.alerts && e.revision.Some? ==>
      var a := s.alerts[e.alert.value];
      && e.revision.value <= a.revision
      && (e.revision.value == a.revision && !a.recurring ==> a.status != StatusActive))
  }

  predicate EventsApart(e: Event, f: Event) {
    && e.id != f.id
    && (e.alert.Some? && e.alert == f.alert && e.revision.Some? && e.revision == f.revision ==> e.at != f.at)
  }

  predicate AllApart(events: seq<Event>) {
    forall i, j | 0 <= i < j < |events| :: EventsApart(events[i], events[j])
  }

  lemma {:induction false} KeepNewestMembers(all: seq<Event>, within: seq<Event>)
    ensures forall e <- KeepNewest(all, within) :: e in all && CountNewer(within, e) < MAX_HISTORY
    ensures forall e <- all :: CountNewer(within, e) < MAX_HISTORY ==> e in KeepNewest(all, within)
  {
    if |all| > 0 {
      KeepNewestMembers(all[..|all| - 1], within);
      assert all == all[..|all| - 1] + [all[|all| - 1]];
    }
  }

  lemma {:induction false} KeepNewestApart(all: seq<Event>, within: seq<Event>)
    requires AllApart(all)
    ensures AllApart(KeepNewest(all, within))
  {
    hide EventsApart, CountNewer;
    if |all| > 0 {
      var front, e := all[..|all| - 1], all[|all| - 1];
      KeepNewestApart(front, within);
      KeepNewestMembers(front, within);
      var kept := KeepNewest(front, within);
      forall i | 0 <= i < |kept|
        ensures EventsApart(kept[i], e)
      {
        assert kept[i] in front;
      }
    }
  }

  lemma {:induction false} TriggerKeepsEvents(s: State, ref: Ref, given: TriggerInput, eventId: nat, w: World)
    requires EventsForm(s) && forall id <- s.alerts :: id < s.nextAlert
    ensures EventsForm(AfterTrigger(s, ref, given, eventId, w))
  {
    hide ReplyToTrigger, KeepNewest, Meets, NormalizedInput;
    if ReplyToTrigger(s, ref, given, eventId, w).Triggered? {
      TriggeredWhen(s, ref, given, eventId, w);
      var e := ReplyToTrigger(s, ref, given, eventId, w).event;
      var grown := s.events + [e];
      GrownApart(s, e);
      KeepNewestApart(grown, grown);
      KeepNewestMembers(grown, grown);
      var r := AfterTrigger(s, ref, given, eventId, w);
      forall f | f in r.events
        ensures StoredAt(r, f)
      {
        assert f in s.events || f == e;
        assert f in s.events ==> StoredAt(s, f);
      }
    }
  }

  lemma {:induction false} GrownApart(s: State, e: Event)
    requires AllApart(s.events) && !TakenId(s.events, e.id) && e.alert.Some? && e.revision.Some?
    requires forall f <- s.events :: !SameAttempt(f, e.alert.value, e.revision.value, e.at)
    ensures AllApart(s.events + [e])
  {
    forall i | 0 <= i < |s.events|
      ensures EventsApart(s.events[i], e)
    {
      assert s.events[i] in s.events;
    }
  }

  lemma {:induction false} QuietKeepsEvents(s: State, a: Action, w: World)
    requires EventsForm(s) && !a.Trigger? && forall id <- s.alerts :: id < s.nextAlert
    ensures EventsForm(Step(s, a, w))
  {
    var r := Step(s, a, w);
    if a.Delete? && r != s {
      var id := Find(s, a.ref).value;
      forall i | 0 <= i < |r.events|
        ensures StoredAt(r, r.events[i])
      {
        assert s.events[i] in s.events && StoredAt(s, s.events[i]);
      }
    } else {
      forall e | e in r.events
        ensures StoredAt(r, e)
      {
        assert StoredAt(s, e);
      }
    }
  }

  /** A state in which nothing has been recorded yet. */
  predicate Start(s: State) {
    EventsForm(s) && s.recorded == [] && |s.events| <= MAX_HISTORY && forall id <- s.alerts :: id < s.nextAlert
  }

  predicate Inv(s: State) {
    RecordsForm(s) && EventsForm(s) && |s.events| <= MAX_HISTORY
  }

  lemma {:induction false} StepKeeps(s: State, a: Action, w: World)
    requires Inv(s)
    ensures Inv(Step(s, a, w))
  {
    hide EventsForm, AfterTrigger, RecordAt, PairAt;
    if a.Trigger? {
      TriggerKeepsRecords(s, a.ref, a.evidence, a.eventId, w);
      TriggerKeepsEvents(s, a.ref, a.evidence, a.eventId, w);
      TriggerBoundsHistory(s, a.ref, a.evidence, a.eventId, w);
    } else {
      QuietKeepsRecords(s, a, w);
      QuietKeepsEvents(s, a, w);
    }
  }

  lemma {:induction false} RunKeeps(start: State, actions: seq<Action>, w: World)
    requires Start(start)
    ensures Inv(Run(start, actions, w))
  {
    hide Step, EventsForm;
    if |actions| > 0 {
      RunKeeps(start, actions[..|actions| - 1], w);
      StepKeeps(Run(start, actions[..|actions| - 1], w), actions[|actions| - 1], w);
    }
  }

  // ----- At most 200 events are kept -----

  lemma {:induction false} NewerCount(kept: seq<Event>, all: seq<Event>, e: Event)
    requires AllApart(kept) && AllApart(all) && forall i | 0 <= i < |kept| :: kept[i] in all
    ensures CountNewer(kept, e) <= CountNewer(all, e)
    decreases |all|
  {
    if |all| > 0 {
      var front, last := all[..|all| - 1], all[|all| - 1];
      assert all == front + [last];
      if last in kept {
        var i :| 0 <= i < |kept| && kept[i] == last;
        var rest := kept[..i] + kept[i + 1..];
        CountWithout(kept, i, e);
        forall j | 0 <= j < |rest|
          ensures rest[j] in front
        {
          RestApart(kept, i, rest[j]);
        }
        WithoutApart(kept, i);
        NewerCount(rest, front, e);
      } else {
        NewerCount(kept, front, e);
      }
    }
  }

  lemma {:induction false} CountAppend(a: seq<Event>, b: seq<Event>, e: Event)
    ensures CountNewer(a + b, e) == CountNewer(a, e) + CountNewer(b, e)
  {
    if |b| == 0 {
      assert a + b == a;
    } else {
      assert (a + b)[..|a + b| - 1] == a + b[..|b| - 1];
      CountAppend(a, b[..|b| - 1], e);
    }
  }

  lemma {:induction false} CountWithout(s: seq<Event>, i: nat, e: Event)
    requires i < |s|
    ensures CountNewer(s, e) == CountNewer(s[..i] + s[i + 1..], e) + if Newer(s[i], e) then 1 else 0
  {
    assert s == s[..i] + ([s[i]] + s[i + 1..]);
    CountAppend(s[..i], [s[i]] + s[i + 1..], e);
    CountAppend([s[i]], s[i + 1..], e);
    CountAppend(s[..i], s[i + 1..], e);
    assert CountNewer([s[i]], e) == if Newer(s[i], e) then 1 else 0 by {
      assert [s[i]][..0] == [];
    }
  }

  lemma {:induction false} RestApart(s: seq<Event>, i: nat, f: Event)
    requires AllApart(s) && i < |s| && f in s[..i] + s[i + 1..]
    ensures f in s && f != s[i]
  {
    var rest := s[..i] + s[i + 1..];
    var j :| 0 <= j < |rest| && rest[j] == f;
    assert f == s[if j < i then j else j + 1];
  }

  lemma {:induction false} WithoutApart(s: seq<Event>, i: nat)
    requires AllApart(s) && i < |s|
    ensures AllApart(s[..i] + s[i + 1..])
  {
    var rest := s[..i] + s[i + 1..];
    assert forall j | 0 <= j < |rest| :: rest[j] == s[if j < i then j else j + 1];
  }

  /** The oldest of a list: everything else in it is newer. */
  lemma {:induction false} OldestOf(s: seq<Event>) returns (i: nat)
    requires |s| > 0 && AllApart(s)
    ensures i < |s| && forall j | 0 <= j < |s| && j != i :: Newer(s[j], s[i])
  {
    hide EventsApart;
    if |s| == 1 {
      i := 0;
    } else {
      var front, last := s[..|s| - 1], s[|s| - 1];
      i := OldestOf(front);
      IdsDiffer(s, i);
      if Newer(s[i], last) {
        i := |s| - 1;
      }
    }
  }

  lemma {:induction false} IdsDiffer(s: seq<Event>, i: nat)
    requires AllApart(s) && i < |s| - 1
    ensures s[i].id != s[|s| - 1].id
  {
    assert EventsApart(s[i], s[|s| - 1]);
  }

  lemma {:induction false} CountAll(s: seq<Event>, e: Event)
    requires forall f <- s :: Newer(f, e)
    ensures CountNewer(s, e) == |s|
  {
    if |s| > 0 {
      CountAll(s[..|s| - 1], e);
      assert s[|s| - 1] in s;
    }
  }

  lemma {:induction false} PrunedIsShort(events: seq<Event>)
    requires AllApart(events)
    ensures |Pruned(events)| <= MAX_HISTORY
  {
    hide EventsApart, KeepNewest, Newer;
    var kept := Pruned(events);
    KeepNewestApart(events, events);
    KeepNewestMembers(events, events);
    if |kept| > 0 {
      var i := OldestOf(kept);
      var rest := kept[..i] + kept[i + 1..];
      forall f | f in rest
        ensures Newer(f, kept[i])
      {
        var j :| 0 <= j < |rest| && rest[j] == f;
        assert f == kept[if j < i then j else j + 1];
      }
      CountAll(rest, kept[i]);
      CountWithout(kept, i, kept[i]);
      assert forall j | 0 <= j < |kept| :: kept[j] in kept;
      NewerCount(kept, events, kept[i]);
    }
  }

  lemma {:induction false} TriggerBoundsHistory(s: State, ref: Ref, given: TriggerInput, eventId: nat, w: World)
    requires Inv(s)
    ensures |AfterTrigger(s, ref, given, eventId, w).events| <= MAX_HISTORY
  {
    hide ReplyToTrigger, Pruned, Meets, NormalizedInput;
    if ReplyToTrigger(s, ref, given, eventId, w).Triggered? {
      TriggeredWhen(s, ref, given, eventId, w);
      GrownApart(s, ReplyToTrigger(s, ref, given, eventId, w).event);
      PrunedIsShort(s.events + [ReplyToTrigger(s, ref, given, eventId, w).event]);
    }
  }

  // ----- Over whole runs -----

  lemma {:induction false} DeletedStaysDeleted(s: State, a: Action, w: World, id: nat)
    requires id < s.nextAlert && id !in s.alerts
    ensures id !in Step(s, a, w).alerts
  {
    hide ReplyToTrigger, Pruned;
  }

  /** The revision of an alert never decreases, and the fields it is judged by change only with it. */
  lemma {:induction false} RevisionsNeverDecrease(start: State, actions: seq<Action>, more: seq<Action>, w: World)
    requires Start(start)
    ensures RevisionsGrow(Run(start, actions, w), Run(start, actions + more, w))
    decreases |more|
  {
    hide Step, EventsForm, Start;
    if |more| == 0 {
      assert actions + more == actions;
    } else {
      var front, a := more[..|more| - 1], more[|more| - 1];
      var s, middle := Run(start, actions, w), Run(start, actions + front, w);
      assert (actions + more)[..|actions + more| - 1] == actions + front;
      RunKeeps(start, actions, w);
      RunKeeps(start, actions + front, w);
      RevisionsNeverDecrease(start, actions, front, w);
      StepRevisions(middle, a, w);
      forall id | id in s.alerts && id in Step(middle, a, w).alerts
        ensures id in middle.alerts
      {
        if id !in middle.alerts {
          DeletedStaysDeleted(middle, a, w, id);
        }
      }
    }
  }

  /** All events ever recorded under one revision of an alert were judged against the same fields, and a
      one-time alert records at most one event for each revision. */
  lemma {:induction false} EventsUnderOneRevision(start: State, actions: seq<Action>, w: World, i: nat, j: nat)
    requires Start(start) && i < j < |Run(start, actions, w).recorded|
    ensures var r, q := Run(start, actions, w).recorded[i], Run(start, actions, w).recorded[j];
            r.alert == q.alert && r.revision == q.revision ==> r.judged == q.judged && r.judged.recurring
  {
    RunKeeps(start, actions, w);
    assert PairAt(Run(start, actions, w), i, j);
  }

  /** No two stored events of an alert share revision and time, and at most 200 events are stored. */
  lemma {:induction false} StoredEventsDiffer(start: State, actions: seq<Action>, w: World, i: nat, j: nat)
    requires Start(start) && i < j < |Run(start, actions, w).events|
    ensures |Run(start, actions, w).events| <= MAX_HISTORY
    ensures var e, f := Run(start, actions, w).events[i], Run(start, actions, w).events[j];
            e.alert.Some? && e.alert == f.alert && e.revision.Some? && e.revision == f.revision ==> e.at != f.at
  {
    RunKeeps(start, actions, w);
    assert EventsApart(Run(start, actions, w).events[i], Run(start, actions, w).events[j]);
  }

  // ----- Retries -----

  lemma {:induction false} CountSelf(events: seq<Event>, e: Event)
    ensures CountNewer(events + [e], e) == CountNewer(events, e)
  {
    assert (events + [e])[..|events|] == events;
  }

  lemma {:induction false} OnlyOne(events: seq<Event>, e: Event, test: Event -> bool)
    requires e in events && test(e) && forall f <- events :: test(f) ==> f == e
    ensures NewestOf(events, test) == Some(e)
  {
  }

  /** Sending the same evidence again returns the event just recorded exactly when that event survived the
      pruning, that is when fewer than 200 stored events are newer, or of the same time with a larger id; then
      nothing changes. */
  lemma {:induction false} RetryReturnsTheEventWhen(s: State, ref: Ref, given: TriggerInput, eventId: nat,
          retryId: nat, w: World)
    requires Inv(s) && ReplyToTrigger(s, ref, given, eventId, w).Triggered?
    ensures var e, r := ReplyToTrigger(s, ref, given, eventId, w).event, AfterTrigger(s, ref, given, eventId, w);
            && (ReplyToTrigger(r, ref, given, retryId, w) == AlreadyTriggered(e)
                <==> CountNewer(s.events, e) < MAX_HISTORY)
            && (CountNewer(s.events, e) < MAX_HISTORY ==> AfterTrigger(r, ref, given, retryId, w) == r)
  {
    hide Meets, NormalizedInput, KeepNewest, AllApart, NearlyEqual, Find;
    var e, r := ReplyToTrigger(s, ref, given, eventId, w).event, AfterTrigger(s, ref, given, eventId, w);
    TriggeredWhen(s, ref, given, eventId, w);
    var id := Find(s, ref).value;
    StoredAfter(s, ref, given, eventId, w);
    SameRow(s, r, ref);
    SameMeeting(s.alerts[id], r.alerts[id], NormalizedInput(given).value, w);
    CloseToItself(e.triggerPrice);
    CloseToItself(e.targetPrice);
    if e in r.events {
      OnlyOne(r.events, e, f => SameAttempt(f, id, s.alerts[id].revision, e.at));
      if !s.alerts[id].recurring {
        assert UnderRevision(e, id, s.alerts[id].revision);
        OnlyOne(r.events, e, f => UnderRevision(f, id, s.alerts[id].revision));
      }
    }
  }

  lemma {:induction false} CloseToItself(x: real)
    ensures NearlyEqual(x, x)
  {
  }

  lemma {:induction false} SameRow(s: State, r: State, ref: Ref)
    requires s.nextAlert == r.nextAlert && s.alerts.Keys == r.alerts.Keys
    requires forall id <- s.alerts :: s.alerts[id].clientId == r.alerts[id].clientId
    ensures Find(s, ref) == Find(r, ref)
  {
    if ref.ByClient? {
      SameClient(s.alerts, r.alerts, s.nextAlert, ref.clientId);
    }
  }

  lemma {:induction false} SameClient(a: map<nat, Alert>, b: map<nat, Alert>, bound: nat, clientId: string)
    requires a.Keys == b.Keys && forall id <- a :: a[id].clientId == b[id].clientId
    ensures FindClient(a, bound, clientId) == FindClient(b, bound, clientId)
  {
    if bound > 0 {
      SameClient(a, b, bound - 1, clientId);
    }
  }

  lemma {:induction false} SameMeeting(a: Alert, b: Alert, input: TriggerInput, w: World)
    requires input.current.Some? && Fields(a) == Fields(b)
    ensures Meets(a, input, w) == Meets(b, input, w)
  {
  }

  /** What is stored after a trigger: the new event if it survived, and nothing else under its attempt - or,
      for a one-time alert, under its revision. */
  lemma {:induction false} StoredAfter(s: State, ref: Ref, given: TriggerInput, eventId: nat, w: World)
    requires Inv(s) && ReplyToTrigger(s, ref, given, eventId, w).Triggered?
    ensures Find(s, ref).Some? && Find(s, ref).value in s.alerts
    ensures var e, r := ReplyToTrigger(s, ref, given, eventId, w).event, AfterTrigger(s, ref, given, eventId, w);
            var id, a := Find(s, ref).value, s.alerts[Find(s, ref).value];
            && (e in r.events <==> CountNewer(s.events, e) < MAX_HISTORY)
            && e.alert == Some(id) && e.revision == Some(a.revision)
            && (forall f <- r.events :: SameAttempt(f, id, a.revision, e.at) ==> f == e)
            && (!a.recurring ==> forall f <- r.events :: UnderRevision(f, id, a.revision) ==> f == e)
  {
    hide Meets, NormalizedInput, KeepNewest, AllApart, ReplyToTrigger;
    TriggeredWhen(s, ref, given, eventId, w);
    var e := ReplyToTrigger(s, ref, given, eventId, w).event;
    var grown := s.events + [e];
    KeepNewestMembers(grown, grown);
    CountSelf(s.events, e);
    assert e in grown;
    forall f | f in AfterTrigger(s, ref, given, eventId, w).events
      ensures f in s.events || f == e
    {
    }
    forall f | f in s.events
      ensures StoredAt(s, f)
    {
    }
  }
}

/** The repository object: each method is one transaction on the alert and event rows of a user. */
module AlertArming {
  import opened Options
  import opened AlertSteps

  class Repo {
    const world: World
    var alerts: map<nat, Alert>
    var events: seq<Event>
    var nextAlert: nat
    ghost var recorded: seq<Recorded>

    ghost function Abstract(): State
      reads this
    {
      State(alerts, events, nextAlert, recorded)
    }

    constructor (w: World)
      ensures Start(Abstract()) && Inv(Abstract()) && world == w
    {
      world := w;
      alerts, events, nextAlert, recorded := map[], [], 0, [];
    }

    method CreateAlert(input: NewAlert) returns (id: nat)
      requires Inv(Abstract())
      modifies this
      ensures Inv(Abstract()) && Abstract() == AfterCreate(old(Abstract()), input)
      ensures id in alerts && alerts[id].clientId == input.clientId
      ensures RevisionsGrow(old(Abstract()), Abstract())
    {
      hide Inv, RevisionsGrow;
      KnownIds(Abstract());
      StepKeeps(Abstract(), Create(input), world);
      StepRevisions(Abstract(), Create(input), world);
      if input.clientId != "" {
        var existing := FindClient(alerts, nextAlert, input.clientId);
        if existing.Some? {
          id := existing.value;
          alerts := alerts[id := Upserted(alerts[id], input)];
          return;
        }
      }
      id := nextAlert;
      alerts := alerts[id := Alert(input.clientId, input.symbol, input.condition, input.price, input.target,
                                   input.recurring, input.enabled, StatusActive, 1)];
      nextAlert := nextAlert + 1;
    }

    method PatchAlert(ref: Ref, change: Change) returns (reply: Option<Alert>)
      requires Inv(Abstract())
      modifies this
      ensures Inv(Abstract()) && Abstract() == AfterPatch(old(Abstract()), ref, change)
      ensures reply.Some? <==> PatchAllowed(change) && Find(old(Abstract()), ref).Some?
      ensures RevisionsGrow(old(Abstract()), Abstract())
    {
      hide Inv, RevisionsGrow;
      KnownIds(Abstract());
      StepKeeps(Abstract(), Patch(ref, change), world);
      StepRevisions(Abstract(), Patch(ref, change), world);
      if change.status == Some(StatusTriggered) {
        return None;
      }
      var id := FindRow(ref);
      if id.None? {
        return None;
      }
      var patched := Patched(alerts[id.value], change);
      alerts := alerts[id.value := patched];
      return Some(patched);
    }

    method FindRow(ref: Ref) returns (id: Option<nat>)
      ensures id == Find(Abstract(), ref)
      ensures id.Some? ==> id.value in alerts
    {
      match ref
      case ById(k) => id := if k in alerts then Some(k) else None;
      case ByClient(clientId) => id := if clientId == "" then None else FindClient(alerts, nextAlert, clientId);
    }

    method DeleteAlert(ref: Ref) returns (found: bool)
      requires Inv(Abstract())
      modifies this
      ensures Inv(Abstract()) && Abstract() == AfterDelete(old(Abstract()), ref)
      ensures found == Find(old(Abstract()), ref).Some?
    {
      hide Inv;
      StepKeeps(Abstract(), Delete(ref), world);
      var id := FindRow(ref);
      if id.None? {
        return false;
      }
      alerts := alerts - {id.value};
      events := Unlink(events, id.value);
      return true;
    }

    /** `eventId` is what the table draws for the new row; a drawn id that is taken fails the insertion. */
    method TriggerAlert(ref: Ref, given: TriggerInput, eventId: nat) returns (reply: Reply)
      requires Inv(Abstract())
      modifies this
      ensures Inv(Abstract()) && Abstract() == AfterTrigger(old(Abstract()), ref, given, eventId, world)
      ensures reply == ReplyToTrigger(old(Abstract()), ref, given, eventId, world)
      ensures !reply.Triggered? ==> Abstract() == old(Abstract())
    {
      hide Inv, Meets, NormalizedInput, Pruned, Find;
      StepKeeps(Abstract(), Trigger(ref, given, eventId), world);
      var normalized := NormalizedInput(given);
      if normalized.None? {
        return Refused;
      }
      InputHasEvidence(given);
      var input := normalized.value;
      var row := FindRow(ref);
      if row.None? {
        return NotFound;
      }
      var id := row.value;
      var alert := alerts[id];
      if input.armingRevision != alert.revision {
        return StaleRevision;
      }
      if alert.status == StatusTriggered {
        var own := NewestOf(events, e => UnderRevision(e, id, alert.revision));
        if own.Some? {
          return AlreadyTriggered(own.value);
        }
        var legacy := NewestOf(events, e => Legacy(e, id));
        if legacy.Some? {
          return AlreadyTriggered(legacy.value);
        }
        return MissingEvent;
      }
      var target := Meets(alert, input, world);
      if target.None? {
        return NotMet;
      }
      var at := world.stamp(input.current.value.timestamp);
      var same := NewestOf(events, e => SameAttempt(e, id, alert.revision, at));
      if same.Some? {
        if !NearlyEqual(same.value.triggerPrice, input.current.value.price)
           || !NearlyEqual(same.value.targetPrice, target.value) {
          return Collision;
        }
        return AlreadyTriggered(same.value);
      }
      if !alert.enabled || alert.status != StatusActive {
        return NotArmed;
      }
      if exists e <- events :: e.id == eventId {
        return IdTaken;
      }
      var event :=
          Event(eventId, Some(id), alert.symbol, alert.condition, target.value, input.current.value.price, at,
                Some(alert.revision));
      alerts := alerts[id := alert.(status := if alert.recurring then StatusActive else StatusTriggered)];
      events := Pruned(events + [event]);
      recorded := recorded + [Recorded(id, alert.revision, Fields(alert), at)];
      return Triggered(event);
    }

    method Clear()
      requires Inv(Abstract())
      modifies this
      ensures Inv(Abstract()) && Abstract() == Step(old(Abstract()), ClearHistory, world)
      ensures events == []
    {
      hide Inv;
      StepKeeps(Abstract(), ClearHistory, world);
      events := [];
    }
  }

  lemma {:induction false} KnownIds(s: State)
    requires Inv(s)
    ensures forall id <- s.alerts :: id < s.nextAlert
  {
  }

  lemma {:induction false} InputHasEvidence(given: TriggerInput)
    requires NormalizedInput(given).Some?
    ensures NormalizedInput(given).value.current.Some?
  {
  }
}
