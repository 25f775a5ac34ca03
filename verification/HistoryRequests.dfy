/** Requests for history: a table of waiting requests that answers, disconnects and callers giving up
    take entries from, and the cache that answers are merged into.  Each locked section is one step. */
module HistorySteps {
  import opened Sequences
  import opened Options
  import opened Candles
  import opened CandleMaps
  import opened HistoryCache

  /** A request's reply channel, with room for one message. */
  datatype Channel = Channel(series: string, buffer: Option<HistoryMessage>, closed: bool)

  /** An answer taken from the table but not yet put into its channel. */
  datatype Sending = Sending(channel: nat, message: HistoryMessage)

  type Cache = map<string, map<int, Candle>>

  /** What a page was recorded from: the candles of an answer, and the series the answer named. */
  datatype Loaded = Loaded(series: string, candles: seq<Candle>)

  /** `conn` is there when a connection is; `used` are the request ids drawn so far; `loaded` is what is behind
      each recorded page. */
  datatype State = State(
    conn: bool,
    connected: bool,
    cache: Cache,
    pages: map<string, Pages>,
    loaded: map<string, map<int, Loaded>>,
    pending: map<string, nat>,
    channels: seq<Channel>,
    sending: seq<Sending>,
    used: set<string>)

  datatype Action =
    | SetConn
    | SetConnected(value: bool)
    | Register(id: string, series: string)
    | Receive(message: HistoryMessage)
    | Send(place: nat)
    | Abandon(id: string)
    | ClearConn(current: bool)
    | RecordPage(channel: nat, before: int, limit: int, normalized: seq<Candle>)

  function Init(): State {
    State(false, false, map[], map[], map[], map[], [], [], {})
  }

  function CacheOf(cache: Cache, series: string): map<int, Candle> {
    if series in cache then cache[series] else map[]
  }

  function PagesOf(pages: map<string, Pages>, series: string): Pages {
    if series in pages then pages[series] else map[]
  }

  function LoadedOf(loaded: map<string, map<int, Loaded>>, series: string): map<int, Loaded> {
    if series in loaded then loaded[series] else map[]
  }

  predicate Accepts(s: State, m: HistoryMessage) {
    m.requestId == "" || m.requestId in s.pending
  }

  predicate MayMerge(m: HistoryMessage) {
    m.series != "" && !m.failed
  }

  /** applyHistory, up to the unlock. */
  function AfterReceive(s: State, m: HistoryMessage): State {
    var merged := if Accepts(s, m) && MayMerge(m)
                  then s.(cache := s.cache[m.series := Merged(CacheOf(s.cache, m.series), m)], connected := true)
                  else s;
    if m.requestId in s.pending && m.requestId != "" then
      merged.(pending := s.pending - {m.requestId}, sending := s.sending + [Sending(s.pending[m.requestId], m)])
    else merged
  }

  /** The send itself: a full channel drops the message. */
  function AfterSend(s: State, i: nat): State {
    if i >= |s.sending| || s.sending[i].channel >= |s.channels| then s
    else
      var c, sent := s.sending[i].channel, s.(sending := Without(s.sending, i));
      if s.channels[c].buffer.Some? then sent
      else sent.(channels := s.channels[c := s.channels[c].(buffer := Some(s.sending[i].message))])
  }

  function CloseAll(channels: seq<Channel>, closing: set<nat>): seq<Channel> {
    seq(|channels|, c requires 0 <= c < |channels| => if c in closing then channels[c].(closed := true)
        else channels[c])
  }

  predicate Stored(pages: Pages, before: int, limit: int, cs: seq<Candle>) {
    before > 0 && |cs| > 0 && cs[|cs| - 1].time < before
      && !(before in pages && pages[before].limit > ClampLimit(limit))
  }

  function AfterRecord(s: State, c: nat, before: int, limit: int, cs: seq<Candle>): State {
    if c >= |s.channels| || s.channels[c].buffer.None? || s.channels[c].buffer.value.failed then s
    else if !Ascending(cs) || ByTime(cs) != ByTime(s.channels[c].buffer.value.candles) then s
    else
      var series, pages := s.channels[c].series, PagesOf(s.pages, s.channels[c].series);
      var m := s.channels[c].buffer.value;
      s.(pages := s.pages[series := Recorded(pages, before, limit, cs, m.hasMore)],
         loaded := if Stored(pages, before, limit, cs)
                   then s.loaded[series := LoadedOf(s.loaded, series)[before := Loaded(m.series, cs)]]
                   else s.loaded)
  }

  function Step(s: State, a: Action): State {
    match a
    case SetConn => s.(conn := true)
    case SetConnected(value) => s.(connected := value)
    case Register(id, series) =>
      if !s.conn || !s.connected || id in s.used || id == "" || series == "" then s
      else
        s.(channels := s.channels + [Channel(series, None, false)],
           pending := s.pending[id := |s.channels|],
           used := s.used + {id})
    case Receive(m) => AfterReceive(s, m)
    case Send(place) => AfterSend(s, place)
    case Abandon(id) => s.(pending := s.pending - {id})
    case ClearConn(current) =>
      s.(conn := s.conn && !current, channels := CloseAll(s.channels, s.pending.Values), pending := map[])
    case RecordPage(c, before, limit, cs) => AfterRecord(s, c, before, limit, cs)
  }

  function Run(actions: seq<Action>): State {
    if |actions| == 0 then Init() else Step(Run(actions[..|actions| - 1]), actions[|actions| - 1])
  }

  // ----- What every step keeps -----

  /** An open, empty channel for each waiting request, no two sharing one. */
  predicate TableForm(s: State) {
    && (forall id <- s.pending ::
          id in s.used && id != "" && s.pending[id] < |s.channels| && OpenEmpty(s, s.pending[id]))
    && (forall id, other | id in s.pending && other in s.pending && s.pending[id] == s.pending[other] :: id == other)
  }

  predicate OpenEmpty(s: State, c: nat)
    requires c < |s.channels|
  {
    s.channels[c].buffer.None? && !s.channels[c].closed && s.channels[c].series != ""
  }

  predicate SendingAt(s: State, i: nat)
    requires i < |s.sending|
  {
    var c := s.sending[i].channel;
    && c < |s.channels| && OpenEmpty(s, c)
    && c !in s.pending.Values
    && Held(s, s.sending[i].message)
  }

  /** Answers on their way have an open, empty channel of their own. */
  predicate SendingForm(s: State) {
    && (forall i | 0 <= i < |s.sending| :: SendingAt(s, i))
    && (forall i, j | 0 <= i < j < |s.sending| :: s.sending[i].channel != s.sending[j].channel)
  }

  /** Everything a good answer brought is cached under the series it names. */
  predicate Held(s: State, m: HistoryMessage) {
    MayMerge(m) ==> forall t <- ByTime(m.candles) :: t in CacheOf(s.cache, m.series)
  }

  predicate ChannelForm(s: State) {
    forall c | 0 <= c < |s.channels| :: ChannelAt(s, c)
  }

  predicate ChannelAt(s: State, c: nat)
    requires c < |s.channels|
  {
    s.channels[c].buffer.Some? ==>
      && !s.channels[c].closed
      && Held(s, s.channels[c].buffer.value)
  }

  predicate PageAt(s: State, series: string, before: int)
    requires series in s.pages && before in s.pages[series]
  {
    && before in LoadedOf(s.loaded, series)
    && var l, coverage := LoadedOf(s.loaded, series)[before], s.pages[series][before];
       && |l.candles| > 0 && Ascending(l.candles)
       && coverage.firstTime == l.candles[0].time && coverage.lastTime == l.candles[|l.candles| - 1].time < before
       && (l.series != "" ==> forall c <- l.candles :: c.time in CacheOf(s.cache, l.series))
  }

  /** Every candle time of a recorded page is still cached under the series its answer named, and few pages are
      recorded. */
  predicate PagesForm(s: State) {
    forall series <- s.pages :: |s.pages[series]| <= MAX_PAGES && forall before <- s.pages[series] ::
           PageAt(s, series, before)
  }

  predicate Inv(s: State) {
    TableForm(s) && SendingForm(s) && ChannelForm(s) && PagesForm(s)
  }

  /** Cached times stay cached. */
  ghost predicate CacheGrows(a: Cache, b: Cache) {
    forall series: string, t: int :: t in CacheOf(a, series) ==> t in CacheOf(b, series)
  }

  lemma {:induction false} ReceiveGrows(s: State, m: HistoryMessage)
    ensures CacheGrows(s.cache, AfterReceive(s, m).cache)
    ensures Accepts(s, m) && MayMerge(m) ==> Held(AfterReceive(s, m), m)
  {
  }

  lemma {:induction false} HeldStays(a: State, b: State, m: HistoryMessage)
    requires CacheGrows(a.cache, b.cache) && Held(a, m)
    ensures Held(b, m)
  {
  }

  lemma {:induction false} ReceiveKeepsRequests(s: State, m: HistoryMessage)
    requires TableForm(s) && SendingForm(s)
    ensures TableForm(AfterReceive(s, m)) && SendingForm(AfterReceive(s, m))
  {
    hide SendingAt, OpenEmpty, Held, Merged, CacheOf, Conservative, AfterReceive;
    var r := AfterReceive(s, m);
    ReceiveKeepsTable(s, m);
    forall i | 0 <= i < |r.sending|
      ensures SendingAt(r, i)
    {
      ReceivedSendingAt(s, m, i);
    }
    forall i, j | 0 <= i < j < |r.sending|
      ensures r.sending[i].channel != r.sending[j].channel
    {
      ReceivedSendingsDiffer(s, m, i, j);
    }
  }

  lemma {:induction false} ReceiveKeepsTable(s: State, m: HistoryMessage)
    requires TableForm(s)
    ensures TableForm(AfterReceive(s, m))
  {
    hide Merged, CacheOf, Conservative;
  }

  lemma {:induction false} ReceivedSendingAt(s: State, m: HistoryMessage, i: nat)
    requires TableForm(s) && SendingForm(s) && i < |AfterReceive(s, m).sending|
    ensures SendingAt(AfterReceive(s, m), i)
  {
    hide Held, Merged, CacheOf, Conservative;
    var r := AfterReceive(s, m);
    ReceiveGrows(s, m);
    if i < |s.sending| {
      assert SendingAt(s, i);
      HeldStays(s, r, s.sending[i].message);
    } else if !MayMerge(m) {
      UnmergedHolds(r, m);
    }
  }

  lemma {:induction false} ReceivedSendingsDiffer(s: State, m: HistoryMessage, i: nat, j: nat)
    requires TableForm(s) && SendingForm(s) && i < j < |AfterReceive(s, m).sending|
    ensures AfterReceive(s, m).sending[i].channel != AfterReceive(s, m).sending[j].channel
  {
    hide Held, Merged, CacheOf, Conservative, OpenEmpty;
    assert SendingAt(s, i);
  }

  lemma {:induction false} UnmergedHolds(s: State, m: HistoryMessage)
    requires !MayMerge(m)
    ensures Held(s, m)
  {
  }

  lemma {:induction false} ReceiveKeepsPages(s: State, m: HistoryMessage)
    requires ChannelForm(s) && PagesForm(s)
    ensures ChannelForm(AfterReceive(s, m)) && PagesForm(AfterReceive(s, m))
  {
    hide Merged, Held, Ascending, CacheOf;
    var r := AfterReceive(s, m);
    ReceiveGrows(s, m);
    forall c | 0 <= c < |r.channels|
      ensures ChannelAt(r, c)
    {
      assert ChannelAt(s, c);
      if s.channels[c].buffer.Some? {
        HeldStays(s, r, s.channels[c].buffer.value);
      }
    }
    forall series, before | series in r.pages && before in r.pages[series]
      ensures PageAt(r, series, before)
    {
      assert PageAt(s, series, before);
    }
  }

  lemma {:induction false} SendKeeps(s: State, i: nat)
    requires Inv(s)
    ensures Inv(AfterSend(s, i))
  {
    hide Held, Ascending, CacheOf;
    var r := AfterSend(s, i);
    if i < |s.sending| {
      assert SendingAt(s, i);
      var c := s.sending[i].channel;
      forall j | 0 <= j < |r.sending|
        ensures SendingAt(r, j)
      {
        var k := if j < i then j else j + 1;
        assert r.sending[j] == s.sending[k] && SendingAt(s, k);
        SameHeld(s, r, s.sending[k].message);
      }
      forall d | 0 <= d < |r.channels|
        ensures ChannelAt(r, d)
      {
        assert ChannelAt(s, d);
        SameHeld(s, r, s.sending[i].message);
        if s.channels[d].buffer.Some? {
          SameHeld(s, r, s.channels[d].buffer.value);
        }
      }
      forall id | id in r.pending
        ensures OpenEmpty(r, r.pending[id])
      {
        assert s.pending[id] != c;
      }
      SamePages(s, r);
    }
  }

  lemma {:induction false} SameHeld(s: State, r: State, m: HistoryMessage)
    requires s.cache == r.cache
    ensures Held(s, m) == Held(r, m)
  {
  }

  lemma {:induction false} SamePages(s: State, r: State)
    requires s.cache == r.cache && s.pages == r.pages && s.loaded == r.loaded && PagesForm(s)
    ensures PagesForm(r)
  {
  }

  lemma {:induction false} RegisterKeeps(s: State, id: string, series: string)
    requires Inv(s)
    ensures Inv(Step(s, Register(id, series)))
  {
    hide Held, PageAt, CacheOf;
    var r := Step(s, Register(id, series));
    forall i | 0 <= i < |r.sending|
      ensures SendingAt(r, i)
    {
      assert SendingAt(s, i);
      SameHeld(s, r, s.sending[i].message);
    }
    forall c | 0 <= c < |r.channels|
      ensures ChannelAt(r, c)
    {
      if c < |s.channels| {
        assert ChannelAt(s, c);
        if s.channels[c].buffer.Some? {
          SameHeld(s, r, s.channels[c].buffer.value);
        }
      }
    }
    forall k | k in r.pending
      ensures r.pending[k] < |r.channels| && OpenEmpty(r, r.pending[k])
    {
      if r != s && k != id {
        assert OpenEmpty(s, s.pending[k]);
      }
    }
    SamePages(s, r);
  }

  lemma {:induction false} AbandonKeeps(s: State, id: string)
    requires Inv(s)
    ensures Inv(Step(s, Abandon(id)))
  {
    hide Held, PageAt, CacheOf;
    var r := Step(s, Abandon(id));
    forall i | 0 <= i < |r.sending|
      ensures SendingAt(r, i)
    {
      assert SendingAt(s, i);
      SameHeld(s, r, s.sending[i].message);
    }
    forall c | 0 <= c < |r.channels|
      ensures ChannelAt(r, c)
    {
      assert ChannelAt(s, c);
      if s.channels[c].buffer.Some? {
        SameHeld(s, r, s.channels[c].buffer.value);
      }
    }
    SamePages(s, r);
  }

  lemma {:induction false} ClearConnKeeps(s: State, current: bool)
    requires Inv(s)
    ensures Inv(Step(s, ClearConn(current)))
  {
    hide Held, PageAt, CacheOf;
    var r := Step(s, ClearConn(current));
    forall i | 0 <= i < |r.sending|
      ensures SendingAt(r, i)
    {
      assert SendingAt(s, i);
      SameHeld(s, r, s.sending[i].message);
    }
    forall c | 0 <= c < |r.channels|
      ensures ChannelAt(r, c)
    {
      assert ChannelAt(s, c);
      if s.channels[c].buffer.Some? {
        SameHeld(s, r, s.channels[c].buffer.value);
        assert c !in s.pending.Values by {
          assert forall id <- s.pending :: OpenEmpty(s, s.pending[id]);
        }
      }
    }
    SamePages(s, r);
  }

  lemma {:induction false} RecordKeeps(s: State, c: nat, before: int, limit: int, cs: seq<Candle>)
    requires Inv(s)
    ensures Inv(AfterRecord(s, c, before, limit, cs))
  {
    hide Held, CacheOf, Ascending, Recorded, ByTime;
    var r := AfterRecord(s, c, before, limit, cs);
    if r != s {
      forall i | 0 <= i < |r.sending|
        ensures SendingAt(r, i)
      {
        assert SendingAt(s, i);
        SameHeld(s, r, s.sending[i].message);
      }
      forall d | 0 <= d < |r.channels|
        ensures ChannelAt(r, d)
      {
        assert ChannelAt(s, d);
        if s.channels[d].buffer.Some? {
          SameHeld(s, r, s.channels[d].buffer.value);
        }
      }
      assert ChannelAt(s, c);
      RecordKeepsPages(s, c, before, limit, cs);
    }
  }

  lemma {:induction false} RecordedAt(pages: Pages, before: int, limit: int, cs: seq<Candle>, hasMore: Option<bool>,
          cursor: int)
    requires cursor in Recorded(pages, before, limit, cs, hasMore)
    ensures if cursor == before && Stored(pages, before, limit, cs)
            then Recorded(pages, before, limit, cs, hasMore)[cursor] == CoverageOf(cs, limit, hasMore)
            else cursor in pages && Recorded(pages, before, limit, cs, hasMore)[cursor] == pages[cursor]
  {
  }

  lemma {:induction false} OwnPageAt(s: State, c: nat, before: int, limit: int, cs: seq<Candle>, cursor: int)
    requires PagesForm(s) && c < |s.channels| && ChannelAt(s, c) && AfterRecord(s, c, before, limit, cs) != s
    requires cursor in AfterRecord(s, c, before, limit, cs).pages[s.channels[c].series]
    ensures PageAt(AfterRecord(s, c, before, limit, cs), s.channels[c].series, cursor)
  {
    hide Recorded, Ascending, ByTime, CacheOf;
    var own, message := s.channels[c].series, s.channels[c].buffer.value;
    AllCached(cs, message, s);
    RecordedAt(PagesOf(s.pages, own), before, limit, cs, message.hasMore, cursor);
    if !(cursor == before && Stored(PagesOf(s.pages, own), before, limit, cs)) {
      assert PageAt(s, own, cursor);
    }
  }

  lemma {:induction false} RecordKeepsPages(s: State, c: nat, before: int, limit: int, cs: seq<Candle>)
    requires PagesForm(s) && c < |s.channels| && ChannelAt(s, c) && AfterRecord(s, c, before, limit, cs) != s
    ensures PagesForm(AfterRecord(s, c, before, limit, cs))
  {
    hide Recorded, Ascending, ByTime, CacheOf, Held;
    var r, own, message := AfterRecord(s, c, before, limit, cs), s.channels[c].series, s.channels[c].buffer.value;
    PagesBounded(PagesOf(s.pages, own), before, limit, cs, message.hasMore);
    forall series, cursor | series in r.pages && cursor in r.pages[series]
      ensures PageAt(r, series, cursor)
    {
      if series == own {
        OwnPageAt(s, c, before, limit, cs, cursor);
      } else {
        assert PageAt(s, series, cursor);
      }
    }
  }

  lemma {:induction false} AllCached(cs: seq<Candle>, m: HistoryMessage, s: State)
    requires ByTime(cs) == ByTime(m.candles) && Held(s, m) && !m.failed
    ensures m.series != "" ==> forall c <- cs :: c.time in CacheOf(s.cache, m.series)
  {
  }

  lemma {:induction false} StepKeeps(s: State, a: Action)
    requires Inv(s)
    ensures Inv(Step(s, a))
  {
    hide TableForm, SendingForm, ChannelForm, PagesForm, AfterReceive, AfterSend, AfterRecord, CloseAll;
    match a
    case SetConn => FlagsKeep(s, true, s.connected);
    case SetConnected(value) => FlagsKeep(s, s.conn, value);
    case Register(id, series) => RegisterKeeps(s, id, series);
    case Receive(m) =>
      ReceiveKeepsRequests(s, m);
      ReceiveKeepsPages(s, m);
    case Send(place) => SendKeeps(s, place);
    case Abandon(id) => AbandonKeeps(s, id);
    case ClearConn(current) => ClearConnKeeps(s, current);
    case RecordPage(c, before, limit, cs) => RecordKeeps(s, c, before, limit, cs);
  }

  lemma {:induction false} FlagsKeep(s: State, conn: bool, connected: bool)
    requires Inv(s)
    ensures Inv(s.(conn := conn, connected := connected))
  {
    hide Held, PageAt;
    var r := s.(conn := conn, connected := connected);
    forall i | 0 <= i < |r.sending|
      ensures SendingAt(r, i)
    {
      assert SendingAt(s, i);
      SameHeld(s, r, s.sending[i].message);
    }
    forall c | 0 <= c < |r.channels|
      ensures ChannelAt(r, c)
    {
      assert ChannelAt(s, c);
      if s.channels[c].buffer.Some? {
        SameHeld(s, r, s.channels[c].buffer.value);
      }
    }
    SamePages(s, r);
  }

  lemma {:induction false} RunKeeps(actions: seq<Action>)
    ensures Inv(Run(actions))
  {
    hide Step, Inv;
    if |actions| == 0 {
      InitHolds();
    } else {
      RunKeeps(actions[..|actions| - 1]);
      StepKeeps(Run(actions[..|actions| - 1]), actions[|actions| - 1]);
    }
  }

  lemma {:induction false} InitHolds()
    ensures Inv(Init())
  {
  }

  // ----- Late answers -----

  /** An answer to a request that is no longer waiting changes nothing at all. */
  lemma {:induction false} LateAnswersChangeNothing(s: State, m: HistoryMessage)
    requires m.requestId != "" && m.requestId !in s.pending
    ensures AfterReceive(s, m) == s
  {
  }

  predicate Spent(s: State, id: string) {
    id in s.used && id !in s.pending
  }

  lemma {:induction false} SpentStep(s: State, a: Action, id: string)
    requires Spent(s, id)
    ensures Spent(Step(s, a), id)
  {
    hide AfterRecord, CloseAll, Merged, Without;
    RecordLeavesTable(s, a);
  }

  /** Ids being fresh, a request that was answered, abandoned or cut off never waits again. */
  lemma {:induction false} SpentStays(actions: seq<Action>, more: seq<Action>, id: string)
    requires Spent(Run(actions), id)
    ensures Spent(Run(actions + more), id)
    decreases |more|
  {
    hide Step, Spent;
    if |more| == 0 {
      assert actions + more == actions;
    } else {
      SpentStays(actions, more[..|more| - 1], id);
      assert (actions + more)[..|actions + more| - 1] == actions + more[..|more| - 1];
      SpentStep(Run(actions + more[..|more| - 1]), more[|more| - 1], id);
    }
  }

  lemma {:induction false} RecordLeavesTable(s: State, a: Action)
    ensures a.RecordPage? ==> Step(s, a).pending == s.pending && Step(s, a).used == s.used
  {
  }

  /** However late an answer to an abandoned request comes, it changes nothing. */
  lemma {:induction false} AbandonedStaysAbandoned(actions: seq<Action>, more: seq<Action>, m: HistoryMessage)
    requires m.requestId != "" && m.requestId in Run(actions).used
    ensures var later := actions + [Abandon(m.requestId)] + more;
            Run(later + [Receive(m)]) == Run(later)
  {
    hide Step, AfterReceive;
    var given := actions + [Abandon(m.requestId)];
    assert given[..|given| - 1] == actions;
    assert Spent(Run(given), m.requestId) by {
      AbandonSpends(Run(actions), m.requestId);
    }
    SpentStays(given, more, m.requestId);
    LateAnswersChangeNothing(Run(given + more), m);
    assert (given + more + [Receive(m)])[..|given + more|] == given + more;
    ReceiveStep(Run(given + more), m);
  }

  lemma {:induction false} AbandonSpends(s: State, id: string)
    requires id in s.used
    ensures Spent(Step(s, Abandon(id)), id)
  {
  }

  lemma {:induction false} ReceiveStep(s: State, m: HistoryMessage)
    ensures Step(s, Receive(m)) == AfterReceive(s, m)
  {
  }

  // ----- One taker for each channel -----

  datatype Status = Waiting | Answered | Closed | GivenUp

  /** Who took a channel: nobody yet, a response, a disconnect, or its own caller. */
  function StatusOf(s: State, c: nat): Status
    requires c < |s.channels|
  {
    if c in s.pending.Values then Waiting
    else if s.channels[c].buffer.Some? || exists i | 0 <= i < |s.sending| :: s.sending[i].channel == c then Answered
    else if s.channels[c].closed then Closed
    else GivenUp
  }

  /** Only a waiting channel changes hands, and only once. */
  lemma {:induction false} TakenOnce(s: State, a: Action, c: nat)
    requires Inv(s) && c < |s.channels|
    ensures c < |Step(s, a).channels|
    ensures StatusOf(s, c) != Waiting ==> StatusOf(Step(s, a), c) == StatusOf(s, c)
  {
    hide Held, PagesForm, Merged, Recorded, ChannelForm, CacheOf, AfterReceive, AfterSend, AfterRecord;
    ChannelsStay(s, a);
    match a
    case RecordPage(d, before, limit, cs) => RecordedStatus(s, d, before, limit, cs, c);
    case Send(place) => SentStatus(s, place, c);
    case Receive(m) =>
      if StatusOf(s, c) != Waiting {
        ReceivedStatus(s, m, c);
      }
    case Register(id, series) =>
      if StatusOf(s, c) != Waiting {
        RegisteredStatus(s, id, series, c);
      }
    case _ =>
  }

  lemma {:induction false} RegisteredStatus(s: State, id: string, series: string, c: nat)
    requires c < |s.channels| && StatusOf(s, c) != Waiting
    ensures c < |Step(s, Register(id, series)).channels| && StatusOf(Step(s, Register(id, series)), c) == StatusOf(s, c)
  {
    hide CacheOf;
    var r := Step(s, Register(id, series));
    assert c !in r.pending.Values;
  }

  lemma {:induction false} RecordedStatus(s: State, d: nat, before: int, limit: int, cs: seq<Candle>, c: nat)
    requires c < |s.channels|
    ensures AfterRecord(s, d, before, limit, cs).channels == s.channels
    ensures StatusOf(AfterRecord(s, d, before, limit, cs), c) == StatusOf(s, c)
  {
    hide Recorded, Ascending, ByTime, CacheOf;
  }

  lemma {:induction false} ChannelsStay(s: State, a: Action)
    ensures |s.channels| <= |Step(s, a).channels|
    ensures a.Receive? ==> Step(s, a) == AfterReceive(s, a.message)
    ensures a.Send? ==> Step(s, a) == AfterSend(s, a.place)
  {
    hide Merged, Recorded, Ascending, ByTime, CacheOf;
  }

  lemma {:induction false} SentStatus(s: State, place: nat, c: nat)
    requires SendingForm(s) && c < |s.channels|
    ensures StatusOf(AfterSend(s, place), c) == StatusOf(s, c)
  {
    hide Held, CacheOf;
    if place < |s.sending| {
      assert SendingAt(s, place);
      var r, d := AfterSend(s, place), s.sending[place].channel;
      if c == d {
        assert s.sending[place].channel == c;
      } else {
        assert forall i | 0 <= i < |r.sending| :: r.sending[i] == s.sending[if i < place then i else i + 1];
        if i :| 0 <= i < |s.sending| && s.sending[i].channel == c {
          assert r.sending[if i < place then i else i - 1].channel == c;
        }
      }
    }
  }

  lemma {:induction false} ReceivedStatus(s: State, m: HistoryMessage, c: nat)
    requires c < |s.channels| && c !in s.pending.Values
    ensures StatusOf(AfterReceive(s, m), c) == StatusOf(s, c)
  {
    hide Merged, CacheOf;
    var r := AfterReceive(s, m);
    assert forall i | 0 <= i < |s.sending| :: r.sending[i] == s.sending[i];
  }

  /** Nothing is sent on a closed channel, and no answer is dropped because its channel is full. */
  lemma {:induction false} SendsArrive(s: State, i: nat)
    requires Inv(s) && i < |s.sending|
    ensures var c := s.sending[i].channel;
            && c < |s.channels| && !s.channels[c].closed
            && AfterSend(s, i).channels[c].buffer == Some(s.sending[i].message)
  {
    assert SendingAt(s, i);
  }

  // ----- The cache -----

  /** A conservative answer alters no cached candle; any answer only adds times. */
  lemma {:induction false} MergesKeepTimes(m: map<int, Candle>, message: HistoryMessage)
    ensures m.Keys <= Merged(m, message).Keys
    ensures Conservative(message) ==> forall t <- m :: Merged(m, message)[t] == m[t]
    ensures !Conservative(message) ==> forall t <- ByTime(message.candles) ::
            Merged(m, message)[t] == ByTime(message.candles)[t]
  {
  }

  /** The messages for one series that a run accepted, in order. */
  function AcceptedMessages(actions: seq<Action>, series: string): seq<HistoryMessage> {
    if |actions| == 0 then []
    else
      var before, a := actions[..|actions| - 1], actions[|actions| - 1];
      AcceptedMessages(before, series)
      + if a.Receive? && a.message.series == series && MayMerge(a.message)
        && Accepts(Run(before), a.message) then [a.message] else []
  }

  function Fold(messages: seq<HistoryMessage>): map<int, Candle> {
    if |messages| == 0 then map[] else Merged(Fold(messages[..|messages| - 1]), messages[|messages| - 1])
  }

  lemma {:induction false} AcceptedNext(actions: seq<Action>, a: Action, series: string)
    ensures AcceptedMessages(actions + [a], series)
            == AcceptedMessages(actions, series)
               + if a.Receive? && a.message.series == series && MayMerge(a.message)
                 && Accepts(Run(actions), a.message) then [a.message] else []
  {
  }

  lemma {:induction false} FoldNext(messages: seq<HistoryMessage>, m: HistoryMessage)
    ensures Fold(messages + [m]) == Merged(Fold(messages), m)
  {
  }

  lemma {:induction false} ReceiveMerges(s: State, m: HistoryMessage, series: string)
    ensures CacheOf(AfterReceive(s, m).cache, series)
            == if m.series == series && MayMerge(m)
              && Accepts(s, m) then Merged(CacheOf(s.cache, series), m) else CacheOf(s.cache, series)
  {
    hide Merged;
  }

  lemma {:induction false} NothingReceived(series: string)
    ensures CacheOf(Init().cache, series) == Fold(AcceptedMessages([], series))
  {
  }

  /** The cache is the fold of the accepted messages. */
  lemma {:induction false} CacheIsFold(actions: seq<Action>, series: string)
    ensures CacheOf(Run(actions).cache, series) == Fold(AcceptedMessages(actions, series))
  {
    hide Merged, AcceptedMessages, Fold, CacheOf, Step, Accepts, MayMerge;
    if |actions| == 0 {
      NothingReceived(series);
    } else {
      var before, a := actions[..|actions| - 1], actions[|actions| - 1];
      assert actions == before + [a];
      CacheIsFold(before, series);
      AcceptedNext(before, a, series);
      if a.Receive? {
        ReceiveStep(Run(before), a.message);
        ReceiveMerges(Run(before), a.message, series);
        FoldNext(AcceptedMessages(before, series), a.message);
      } else {
        RecordLeavesCache(Run(before), a);
      }
      assert AcceptedMessages(before, series) + [] == AcceptedMessages(before, series);
    }
  }

  lemma {:induction false} RecordLeavesCache(s: State, a: Action)
    ensures !a.Receive? ==> Step(s, a).cache == s.cache
  {
  }

  lemma {:induction false} StepGrows(s: State, a: Action)
    ensures CacheGrows(s.cache, Step(s, a).cache)
  {
    hide AfterReceive;
    RecordLeavesCache(s, a);
    if a.Receive? {
      ReceiveGrows(s, a.message);
    }
  }

  lemma {:induction false} RunGrows(actions: seq<Action>, more: seq<Action>)
    ensures CacheGrows(Run(actions).cache, Run(actions + more).cache)
    decreases |more|
  {
    hide Step, CacheOf;
    if |more| == 0 {
      assert actions + more == actions;
    } else {
      var less := more[..|more| - 1];
      RunGrows(actions, less);
      assert (actions + more)[..|actions + more| - 1] == actions + less;
      StepGrows(Run(actions + less), more[|more| - 1]);
    }
  }

  /** A loaded candle is on the page, or the page says that something older was cut. */
  ghost predicate ShownOrCut(page: Page, cached: seq<Candle>, time: int) {
    exists d <- cached ::
      d.time == time && (d in page.candles || (page.hasMore == Some(true) && Older(d, page.candles)))
  }

  predicate Older(d: Candle, cs: seq<Candle>) {
    forall e <- cs :: d.time < e.time
  }

  /** The page was recorded from an answer that named its own series, as the bridge is meant to. */
  predicate Echoed(s: State, series: string, before: int) {
    before in LoadedOf(s.loaded, series) && LoadedOf(s.loaded, series)[before].series == series != ""
  }

  /** A page cut for a recorded cursor is ascending, all before the cursor, and of the candle times it was loaded with
      it accounts for exactly those cached under its series when it is cut. */
  lemma {:induction false} PageShowsWhen(s: State, series: string, before: int, cached: seq<Candle>, limit: int)
    requires series in s.pages && before in s.pages[series] && PageAt(s, series, before) && Ascending(cached)
    ensures var page := PageOf(cached, s.pages[series][before], limit);
            && Ascending(page.candles) && (forall c <- page.candles :: c in cached && c.time < before)
            && forall c <- LoadedOf(s.loaded, series)[before].candles ::
                 ShownOrCut(page, cached, c.time) <==> c.time in ByTime(cached)
  {
    hide PageOf, CacheOf, Ascending, ByTime;
    var coverage, cs := s.pages[series][before], LoadedOf(s.loaded, series)[before].candles;
    ServedPage(cached, coverage, before, limit);
    forall c | c in cs
      ensures ShownOrCut(PageOf(cached, coverage, limit), cached, c.time) <==> c.time in ByTime(cached)
    {
      if c.time in ByTime(cached) {
        var d := ByTime(cached)[c.time];
        LoadedWithin(cs, c);
        assert Within(d, coverage.firstTime, coverage.lastTime);
      }
    }
  }

  /** The coverage of a cursor is read in one section and the candles in a later one: whatever happens between, and
      whatever series the answer behind the page named, the page accounts for exactly the loaded times that its own
      series has cached by then. */
  lemma {:induction false} ServedPageShowsWhen(actions: seq<Action>, more: seq<Action>, series: string, before: int,
          cached: seq<Candle>, limit: int)
    requires series in Run(actions).pages && before in Run(actions).pages[series]
    requires Ascending(cached) && ByTime(cached) == CacheOf(Run(actions + more).cache, series)
    ensures before in LoadedOf(Run(actions).loaded, series)
    ensures var page := PageOf(cached, Run(actions).pages[series][before], limit);
            && Ascending(page.candles) && (forall c <- page.candles :: c in cached && c.time < before)
            && forall c <- LoadedOf(Run(actions).loaded, series)[before].candles ::
                 ShownOrCut(page, cached, c.time) <==> c.time in CacheOf(Run(actions + more).cache, series)
  {
    hide Run, PageOf, PageAt, CacheOf, TableForm, SendingForm, ChannelForm, ShownOrCut;
    RunKeeps(actions);
    var s := Run(actions);
    assert PageAt(s, series, before);
    PageHasLoaded(s, series, before);
    PageShowsWhen(s, series, before, cached, limit);
  }

  lemma {:induction false} PageHasLoaded(s: State, series: string, before: int)
    requires series in s.pages && before in s.pages[series] && PageAt(s, series, before)
    ensures before in LoadedOf(s.loaded, series)
    ensures Echoed(s, series, before) ==>
              forall c <- LoadedOf(s.loaded, series)[before].candles :: c.time in CacheOf(s.cache, series)
  {
  }

  /** Where the answer behind a page named its own series, the page accounts for every time it was loaded with. */
  lemma {:induction false} ServedPagesAreWhole(actions: seq<Action>, more: seq<Action>, series: string, before: int,
          cached: seq<Candle>, limit: int)
    requires series in Run(actions).pages && before in Run(actions).pages[series]
             && Echoed(Run(actions), series, before)
    requires Ascending(cached) && ByTime(cached) == CacheOf(Run(actions + more).cache, series)
    ensures var page := PageOf(cached, Run(actions).pages[series][before], limit);
            && Ascending(page.candles) && (forall c <- page.candles :: c in cached && c.time < before)
            && forall c <- LoadedOf(Run(actions).loaded, series)[before].candles :: ShownOrCut(page, cached, c.time)
  {
    hide Run, PageOf, PageAt, CacheOf, TableForm, SendingForm, ChannelForm, ShownOrCut;
    RunKeeps(actions);
    PageHasLoaded(Run(actions), series, before);
    RunGrows(actions, more);
    ServedPageShowsWhen(actions, more, series, before, cached, limit);
  }

  /** The steps of one request that is answered at once and recorded as a page. */
  function AnsweredSteps(s: State, asked: string, m: HistoryMessage, before: int, limit: int): seq<Action> {
    [Register(m.requestId, asked), Receive(m), Send(|s.sending|), RecordPage(|s.channels|, before, limit, m.candles)]
  }

  /** After any run, an answer that names another series is recorded as a page of the series asked for, whose cache
      it leaves as it was: the page accounts for the times that were cached there before, and for no other. */
  lemma {:induction false} MisnamedPageShowsWhen(actions: seq<Action>, asked: string, m: HistoryMessage, before: int,
          limit: int, cached: seq<Candle>)
    requires var s := Run(actions);
             && s.conn && s.connected && m.requestId != "" && m.requestId !in s.used
             && Stored(PagesOf(s.pages, asked), before, limit, m.candles)
             && Ascending(cached) && ByTime(cached) == CacheOf(s.cache, asked)
    requires asked != "" && m.series != asked && !m.failed && Ascending(m.candles)
    ensures var s, t := Run(actions), Run(actions + AnsweredSteps(Run(actions), asked, m, before, limit));
            && asked in t.pages && before in t.pages[asked] && !Echoed(t, asked, before)
            && before in LoadedOf(t.loaded, asked) && LoadedOf(t.loaded, asked)[before].candles == m.candles
            && CacheOf(t.cache, asked) == CacheOf(s.cache, asked)
            && (forall c <- m.candles ::
                  ShownOrCut(PageOf(cached, t.pages[asked][before], limit), cached, c.time)
                  <==> c.time in CacheOf(s.cache, asked))
  {
    hide Run, PageOf, ByTime, Stored, Ascending, CacheOf, ShownOrCut, Step, AfterReceive, PagesOf;
    var s, steps := Run(actions), AnsweredSteps(Run(actions), asked, m, before, limit);
    RunOfFour(actions, steps[0], steps[1], steps[2], steps[3]);
    RunKeeps(actions);
    AnswerWaits(s, asked, m);
    var two := Step(Step(s, steps[0]), steps[1]);
    AnswerSent(two, |s.sending|, |s.channels|, m);
    var three := Step(two, steps[2]);
    AnswerRecorded(three, |s.channels|, m, before, limit);
    assert actions + steps + [] == actions + steps;
    ServedPageShowsWhen(actions + steps, [], asked, before, cached, limit);
  }

  lemma {:induction false} RunNext(actions: seq<Action>, a: Action)
    ensures Run(actions + [a]) == Step(Run(actions), a)
  {
    hide Step;
    assert (actions + [a])[..|actions|] == actions;
  }

  lemma {:induction false} RunOfFour(actions: seq<Action>, a: Action, b: Action, c: Action, d: Action)
    ensures Run(actions + [a, b, c, d]) == Step(Step(Step(Step(Run(actions), a), b), c), d)
  {
    hide Step;
    RunNext(actions, a);
    RunNext(actions + [a], b);
    RunNext(actions + [a] + [b], c);
    RunNext(actions + [a] + [b] + [c], d);
    assert actions + [a] + [b] + [c] + [d] == actions + [a, b, c, d];
  }

  lemma {:induction false} AnswerWaits(s: State, asked: string, m: HistoryMessage)
    requires s.conn && s.connected && m.requestId != "" && m.requestId !in s.used && asked != "" && m.series != asked
    ensures var t := Step(Step(s, Register(m.requestId, asked)), Receive(m));
            && t.channels == s.channels + [Channel(asked, None, false)]
               && t.sending == s.sending + [Sending(|s.channels|, m)]
            && t.pages == s.pages && t.loaded == s.loaded && CacheOf(t.cache, asked) == CacheOf(s.cache, asked)
  {
    hide Merged;
  }

  lemma {:induction false} AnswerSent(s: State, i: nat, c: nat, m: HistoryMessage)
    requires i < |s.sending| && s.sending[i] == Sending(c, m) && c < |s.channels| && s.channels[c].buffer.None?
    ensures var t := Step(s, Send(i));
            && c < |t.channels| && t.channels[c] == s.channels[c].(buffer := Some(m))
            && t.pages == s.pages && t.loaded == s.loaded && t.cache == s.cache
  {
  }

  lemma {:induction false} AnswerRecorded(s: State, c: nat, m: HistoryMessage, before: int, limit: int)
    requires c < |s.channels| && s.channels[c].buffer == Some(m) && !m.failed && Ascending(m.candles)
    requires Stored(PagesOf(s.pages, s.channels[c].series), before, limit, m.candles)
    ensures var t, series := Step(s, RecordPage(c, before, limit, m.candles)), s.channels[c].series;
            && t.cache == s.cache && series in t.pages && before in t.pages[series]
            && before in LoadedOf(t.loaded, series) && LoadedOf(t.loaded, series)[before] == Loaded(m.series, m.candles)
  {
    hide ByTime, Ascending, ClampLimit, Evicted;
  }

  lemma {:induction false} LoadedWithin(cs: seq<Candle>, c: Candle)
    requires Ascending(cs) && c in cs
    ensures cs[0].time <= c.time <= cs[|cs| - 1].time
  {
  }
}

/** The service object whose locked sections are those steps. */
module HistoryRequests {
  import opened Sequences
  import opened Sets
  import opened Options
  import opened Candles
  import opened CandleMaps
  import opened HistoryCache
  import opened HistorySteps

  function AsMaps(history: map<string, seq<Candle>>): Cache {
    map series | series in history :: ByTime(history[series])
  }

  lemma {:induction false} MapsUpdate(history: map<string, seq<Candle>>, series: string, cs: seq<Candle>)
    ensures AsMaps(history[series := cs]) == AsMaps(history)[series := ByTime(cs)]
  {
    hide ByTime;
  }

  lemma {:induction false} MapsLookup(history: map<string, seq<Candle>>, series: string)
    ensures CacheOf(AsMaps(history), series) == ByTime(if series in history then history[series] else [])
  {
  }

  /** Whether a recorded page may be served from the cache. */
  function Lookup(pages: Pages, before: int, limit: int): Option<Coverage> {
    if before <= 0 || before !in pages then None
    else
      var coverage := pages[before];
      if coverage.limit < ClampLimit(limit) || coverage.firstTime <= 0 || coverage.lastTime >= before then None
      else Some(coverage)
  }

  class HistoryService {
    var conn: bool
    var connected: bool
    var history: map<string, seq<Candle>>
    var historyPages: map<string, Pages>
    var pendingHistory: map<string, nat>
    var channels: seq<Channel>
    var sending: seq<Sending>
    ghost var loaded: map<string, map<int, Loaded>>
    ghost var used: set<string>

    ghost function Abstract(): State
      reads this
    {
      State(conn, connected, AsMaps(history), historyPages, loaded, pendingHistory, channels, sending, used)
    }

    ghost predicate Valid()
      reads this
    {
      Inv(Abstract()) && forall series <- history :: Ascending(history[series])
    }

    constructor ()
      ensures Valid() && Abstract() == Init()
    {
      conn, connected, history, historyPages, pendingHistory := false, false, map[], map[], map[];
      channels, sending, loaded, used := [], [], map[], {};
      new;
      InitHolds();
    }

    method MergeAccepted(m: HistoryMessage)
      requires forall series <- history :: Ascending(history[series])
      modifies this`history, this`connected
      ensures forall series <- history :: Ascending(history[series])
      ensures AsMaps(history) == AsMaps(old(history))[m.series := Merged(CacheOf(AsMaps(old(history)), m.series), m)]
      ensures connected
    {
      hide ByTime, Merged, Ascending, AsMaps, CacheOf;
      var cached := if m.series in history then history[m.series] else [];
      var merged := MergeMessage(cached, m);
      MapsUpdate(history, m.series, merged);
      MapsLookup(history, m.series);
      history := history[m.series := merged];
      connected := true;
    }

    /** applyHistory up to its unlock; the send is a step of its own. */
    method ApplyHistory(received: HistoryMessage) returns (ghost message: HistoryMessage)
      requires Valid()
      modifies this
      ensures Ascending(message.candles) && ByTime(message.candles) == ByTime(received.candles)
      ensures message == received.(candles := message.candles)
      ensures Valid() && Abstract() == AfterReceive(old(Abstract()), message)
    {
      hide Inv, ByTime, Merged, Ascending, Conservative, AsMaps;
      var candles := NormalizeCandles(received.candles);
      var m := received.(candles := candles);
      message := m;
      StepKeeps(Abstract(), Receive(m));
      var waiting := m.requestId in pendingHistory;
      if (m.requestId == "" || waiting) && m.series != "" && !m.failed {
        MergeAccepted(m);
      }
      if m.requestId != "" && waiting {
        sending := sending + [Sending(pendingHistory[m.requestId], m)];
        pendingHistory := pendingHistory - {m.requestId};
      }
    }

    /** setConn, as far as history goes. */
    method SetConn()
      requires Valid()
      modifies this
      ensures Valid() && Abstract() == Step(old(Abstract()), HistorySteps.SetConn)
    {
      hide Inv;
      StepKeeps(Abstract(), HistorySteps.SetConn);
      conn := true;
    }

    /** setConnected; setDisconnected and setError take it back. */
    method SetConnected(value: bool)
      requires Valid()
      modifies this
      ensures Valid() && Abstract() == Step(old(Abstract()), HistorySteps.SetConnected(value))
    {
      hide Inv;
      StepKeeps(Abstract(), HistorySteps.SetConnected(value));
      connected := value;
    }

    /** The table part of performHistoryRequest; None without a connection or while it is not ready. */
    method Register(id: string, series: string) returns (channel: Option<nat>)
      requires Valid() && id !in used && id != "" && series != ""
      modifies this
      ensures Valid() && Abstract() == Step(old(Abstract()), HistorySteps.Register(id, series))
      ensures channel == if old(conn && connected) then Some(|old(channels)|) else None
    {
      hide Inv;
      StepKeeps(Abstract(), HistorySteps.Register(id, series));
      if !conn || !connected {
        return None;
      }
      channel := Some(|channels|);
      pendingHistory := pendingHistory[id := |channels|];
      channels := channels + [Channel(series, None, false)];
      used := used + {id};
    }

    method SendNext(i: nat)
      requires Valid() && i < |sending|
      modifies this
      ensures Valid() && Abstract() == AfterSend(old(Abstract()), i)
      ensures old(sending[i].channel) < |old(channels)| == |channels|
      ensures !old(channels)[old(sending)[i].channel].closed
      ensures channels[old(sending)[i].channel].buffer == Some(old(sending)[i].message)
    {
      hide Inv;
      StepKeeps(Abstract(), Send(i));
      SendsArrive(Abstract(), i);
      var c, m := sending[i].channel, sending[i].message;
      sending := Without(sending, i);
      if channels[c].buffer.None? {
        channels := channels[c := channels[c].(buffer := Some(m))];
      }
    }

    method Abandon(id: string)
      requires Valid()
      modifies this
      ensures Valid() && Abstract() == Step(old(Abstract()), HistorySteps.Abandon(id))
    {
      hide Inv;
      StepKeeps(Abstract(), HistorySteps.Abandon(id));
      pendingHistory := pendingHistory - {id};
    }

    /** clearConn, for the current connection or an older one: every waiting request is taken out and its channel
        closed. */
    method ClearConn(current: bool)
      requires Valid()
      modifies this
      ensures Valid() && Abstract() == Step(old(Abstract()), HistorySteps.ClearConn(current))
    {
      hide Inv, CloseAll, AsMaps;
      StepKeeps(Abstract(), HistorySteps.ClearConn(current));
      WaitingInRange(Abstract());
      if current {
        conn := false;
      }
      ClosePending();
    }

    method ClosePending()
      requires forall id <- pendingHistory :: pendingHistory[id] < |channels|
      modifies this`pendingHistory, this`channels
      ensures pendingHistory == map[] && channels == CloseAll(old(channels), old(pendingHistory).Values)
    {
      hide CloseAll;
      ghost var waiting, taken: set<nat> := pendingHistory, {};
      CloseNone(channels);
      while pendingHistory != map[]
        invariant forall id <- pendingHistory :: id in waiting && pendingHistory[id] == waiting[id]
        invariant forall id <- waiting :: id in pendingHistory || waiting[id] in taken
        invariant taken <= waiting.Values
        invariant channels == CloseAll(old(channels), taken) && |channels| == |old(channels)|
        decreases |pendingHistory|
      {
        ghost var some := SomeMember(pendingHistory.Keys);
        var id :| id in pendingHistory;
        var c := pendingHistory[id];
        CloseOne(old(channels), taken, c);
        pendingHistory := pendingHistory - {id};
        channels := channels[c := channels[c].(closed := true)];
        taken := taken + {c};
      }
      assert taken == waiting.Values;
    }

    lemma {:induction false} WaitingInRange(s: State)
      requires Inv(s)
      ensures forall id <- s.pending :: s.pending[id] < |s.channels|
    {
    }

    lemma {:induction false} CloseNone(channels: seq<Channel>)
      ensures CloseAll(channels, {}) == channels
    {
    }

    lemma {:induction false} CloseOne(channels: seq<Channel>, closing: set<nat>, c: nat)
      requires c < |channels|
      ensures |CloseAll(channels, closing)| == |CloseAll(channels, closing + {c})| == |channels|
      ensures CloseAll(channels, closing + {c})
              == CloseAll(channels, closing)[c := CloseAll(channels, closing)[c].(closed := true)]
    {
    }

    /** The caller of a request records the page it was answered with. */
    method RecordPage(c: nat, before: int, limit: int) returns (ghost normalized: seq<Candle>)
      requires Valid() && c < |channels| && channels[c].buffer.Some?
      modifies this
      ensures Valid() && Abstract() == AfterRecord(old(Abstract()), c, before, limit, normalized)
    {
      hide Inv, ByTime, Ascending, Recorded;
      var m, series := channels[c].buffer.value, channels[c].series;
      if m.failed {
        normalized := [];
        return;
      }
      var pages := if series in historyPages then historyPages[series] else map[];
      var r: Pages;
      r, normalized := RecordHistoryPage(pages, before, limit, m.candles, m.hasMore);
      StepKeeps(Abstract(), HistorySteps.RecordPage(c, before, limit, normalized));
      historyPages := historyPages[series := r];
      if Stored(pages, before, limit, normalized) {
        loaded := loaded[series := LoadedOf(loaded, series)[before := Loaded(m.series, normalized)]];
      }
    }

    /** Whether the very cursor was loaded, with at least as large a limit. */
    method CachedHistoryPage(series: string, before: int, limit: int) returns (coverage: Option<Coverage>)
      requires Valid()
      ensures coverage == Lookup(PagesOf(historyPages, series), before, limit)
      ensures coverage.Some? ==> PageAt(Abstract(), series, before) && coverage.value == historyPages[series][before]
    {
      hide PageAt;
      var pages := if series in historyPages then historyPages[series] else map[];
      return Lookup(pages, before, limit);
    }

    /** The page itself, cut from what is cached by now; `earlier` is the state in which its coverage was read. */
    method ServePage(series: string, before: int, coverage: Coverage, limit: int, ghost earlier: State)
      returns (page: Page)
      requires Valid()
      requires series in earlier.pages && before in earlier.pages[series] && coverage == earlier.pages[series][before]
      requires PageAt(earlier, series, before) && CacheGrows(earlier.cache, Abstract().cache)
      ensures |page.candles| <= ClampLimit(limit) && Ascending(page.candles)
      ensures forall c <- page.candles :: c.time < before && c.time in CacheOf(AsMaps(history), series)
      ensures forall c <- LoadedOf(earlier.loaded, series)[before].candles ::
                ShownOrCut(page, if series in history then history[series] else [], c.time)
                <==> c.time in CacheOf(AsMaps(history), series)
      ensures Echoed(earlier, series, before) ==>
                forall c <- LoadedOf(earlier.loaded, series)[before].candles ::
                       c.time in CacheOf(AsMaps(history), series)
    {
      hide Ascending, PageOf, Inv, ByTime, ShownOrCut;
      var cached := if series in history then history[series] else [];
      page := CachedHistoryPageCandles(cached, coverage, limit);
      NoCandles();
      EmptyAscends();
      MapsLookup(history, series);
      ServedPage(cached, coverage, before, limit);
      PageShowsWhen(earlier, series, before, cached, limit);
      PageHasLoaded(earlier, series, before);
      TimesCached(cached);
    }

    lemma {:induction false} EmptyAscends()
      ensures Ascending([])
    {
    }

    lemma {:induction false} TimesCached(cs: seq<Candle>)
      ensures forall c <- cs :: c.time in ByTime(cs)
    {
    }
  }
}
