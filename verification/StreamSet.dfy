/** The set of symbols the bridge streams: every change of a subscription is followed by a sync that
    collects what is wanted, under the write lock, and writes it if it differs from the last one.
    Subscribers change their own symbols without the service's lock, so a collection may interleave
    with changes.  The connection and its catalog stay the same throughout. */
module StreamSteps {
  import opened Options

  type Symbols = set<string>

  /** Catalog name of each symbol that the catalog has. */
  type Catalog = map<string, string>

  /** What the holder of the write lock is doing. */
  datatype Writer =
    | Nobody
    | Collecting(todo: set<nat>, desired: Symbols)
    | Decided(resolved: Symbols)
    | Writing(resolved: Symbols)

  /** `symbols` are those of every subscriber ever registered; `waiting` counts the callers between
      their change and their sync; `written` is the last set on the wire. */
  datatype State = State(
    sticky: Symbols,
    registered: set<nat>,
    symbols: map<nat, Symbols>,
    waiting: nat,
    writer: Writer,
    sent: bool,
    last: Symbols,
    written: Option<Symbols>,
    failed: bool)

  datatype Action =
    | Register(id: nat)
    | ChangeSticky(more: Symbols)
    | ChangeSubscriber(id: nat, wanted: Symbols)
    | Close(id: nat)
    | Begin
    | Read(id: nat)
    | Decide
    | Commit
    | Write(succeeds: bool)

  function Init(): State {
    State({}, {}, map[], 0, Nobody, false, {}, None, false)
  }

  function SymbolsOf(s: State, id: nat): Symbols {
    if id in s.symbols then s.symbols[id] else {}
  }

  function Resolve(desired: Symbols, catalog: Catalog): Symbols {
    set symbol | symbol in desired && symbol in catalog :: catalog[symbol]
  }

  function Step(s: State, a: Action, catalog: Catalog): State {
    match a
    case Register(id) =>
      if s.writer.Collecting? || id in s.symbols then s
      else s.(registered := s.registered + {id}, symbols := s.symbols[id := {}])
    case ChangeSticky(more) =>
      if s.writer.Collecting? then s else s.(sticky := s.sticky + more, waiting := s.waiting + 1)
    case ChangeSubscriber(id, wanted) =>
      if id !in s.symbols then s else s.(symbols := s.symbols[id := wanted], waiting := s.waiting + 1)
    case Close(id) =>
      if s.writer.Collecting? then s else s.(registered := s.registered - {id}, waiting := s.waiting + 1)
    case Begin =>
      if s.writer != Nobody || s.waiting == 0 then s
      else s.(waiting := s.waiting - 1, writer := Collecting(s.registered, s.sticky))
    case Read(id) =>
      if !s.writer.Collecting? || id !in s.writer.todo then s
      else s.(writer := Collecting(s.writer.todo - {id}, s.writer.desired + SymbolsOf(s, id)))
    case Decide =>
      if !s.writer.Collecting? || s.writer.todo != {} then s
      else s.(writer := if catalog == map[] then Nobody else Decided(Resolve(s.writer.desired, catalog)))
    case Commit =>
      if !s.writer.Decided? then s
      else if s.sent && s.last == s.writer.resolved then s.(writer := Nobody)
      else s.(sent := true, last := s.writer.resolved, writer := Writing(s.writer.resolved))
    case Write(succeeds) =>
      if !s.writer.Writing? then s
      else if succeeds then s.(written := Some(s.writer.resolved), writer := Nobody, failed := false)
      else s.(sent := if s.last == s.writer.resolved then false else s.sent, writer := Nobody, failed := true)
  }

  function Run(actions: seq<Action>, catalog: Catalog): State {
    if |actions| == 0 then Init() else Step(Run(actions[..|actions| - 1], catalog), actions[|actions| - 1], catalog)
  }

  // ----- Convergence -----

  /** A symbol is wanted when it is sticky or some registered subscriber has it. */
  predicate Wanted(s: State, symbol: string) {
    symbol in s.sticky || exists id <- s.registered :: symbol in SymbolsOf(s, id)
  }

  ghost predicate IsWanted(s: State, desired: Symbols) {
    forall symbol :: symbol in desired <==> Wanted(s, symbol)
  }

  /** A set is up to date when it resolves what is wanted now. */
  ghost predicate UpToDate(s: State, resolved: Symbols, catalog: Catalog) {
    forall name :: name in resolved <==> exists symbol <- catalog :: Wanted(s, symbol) && catalog[symbol] == name
  }

  /** What has been collected and what is still to be read make up what is wanted. */
  ghost predicate CollectsWanted(s: State)
    requires s.writer.Collecting?
  {
    && s.writer.todo <= s.registered
    && forall symbol :: Wanted(s, symbol) <==> symbol in s.writer.desired || exists id <- s.writer.todo ::
       symbol in SymbolsOf(s, id)
  }

  ghost predicate Inv(s: State, catalog: Catalog) {
    && s.registered <= s.symbols.Keys
    && (s.sent && !s.writer.Writing? ==> s.written == Some(s.last))
    && (s.writer.Writing? ==> s.sent && s.last == s.writer.resolved)
    && (s.waiting == 0 ==> Fresh(s, catalog))
    && (catalog == map[] ==> !s.sent && s.written == None && !s.writer.Decided?)
  }

  /** With no caller between its change and its sync, the work in progress is up to date. */
  ghost predicate Fresh(s: State, catalog: Catalog) {
    match s.writer
    case Collecting(_, _) => CollectsWanted(s)
    case Decided(resolved) => UpToDate(s, resolved, catalog)
    case Writing(resolved) => UpToDate(s, resolved, catalog)
    case Nobody =>
      if s.sent then UpToDate(s, s.last, catalog)
      else catalog == map[] || s.failed || forall symbol :: !Wanted(s, symbol)
  }

  lemma {:induction false} ResolveIsUpToDate(s: State, desired: Symbols, catalog: Catalog)
    requires IsWanted(s, desired)
    ensures UpToDate(s, Resolve(desired, catalog), catalog)
  {
  }

  lemma {:induction false} RegisterKeeps(s: State, id: nat, catalog: Catalog)
    requires Inv(s, catalog)
    ensures Inv(Step(s, Register(id), catalog), catalog)
  {
    var r := Step(s, Register(id), catalog);
    if r != s {
      forall symbol
        ensures Wanted(r, symbol) <==> Wanted(s, symbol)
      {
        assert forall k <- s.registered :: SymbolsOf(r, k) == SymbolsOf(s, k);
        assert SymbolsOf(r, id) == {};
      }
    }
  }

  lemma {:induction false} ReadKeeps(s: State, id: nat, catalog: Catalog)
    requires Inv(s, catalog)
    ensures Inv(Step(s, Read(id), catalog), catalog)
  {
    var r := Step(s, Read(id), catalog);
    if r != s {
      assert forall symbol :: Wanted(r, symbol) == Wanted(s, symbol) by {
        assert forall k :: SymbolsOf(r, k) == SymbolsOf(s, k);
      }
      if s.waiting == 0 {
        forall symbol
          ensures Wanted(r, symbol) <==> symbol in r.writer.desired || exists k <- r.writer.todo ::
                  symbol in SymbolsOf(r, k)
        {
          if k :| k in s.writer.todo && symbol in SymbolsOf(s, k) {
            assert k == id || k in r.writer.todo;
          }
          if k :| k in r.writer.todo && symbol in SymbolsOf(r, k) {
            assert k in s.writer.todo;
          }
        }
      }
    }
  }

  lemma {:induction false} SameWanted(s: State, r: State)
    requires s.sticky == r.sticky && s.registered == r.registered && s.symbols == r.symbols
    ensures forall symbol :: Wanted(r, symbol) == Wanted(s, symbol)
  {
    assert forall k :: SymbolsOf(r, k) == SymbolsOf(s, k);
  }

  lemma {:induction false} StepKeeps(s: State, a: Action, catalog: Catalog)
    requires Inv(s, catalog)
    ensures Inv(Step(s, a, catalog), catalog)
  {
    hide Wanted, Resolve;
    var r := Step(s, a, catalog);
    match a
    case Register(id) => RegisterKeeps(s, id, catalog);
    case Read(id) => ReadKeeps(s, id, catalog);
    case Begin =>
      SameWanted(s, r);
      BeginCollects(s, catalog);
    case Decide =>
      SameWanted(s, r);
      if r != s && s.waiting == 0 {
        ResolveIsUpToDate(r, s.writer.desired, catalog);
      }
    case Commit => SameWanted(s, r);
    case Write(_) => SameWanted(s, r);
    case _ =>
  }

  lemma {:induction false} BeginCollects(s: State, catalog: Catalog)
    ensures var r := Step(s, Begin, catalog);
            r != s ==> CollectsWanted(r)
  {
  }

  lemma {:induction false} RunKeeps(actions: seq<Action>, catalog: Catalog)
    ensures Inv(Run(actions, catalog), catalog)
  {
    hide Step, Inv;
    if |actions| == 0 {
      InitHolds(catalog);
    } else {
      RunKeeps(actions[..|actions| - 1], catalog);
      StepKeeps(Run(actions[..|actions| - 1], catalog), actions[|actions| - 1], catalog);
    }
  }

  lemma {:induction false} InitHolds(catalog: Catalog)
    ensures Inv(Init(), catalog)
  {
  }

  predicate Quiet(s: State) {
    s.waiting == 0 && s.writer == Nobody
  }

  /** With something in the catalog, whatever the order of callers: once none is between its change and the end of
      its sync, the last set written is the resolved union of sticky and subscriber symbols, unless that last write
      failed or nothing was ever wanted. */
  lemma {:induction false} StreamSetConverges(actions: seq<Action>, catalog: Catalog)
    requires catalog != map[] && Quiet(Run(actions, catalog))
    ensures var s := Run(actions, catalog);
            || (s.written.Some? && UpToDate(s, s.written.value, catalog))
            || s.failed
            || (!s.sent && forall symbol :: !Wanted(s, symbol))
  {
    RunKeeps(actions, catalog);
  }

  predicate AllSucceed(actions: seq<Action>) {
    forall a <- actions :: a != Write(false)
  }

  lemma {:induction false} StepFails(s: State, a: Action, catalog: Catalog)
    requires !s.failed && a != Write(false)
    ensures !Step(s, a, catalog).failed
  {
  }

  lemma {:induction false} NothingFails(actions: seq<Action>, catalog: Catalog)
    requires AllSucceed(actions)
    ensures !Run(actions, catalog).failed
  {
    hide Step;
    if |actions| > 0 {
      var before, a := actions[..|actions| - 1], actions[|actions| - 1];
      assert a in actions && forall b <- before :: b in actions;
      NothingFails(before, catalog);
      StepFails(Run(before, catalog), a, catalog);
    }
  }

  /** With successful writes, once a set was sent the quiet state always has the right one on the wire. */
  lemma {:induction false} SuccessfulWritesConverge(actions: seq<Action>, catalog: Catalog)
    requires catalog != map[] && AllSucceed(actions) && Quiet(Run(actions, catalog))
    ensures var s := Run(actions, catalog);
            if s.sent then s.written.Some? && UpToDate(s, s.written.value, catalog) else forall symbol ::
               !Wanted(s, symbol)
  {
    hide Step, UpToDate, Wanted;
    NothingFails(actions, catalog);
    RunKeeps(actions, catalog);
  }

  /** Without a catalog nothing is ever sent, so a quiet state is right exactly when nothing is wanted. */
  lemma {:induction false} EmptyCatalogSendsNothing(actions: seq<Action>)
    ensures var s := Run(actions, map[]);
            && !s.sent && s.written == None
            && ((s.written.Some? && UpToDate(s, s.written.value, map[]))
                || (!s.sent && forall symbol :: !Wanted(s, symbol))
                <==> forall symbol :: !Wanted(s, symbol))
  {
    RunKeeps(actions, map[]);
  }
}

/** The service object and its subscribers' tables. */
module StreamSet {
  import opened Options
  import opened Sets
  import opened StreamSteps

  class StreamService {
    const catalog: Catalog
    var stickyStream: Symbols
    var subscribers: set<nat>
    var symbols: map<nat, Symbols>
    var waiting: nat
    var writer: Writer
    var streamSetSent: bool
    var lastStreamSet: Symbols
    var written: Option<Symbols>
    ghost var failed: bool

    ghost function Abstract(): State
      reads this
    {
      State(stickyStream, subscribers, symbols, waiting, writer, streamSetSent, lastStreamSet, written, failed)
    }

    constructor (names: Catalog)
      ensures Abstract() == Init() && catalog == names && Inv(Abstract(), catalog)
    {
      catalog := names;
      stickyStream, subscribers, symbols, waiting, writer := {}, {}, map[], 0, Nobody;
      streamSetSent, lastStreamSet, written, failed := false, {}, None, false;
      new;
      InitHolds(catalog);
    }

    method RegisterTickSubscriber(id: nat)
      requires Inv(Abstract(), catalog) && !writer.Collecting? && id !in symbols
      modifies this
      ensures Inv(Abstract(), catalog) && Abstract() == Step(old(Abstract()), Register(id), catalog)
      ensures forall symbol :: Wanted(Abstract(), symbol) == Wanted(old(Abstract()), symbol)
    {
      ghost var s := Abstract();
      StepKeeps(s, Register(id), catalog);
      subscribers := subscribers + {id};
      symbols := symbols[id := {}];
      forall symbol
        ensures Wanted(Abstract(), symbol) == Wanted(s, symbol)
      {
        assert forall k | k in symbols && k != id :: SymbolsOf(Abstract(), k) == SymbolsOf(s, k);
        assert SymbolsOf(Abstract(), id) == {};
      }
    }

    method Subscribe(id: nat, more: seq<string>)
      requires Inv(Abstract(), catalog) && id in symbols
      modifies this
      ensures Inv(Abstract(), catalog)
      ensures Abstract() == if |more| == 0 then old(Abstract())
                            else Step(old(Abstract()), ChangeSubscriber(id, old(symbols)[id] + Elements(more)), catalog)
    {
      if |more| == 0 {
        return;
      }
      StepKeeps(Abstract(), ChangeSubscriber(id, symbols[id] + Elements(more)), catalog);
      var wanted := symbols[id];
      for i := 0 to |more|
        invariant wanted == symbols[id] + Elements(more[..i])
        invariant Abstract() == old(Abstract())
      {
        assert more[..i + 1][..i] == more[..i];
        wanted := wanted + {more[i]};
      }
      assert more[..|more|] == more;
      symbols := symbols[id := wanted];
      waiting := waiting + 1;
    }

    method Unsubscribe(id: nat, fewer: seq<string>)
      requires Inv(Abstract(), catalog) && id in symbols
      modifies this
      ensures Inv(Abstract(), catalog)
      ensures Abstract() == if |fewer| == 0 then old(Abstract())
                            else Step(old(Abstract()), ChangeSubscriber(id, old(symbols)[id] - Elements(fewer)),
                                      catalog)
    {
      if |fewer| == 0 {
        return;
      }
      StepKeeps(Abstract(), ChangeSubscriber(id, symbols[id] - Elements(fewer)), catalog);
      var wanted := symbols[id];
      for i := 0 to |fewer|
        invariant wanted == symbols[id] - Elements(fewer[..i])
        invariant Abstract() == old(Abstract())
      {
        assert fewer[..i + 1][..i] == fewer[..i];
        wanted := wanted - {fewer[i]};
      }
      assert fewer[..|fewer|] == fewer;
      symbols := symbols[id := wanted];
      waiting := waiting + 1;
    }

    method SetSymbols(id: nat, exactly: seq<string>)
      requires Inv(Abstract(), catalog) && id in symbols
      modifies this
      ensures Inv(Abstract(), catalog)
      ensures Abstract() == Step(old(Abstract()), ChangeSubscriber(id, Elements(exactly)), catalog)
    {
      StepKeeps(Abstract(), ChangeSubscriber(id, Elements(exactly)), catalog);
      var wanted: Symbols := {};
      for i := 0 to |exactly|
        invariant wanted == Elements(exactly[..i])
        invariant Abstract() == old(Abstract())
      {
        assert exactly[..i + 1][..i] == exactly[..i];
        wanted := wanted + {exactly[i]};
      }
      assert exactly[..|exactly|] == exactly;
      symbols := symbols[id := wanted];
      waiting := waiting + 1;
    }

    /** Close, whose once-guard is the caller's. */
    method CloseSubscriber(id: nat)
      requires Inv(Abstract(), catalog) && !writer.Collecting?
      modifies this
      ensures Inv(Abstract(), catalog) && Abstract() == Step(old(Abstract()), Close(id), catalog)
    {
      StepKeeps(Abstract(), Close(id), catalog);
      subscribers := subscribers - {id};
      waiting := waiting + 1;
    }

    method BeginSync()
      requires Inv(Abstract(), catalog) && writer == Nobody && waiting > 0
      modifies this
      ensures Inv(Abstract(), catalog) && Abstract() == Step(old(Abstract()), Begin, catalog)
      ensures writer.Collecting?
    {
      hide Inv;
      StepKeeps(Abstract(), Begin, catalog);
      waiting := waiting - 1;
      writer := Collecting(subscribers, stickyStream);
    }

    method ReadSubscriber(id: nat)
      requires Inv(Abstract(), catalog) && writer.Collecting? && id in writer.todo
      modifies this
      ensures Inv(Abstract(), catalog) && Abstract() == Step(old(Abstract()), Read(id), catalog)
      ensures writer.Collecting? && writer.todo == old(writer).todo - {id}
    {
      hide Inv;
      StepKeeps(Abstract(), Read(id), catalog);
      writer := Collecting(writer.todo - {id}, writer.desired + if id in symbols then symbols[id] else {});
    }

    method DecideSet()
      requires Inv(Abstract(), catalog) && writer.Collecting? && writer.todo == {}
      modifies this
      ensures Inv(Abstract(), catalog) && Abstract() == Step(old(Abstract()), Decide, catalog)
      ensures if catalog == map[] then writer == Nobody else writer.Decided?
    {
      hide Inv;
      StepKeeps(Abstract(), Decide, catalog);
      if catalog == map[] {
        writer := Nobody;
        return;
      }
      var resolved := ResolveSymbols(writer.desired);
      writer := Decided(resolved);
    }

    method CommitSet() returns (write: bool)
      requires Inv(Abstract(), catalog) && writer.Decided?
      modifies this
      ensures Inv(Abstract(), catalog) && Abstract() == Step(old(Abstract()), Commit, catalog)
      ensures streamSetSent && lastStreamSet == old(writer).resolved
      ensures write == !(old(streamSetSent) && old(lastStreamSet) == old(writer).resolved)
      ensures if write then writer.Writing? else writer == Nobody
    {
      hide Inv;
      StepKeeps(Abstract(), Commit, catalog);
      var resolved := writer.resolved;
      if streamSetSent && lastStreamSet == resolved {
        writer := Nobody;
        return false;
      }
      streamSetSent, lastStreamSet := true, resolved;
      writer := Writing(resolved);
      return true;
    }

    method WriteSet(succeeds: bool)
      requires Inv(Abstract(), catalog) && writer.Writing?
      modifies this
      ensures Inv(Abstract(), catalog) && Abstract() == Step(old(Abstract()), Write(succeeds), catalog)
      ensures writer == Nobody && (succeeds ==> streamSetSent == old(streamSetSent))
    {
      hide Inv;
      StepKeeps(Abstract(), Write(succeeds), catalog);
      if succeeds {
        written := Some(writer.resolved);
      } else if lastStreamSet == writer.resolved {
        streamSetSent := false;
      }
      writer := Nobody;
      failed := !succeeds;
    }

    /** One whole sync when nothing interleaves: afterwards the wire is up to date if no one else waits. */
    method SyncStreamSymbols(succeeds: bool)
      requires Inv(Abstract(), catalog) && writer == Nobody && waiting > 0
      modifies this
      ensures Inv(Abstract(), catalog) && writer == Nobody && waiting == old(waiting) - 1
      ensures stickyStream == old(stickyStream) && subscribers == old(subscribers) && symbols == old(symbols)
      ensures catalog == map[] ==> written == None
      ensures catalog != map[] && waiting == 0 && succeeds
              ==> streamSetSent && written == Some(lastStreamSet) && UpToDate(Abstract(), lastStreamSet, catalog)
    {
      hide Inv, UpToDate, Wanted, Resolve;
      BeginSync();
      while writer.todo != {}
        invariant writer.Collecting? && Inv(Abstract(), catalog)
        invariant waiting == old(waiting) - 1
        invariant stickyStream == old(stickyStream) && subscribers == old(subscribers) && symbols == old(symbols)
        decreases |writer.todo|
      {
        ghost var someone := SomeMember(writer.todo);
        var id :| id in writer.todo;
        ReadSubscriber(id);
      }
      DecideSet();
      NothingWithoutCatalog(Abstract(), catalog);
      if catalog == map[] {
        return;
      }
      var write := CommitSet();
      if write {
        WriteSet(succeeds);
      }
      QuietIsFresh(Abstract(), catalog);
    }

    method ResolveSymbols(desired: Symbols) returns (resolved: Symbols)
      ensures resolved == Resolve(desired, catalog)
    {
      resolved := {};
      var rest := desired;
      while rest != {}
        invariant rest <= desired && resolved == Resolve(desired - rest, catalog)
        decreases |rest|
      {
        ghost var some := SomeMember(rest);
        var symbol :| symbol in rest;
        assert desired - (rest - {symbol}) == (desired - rest) + {symbol};
        if symbol in catalog && catalog[symbol] !in resolved {
          resolved := resolved + {catalog[symbol]};
        }
        rest := rest - {symbol};
      }
      assert desired - {} == desired;
    }
  }

  function Elements(s: seq<string>): Symbols {
    if |s| == 0 then {} else Elements(s[..|s| - 1]) + {s[|s| - 1]}
  }

  lemma {:induction false} NothingWithoutCatalog(s: State, catalog: Catalog)
    requires Inv(s, catalog)
    ensures catalog == map[] ==> s.written == None
  {
  }

  lemma {:induction false} QuietIsFresh(s: State, catalog: Catalog)
    requires Inv(s, catalog)
    ensures Quiet(s) && s.sent ==> s.written == Some(s.last) && UpToDate(s, s.last, catalog)
  {
  }
}
