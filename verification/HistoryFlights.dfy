/** Shared history requests: callers of one key join one flight, count themselves out when they give up,
    and the last one out cancels it.  Each locked section is one step. */
module FlightSteps {
  /** What one caller is doing: the leader has still to install the cancel function and start the request. */
  datatype Stage = Starting | Waiting | Returned | Left

  datatype Caller = Caller(flight: nat, stage: Stage)

  datatype Flight = Flight(key: string, waiters: int, leader: nat, hasCancel: bool, cancelled: bool, done: bool,
          removed: bool)

  /** `owed` are the flights whose cancel function a leaving caller holds and has still to call. */
  datatype State = State(table: map<string, nat>, flights: seq<Flight>, callers: seq<Caller>, owed: set<nat>)

  datatype Action =
    | Join(key: string)
    | Install(caller: nat)
    | Leave(caller: nat)
    | CallCancel(flight: nat)
    | Finish(flight: nat)
    | Remove(flight: nat)
    | Return(caller: nat)

  function Init(): State {
    State(map[], [], [], {})
  }

  predicate Current(s: State, f: nat)
    requires f < |s.flights|
  {
    s.flights[f].key in s.table && s.table[s.flights[f].key] == f
  }

  function AfterJoin(s: State, key: string): State {
    if key in s.table && s.table[key] < |s.flights| then
      var f := s.table[key];
      s.(flights := s.flights[f := s.flights[f].(waiters := s.flights[f].waiters + 1)],
         callers := s.callers + [Caller(f, Waiting)])
    else
      State(s.table[key := |s.flights|],
            s.flights + [Flight(key, 1, |s.callers|, false, false, false, false)],
            s.callers + [Caller(|s.flights|, Starting)],
            s.owed)
  }

  predicate At(s: State, c: nat, stage: Stage) {
    c < |s.callers| && s.callers[c].stage == stage && s.callers[c].flight < |s.flights|
  }

  /** The leader keeps the cancel function in the flight if that is still the current one, and starts the request. */
  function AfterInstall(s: State, c: nat): State {
    if !At(s, c, Starting) then s
    else
      var f, moved := s.callers[c].flight, s.(callers := s.callers[c := s.callers[c].(stage := Waiting)]);
      if Current(s, f) then moved.(flights := s.flights[f := s.flights[f].(hasCancel := true)]) else moved
  }

  function AfterLeave(s: State, c: nat): State {
    if !At(s, c, Waiting) then s
    else
      var f, gone := s.callers[c].flight, s.(callers := s.callers[c := s.callers[c].(stage := Left)]);
      if !Current(s, f) then gone
      else
        var left := s.flights[f].(waiters := s.flights[f].waiters - 1);
        var fewer := gone.(flights := s.flights[f := left]);
        if left.waiters > 0 then fewer
        else fewer.(table := s.table - {left.key}, owed := if left.hasCancel then s.owed + {f} else s.owed)
  }

  function Step(s: State, a: Action): State {
    match a
    case Join(key) => AfterJoin(s, key)
    case Install(c) => AfterInstall(s, c)
    case Leave(c) => AfterLeave(s, c)
    case CallCancel(f) =>
      if f !in s.owed || f >= |s.flights| then s
      else s.(owed := s.owed - {f}, flights := s.flights[f := s.flights[f].(cancelled := true)])
    case Finish(f) =>
      if f >= |s.flights| || s.flights[f].done || At(s, s.flights[f].leader, Starting) then s
      else s.(flights := s.flights[f := s.flights[f].(done := true)])
    case Remove(f) =>
      if f >= |s.flights| || !s.flights[f].done || s.flights[f].removed then s
      else
        var ended := s.(flights := s.flights[f := s.flights[f].(removed := true)]);
        if Current(s, f) then ended.(table := s.table - {s.flights[f].key}) else ended
    case Return(c) =>
      if At(s, c, Waiting) && s.flights[s.callers[c].flight].done
        then s.(callers := s.callers[c := s.callers[c].(stage := Returned)]) else s
  }

  function Run(actions: seq<Action>): State {
    if |actions| == 0 then Init() else Step(Run(actions[..|actions| - 1]), actions[|actions| - 1])
  }

  // ----- What every step keeps -----

  /** The callers that joined a flight and have not left it. */
  function Count(callers: seq<Caller>, f: nat): nat {
    if |callers| == 0 then 0
    else
      var c := callers[|callers| - 1];
      Count(callers[..|callers| - 1], f) + if c.flight == f && c.stage != Left then 1 else 0
  }

  lemma {:induction false} CountUpdate(callers: seq<Caller>, c: nat, stage: Stage, f: nat)
    requires c < |callers|
    ensures Count(callers[c := callers[c].(stage := stage)], f)
            == Count(callers, f)
               - (if callers[c].flight == f && callers[c].stage != Left then 1 else 0)
               + (if callers[c].flight == f && stage != Left then 1 else 0)
  {
    var front := callers[..|callers| - 1];
    if c < |front| {
      CountUpdate(front, c, stage, f);
      assert callers[c := callers[c].(stage := stage)][..|callers| - 1] == front[c := front[c].(stage := stage)];
    } else {
      assert callers[c := callers[c].(stage := stage)][..|callers| - 1] == front;
    }
  }

  lemma {:induction false} CountSnoc(callers: seq<Caller>, c: Caller, f: nat)
    ensures Count(callers + [c], f) == Count(callers, f) + if c.flight == f && c.stage != Left then 1 else 0
  {
  }

  lemma {:induction false} CountPositive(callers: seq<Caller>, c: nat)
    requires c < |callers| && callers[c].stage != Left
    ensures Count(callers, callers[c].flight) >= 1
  {
    if c < |callers| - 1 {
      CountPositive(callers[..|callers| - 1], c);
    }
  }

  lemma {:induction false} CountNone(callers: seq<Caller>, f: nat)
    requires forall c <- callers :: c.flight < f
    ensures Count(callers, f) == 0
  {
    if |callers| > 0 {
      CountNone(callers[..|callers| - 1], f);
    }
  }

  /** A flight in the table has counted waiters, is not removed, and carries its cancel function as soon as
      its leader has left the starting stage. */
  predicate TableAt(s: State, key: string)
    requires key in s.table
  {
    var f := s.table[key];
    && f < |s.flights| && s.flights[f].key == key
    && s.flights[f].waiters == Count(s.callers, f) >= 1
    && !s.flights[f].removed
  }

  predicate FlightAt(s: State, f: nat)
    requires f < |s.flights|
  {
    var flight := s.flights[f];
    && flight.leader < |s.callers| && s.callers[flight.leader].flight == f
    && (flight.hasCancel <==> s.callers[flight.leader].stage != Starting)
    && (flight.done ==> flight.hasCancel)
    && (!Current(s, f) ==> flight.removed || Abandoned(s, f))
  }

  /** Nobody waits for it, and its cancel function has been called or is about to be. */
  predicate Abandoned(s: State, f: nat)
    requires f < |s.flights|
  {
    Count(s.callers, f) == 0 && s.flights[f].hasCancel && (s.flights[f].cancelled || f in s.owed)
  }

  predicate CallerAt(s: State, c: nat)
    requires c < |s.callers|
  {
    var f := s.callers[c].flight;
    && f < |s.flights|
    && (s.callers[c].stage.Starting? ==> s.flights[f].leader == c && Current(s, f))
    && (s.callers[c].stage.Waiting? ==> Current(s, f) || s.flights[f].done)
  }

  predicate Inv(s: State) {
    && (forall key <- s.table :: TableAt(s, key))
    && (forall f | 0 <= f < |s.flights| :: FlightAt(s, f))
    && (forall c | 0 <= c < |s.callers| :: CallerAt(s, c))
    && (forall f <- s.owed :: f < |s.flights|)
    && (forall f | 0 <= f < |s.flights| && s.flights[f].removed :: s.flights[f].done)
  }

  lemma {:induction false} JoinKeeps(s: State, key: string)
    requires Inv(s)
    ensures Inv(AfterJoin(s, key))
  {
    hide Count;
    var r := AfterJoin(s, key);
    var joined := r.callers[|s.callers|];
    assert r.callers == s.callers + [joined];
    forall f: nat
      ensures Count(r.callers, f) == Count(s.callers, f) + if joined.flight == f then 1 else 0
    {
      CountSnoc(s.callers, joined, f);
    }
    forall c | 0 <= c < |s.callers|
      ensures s.callers[c].flight < |s.flights|
    {
      assert CallerAt(s, c);
    }
    CountNone(s.callers, |s.flights|);
    forall k | k in r.table
      ensures TableAt(r, k)
    {
      if k in s.table {
        assert TableAt(s, k);
      }
    }
    forall f | 0 <= f < |r.flights|
      ensures FlightAt(r, f)
    {
      if f < |s.flights| {
        assert FlightAt(s, f);
        assert key in s.table ==> TableAt(s, key);
      }
    }
    forall c | 0 <= c < |r.callers|
      ensures CallerAt(r, c)
    {
      if c < |s.callers| {
        assert CallerAt(s, c);
        assert key in s.table ==> TableAt(s, key);
      }
    }
  }

  lemma {:induction false} InstallKeeps(s: State, c: nat)
    requires Inv(s)
    ensures Inv(AfterInstall(s, c))
  {
    hide Count;
    var r := AfterInstall(s, c);
    if At(s, c, Starting) {
      var f := s.callers[c].flight;
      assert CallerAt(s, c) && FlightAt(s, f);
      assert TableAt(s, s.flights[f].key);
      forall g: nat
        ensures Count(r.callers, g) == Count(s.callers, g)
      {
        CountUpdate(s.callers, c, Waiting, g);
      }
      forall k | k in r.table
        ensures TableAt(r, k)
      {
        assert TableAt(s, k);
      }
      forall g | 0 <= g < |r.flights|
        ensures FlightAt(r, g)
      {
        assert FlightAt(s, g);
      }
      forall d | 0 <= d < |r.callers|
        ensures CallerAt(r, d)
      {
        assert CallerAt(s, d);
      }
    }
  }

  lemma {:induction false} LeaveKeeps(s: State, c: nat)
    requires Inv(s)
    ensures Inv(AfterLeave(s, c))
  {
    hide Count;
    var r := AfterLeave(s, c);
    if At(s, c, Waiting) {
      var f := s.callers[c].flight;
      assert CallerAt(s, c) && FlightAt(s, f);
      LeaderPassed(s, c);
      forall g: nat
        ensures Count(r.callers, g) == Count(s.callers, g) - if g == f then 1 else 0
      {
        CountUpdate(s.callers, c, Left, g);
      }
      if Current(s, f) {
        assert TableAt(s, s.flights[f].key);
      }
      forall k | k in r.table
        ensures TableAt(r, k)
      {
        assert TableAt(s, k);
      }
      forall g | 0 <= g < |r.flights|
        ensures FlightAt(r, g)
      {
        assert FlightAt(s, g);
      }
      forall d | 0 <= d < |r.callers|
        ensures CallerAt(r, d)
      {
        assert CallerAt(s, d);
        if r.callers[d].stage != Left {
          CountPositive(r.callers, d);
        }
      }
    }
  }

  /** When a waiting caller is the last one, the leader is already past the start: cancel is installed. */
  lemma {:induction false} LeaderPassed(s: State, c: nat)
    requires Inv(s) && At(s, c, Waiting)
    ensures Count(s.callers, s.callers[c].flight) == 1 ==> s.flights[s.callers[c].flight].hasCancel
  {
    var f := s.callers[c].flight;
    assert FlightAt(s, f);
    var leader := s.flights[f].leader;
    if s.callers[leader].stage == Starting {
      CountUpdate(s.callers, c, Left, f);
      CountPositive(s.callers[c := s.callers[c].(stage := Left)], leader);
    }
  }

  lemma {:induction false} CancelKeeps(s: State, f: nat)
    requires Inv(s)
    ensures Inv(Step(s, CallCancel(f)))
  {
    hide Count;
    var r := Step(s, CallCancel(f));
    forall k | k in r.table
      ensures TableAt(r, k)
    {
      assert TableAt(s, k);
    }
    forall g | 0 <= g < |r.flights|
      ensures FlightAt(r, g)
    {
      assert FlightAt(s, g);
    }
    forall c | 0 <= c < |r.callers|
      ensures CallerAt(r, c)
    {
      assert CallerAt(s, c);
    }
  }

  lemma {:induction false} FinishKeeps(s: State, f: nat)
    requires Inv(s)
    ensures Inv(Step(s, Finish(f)))
  {
    hide Count;
    var r := Step(s, Finish(f));
    forall k | k in r.table
      ensures TableAt(r, k)
    {
      assert TableAt(s, k);
    }
    forall g | 0 <= g < |r.flights|
      ensures FlightAt(r, g)
    {
      assert FlightAt(s, g);
    }
    forall c | 0 <= c < |r.callers|
      ensures CallerAt(r, c)
    {
      assert CallerAt(s, c);
    }
  }

  lemma {:induction false} RemoveKeeps(s: State, f: nat)
    requires Inv(s)
    ensures Inv(Step(s, Remove(f)))
  {
    hide Count;
    var r := Step(s, Remove(f));
    forall k | k in r.table
      ensures TableAt(r, k)
    {
      assert TableAt(s, k);
    }
    forall g | 0 <= g < |r.flights|
      ensures FlightAt(r, g)
    {
      assert FlightAt(s, g);
    }
    forall c | 0 <= c < |r.callers|
      ensures CallerAt(r, c)
    {
      assert CallerAt(s, c);
      assert FlightAt(s, s.callers[c].flight);
    }
  }

  lemma {:induction false} ReturnKeeps(s: State, c: nat)
    requires Inv(s)
    ensures Inv(Step(s, Return(c)))
  {
    hide Count;
    var r := Step(s, Return(c));
    if r != s {
      forall g: nat
        ensures Count(r.callers, g) == Count(s.callers, g)
      {
        CountUpdate(s.callers, c, Returned, g);
      }
      forall k | k in r.table
        ensures TableAt(r, k)
      {
        assert TableAt(s, k);
      }
      forall g | 0 <= g < |r.flights|
        ensures FlightAt(r, g)
      {
        assert FlightAt(s, g);
      }
      forall d | 0 <= d < |r.callers|
        ensures CallerAt(r, d)
      {
        assert CallerAt(s, d);
      }
    }
  }

  lemma {:induction false} StepKeeps(s: State, a: Action)
    requires Inv(s)
    ensures Inv(Step(s, a))
  {
    hide Inv, AfterJoin, AfterInstall, AfterLeave;
    match a
    case Join(key) => JoinKeeps(s, key);
    case Install(c) => InstallKeeps(s, c);
    case Leave(c) => LeaveKeeps(s, c);
    case CallCancel(f) => CancelKeeps(s, f);
    case Finish(f) => FinishKeeps(s, f);
    case Remove(f) => RemoveKeeps(s, f);
    case Return(c) => ReturnKeeps(s, c);
  }

  /** Every reachable state, whatever the interleaving. */
  lemma {:induction false} RunKeeps(actions: seq<Action>)
    ensures Inv(Run(actions))
  {
    hide Step, Inv;
    if |actions| == 0 {
      InitHolds();
    } else {
      RunKeeps(actions[..|actions| - 1]);
      StepKeeps(Run(actions[..|actions| - 1]), actions[|actions| - 1]);
    }
  }

  lemma {:induction false} InitHolds()
    ensures Inv(Init())
  {
  }

  // ----- What callers can rely on -----

  /** A key in the table has a flight that somebody counted waits for: nobody joins an abandoned request. */
  lemma {:induction false} JoinedFlightsAreWanted(s: State, key: string)
    requires Inv(s) && key in s.table
    ensures var r := AfterJoin(s, key);
            var f := r.callers[|s.callers|].flight;
            && f == s.table[key] && !Abandoned(s, f) && s.flights[f].waiters >= 1 && s.flights[f].key == key
  {
  }

  /** The step that counts the last waiter out takes the flight from the table and hands its cancel function over. */
  lemma {:induction false} LastOutCancels(s: State, c: nat)
    requires Inv(s) && At(s, c, Waiting) && Current(s, s.callers[c].flight)
    ensures var f := s.callers[c].flight;
            var r := AfterLeave(s, c);
            if Count(r.callers, f) == 0
            then s.flights[f].key !in r.table && f in r.owed
            else s.flights[f].key in r.table && r.table[s.flights[f].key] == f && r.owed == s.owed
  {
    hide Count;
    var f := s.callers[c].flight;
    assert TableAt(s, s.flights[f].key);
    LeaderPassed(s, c);
    CountUpdate(s.callers, c, Left, f);
  }

  /** No caller is left waiting for a request that was given up: its flight is current, or already done. */
  lemma {:induction false} NobodyWaitsInVain(actions: seq<Action>, c: nat)
    requires c < |Run(actions).callers| && Run(actions).callers[c].stage == Waiting
    ensures var s := Run(actions);
            var f := s.callers[c].flight;
            f < |s.flights| && !Abandoned(s, f) && (Current(s, f) || s.flights[f].done)
  {
    RunKeeps(actions);
    assert CallerAt(Run(actions), c);
    CountPositive(Run(actions).callers, c);
  }

  /** Finishing a flight leaves a newer flight under its key, and every other key, alone. */
  lemma {:induction false} FinishSparesNewer(s: State, f: nat, key: string)
    requires Inv(s) && f < |s.flights| && key in s.table && s.table[key] != f
    ensures key in Step(s, Remove(f)).table && Step(s, Remove(f)).table[key] == s.table[key]
  {
  }

  /** An abandoned flight is cancelled: its cancel function was called, or a caller that left is about to call it. */
  lemma {:induction false} AbandonedIsCancelled(actions: seq<Action>, f: nat)
    requires f < |Run(actions).flights| && !Current(Run(actions), f) && !Run(actions).flights[f].done
    ensures Run(actions).flights[f].cancelled || f in Run(actions).owed
  {
    RunKeeps(actions);
    assert FlightAt(Run(actions), f);
  }
}

/** The flight table of the service: its methods are the locked sections. */
module HistoryFlights {
  import opened FlightSteps

  class FlightTable {
    var historyFlights: map<string, nat>
    var flights: seq<Flight>
    var callers: seq<Caller>
    var owed: set<nat>

    function Abstract(): State
      reads this
    {
      State(historyFlights, flights, callers, owed)
    }

    constructor ()
      ensures Abstract() == Init() && Inv(Abstract())
    {
      historyFlights, flights, callers, owed := map[], [], [], {};
      new;
      InitHolds();
    }

    method JoinHistoryFlight(key: string) returns (flight: nat, leader: bool)
      requires Inv(Abstract())
      modifies this
      ensures Inv(Abstract()) && Abstract() == AfterJoin(old(Abstract()), key)
      ensures leader == (key !in old(historyFlights))
      ensures flight < |flights| && historyFlights[key] == flight && flights[flight].waiters >= 1
    {
      JoinKeeps(Abstract(), key);
      if key in historyFlights {
        flight := historyFlights[key];
        assert TableAt(Abstract(), key);
        flights := flights[flight := flights[flight].(waiters := flights[flight].waiters + 1)];
        callers := callers + [Caller(flight, Waiting)];
        return flight, false;
      }
      flight := |flights|;
      flights := flights + [Flight(key, 1, |callers|, false, false, false, false)];
      historyFlights := historyFlights[key := flight];
      callers := callers + [Caller(flight, Starting)];
      return flight, true;
    }

    /** The leader's second locked section. */
    method InstallCancel(caller: nat)
      requires Inv(Abstract()) && At(Abstract(), caller, Starting)
      modifies this
      ensures Inv(Abstract()) && Abstract() == AfterInstall(old(Abstract()), caller)
      ensures flights[callers[caller].flight].hasCancel
    {
      InstallKeeps(Abstract(), caller);
      assert CallerAt(Abstract(), caller);
      var flight := callers[caller].flight;
      var key := flights[flight].key;
      if key in historyFlights && historyFlights[key] == flight {
        flights := flights[flight := flights[flight].(hasCancel := true)];
      }
      callers := callers[caller := callers[caller].(stage := Waiting)];
    }

    /** Returns the cancel function to call, if this was the last waiter. */
    method LeaveHistoryFlight(caller: nat) returns (cancel: bool)
      requires Inv(Abstract()) && At(Abstract(), caller, Waiting)
      modifies this
      ensures Inv(Abstract()) && Abstract() == AfterLeave(old(Abstract()), caller)
      ensures cancel <==>
                && Current(old(Abstract()), old(callers[caller].flight))
                && Count(callers, old(callers[caller].flight)) == 0
    {
      hide Count;
      LeaveKeeps(Abstract(), caller);
      var flight := callers[caller].flight;
      var key := flights[flight].key;
      cancel := false;
      if key in historyFlights && historyFlights[key] == flight {
        LastOutCancels(Abstract(), caller);
        LeaderPassed(Abstract(), caller);
        CountUpdate(callers, caller, Left, flight);
        assert TableAt(Abstract(), key);
        flights := flights[flight := flights[flight].(waiters := flights[flight].waiters - 1)];
        if flights[flight].waiters <= 0 {
          historyFlights := historyFlights - {key};
          cancel := flights[flight].hasCancel;
          if cancel {
            owed := owed + {flight};
          }
        }
      }
      callers := callers[caller := callers[caller].(stage := Left)];
    }

    /** finishHistoryFlight: the result is published first, the table is cleaned in a locked section of its own. */
    method PublishResult(flight: nat)
      requires Inv(Abstract()) && flight < |flights| && !flights[flight].done && flights[flight].hasCancel
      modifies this
      ensures Inv(Abstract()) && Abstract() == Step(old(Abstract()), Finish(flight))
    {
      FinishKeeps(Abstract(), flight);
      assert FlightAt(Abstract(), flight);
      flights := flights[flight := flights[flight].(done := true)];
    }

    method RemoveFinished(flight: nat)
      requires Inv(Abstract()) && flight < |flights| && flights[flight].done && !flights[flight].removed
      modifies this
      ensures Inv(Abstract()) && Abstract() == Step(old(Abstract()), Remove(flight))
      ensures forall key | key in old(historyFlights) && old(historyFlights)[key] != flight ::
                key in historyFlights && historyFlights[key] == old(historyFlights)[key]
    {
      RemoveKeeps(Abstract(), flight);
      var key := flights[flight].key;
      flights := flights[flight := flights[flight].(removed := true)];
      if key in historyFlights && historyFlights[key] == flight {
        historyFlights := historyFlights - {key};
      }
    }
  }
}
