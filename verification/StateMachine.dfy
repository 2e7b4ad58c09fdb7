/** The state machine engine of framework/common/state_machine.c.

    Handlers are arbitrary code; what matters to the engine is which transitions they make.  A
    `Trans` is one call of `hsm_transition_to` together with the calls made, while it runs, by the
    exit handler of the state being left and by the enter handler of the new state.  The trace
    records each handler call when it starts. */
module StateMachine {

  datatype Trans = Trans(state: nat, onExit: seq<Trans>, onEnter: seq<Trans>)

  datatype Event = Enter(state: nat) | Exit(state: nat)

  /** -1 is NULL. */
  datatype Sm = Sm(current: int, previous: int, trace: seq<Event>)

  const FRESH := Sm(-1, -1, [])

  /** `hsm_transition_to`; `previous_state` is set from `current_state` as the exit handler left it. */
  function Transition(sm: Sm, t: Trans): Sm
    decreases t, 1
  {
    var left :=
      if sm.current >= 0 then
        var r := RunAll(sm.(trace := sm.trace + [Exit(sm.current)]), t.onExit);
        r.(previous := r.current)
      else sm;
    RunAll(left.(current := t.state, trace := left.trace + [Enter(t.state)]), t.onEnter)
  }

  /** Calls made one after the other: by a handler, or by the events dispatched over a whole run. */
  function RunAll(sm: Sm, ts: seq<Trans>): Sm
    decreases ts, 0
  {
    if ts == [] then sm else RunAll(Transition(sm, ts[0]), ts[1..])
  }

  /** The trace reads enter(s), exit(s), enter(t), exit(t), ... */
  ghost predicate Alternates(tr: seq<Event>) {
    forall i, j :: 0 <= i < |tr| && j == i - 1 ==> Fits(tr, i, j)
  }

  ghost predicate Fits(tr: seq<Event>, i: nat, j: int)
    requires i < |tr| && j == i - 1
  {
    if i % 2 == 0 then tr[i].Enter? else tr[i] == Exit(tr[j].state)
  }

  /** Bracketed, current state = last entered, previous state = last exited. */
  ghost predicate Good(sm: Sm) {
    && Alternates(sm.trace)
    && (if sm.current < 0 then sm.trace == [] && sm.previous == -1
        else |sm.trace| % 2 == 1 && sm.trace[|sm.trace| - 1] == Enter(sm.current) &&
             sm.previous == if |sm.trace| == 1 then -1 else sm.trace[|sm.trace| - 2].state)
  }

  /** No exit handler that runs makes a transition; `started` says that there is a current state,
      so that an exit handler does run. */
  ghost predicate QuietExits(t: Trans, started: bool)
    decreases t, 1
  {
    (started ==> t.onExit == []) && QuietAll(t.onEnter, true)
  }

  ghost predicate QuietAll(ts: seq<Trans>, started: bool)
    decreases ts, 0
  {
    ts == [] || (QuietExits(ts[0], started) && QuietAll(ts[1..], true))
  }

  lemma {:induction false} AlternatesPrefix(tr: seq<Event>, more: seq<Event>)
    requires Alternates(tr + more)
    ensures Alternates(tr)
  {
    forall i, j | 0 <= i < |tr| && j == i - 1 ensures Fits(tr, i, j) {
      assert Fits(tr + more, i, j);
    }
  }

  lemma {:induction false} AlternatesAppend(tr: seq<Event>, e: Event)
    requires Alternates(tr)
    requires if |tr| % 2 == 0 then e.Enter? else e == Exit(tr[|tr| - 1].state)
    ensures Alternates(tr + [e])
  {
    forall i, j | 0 <= i < |tr| + 1 && j == i - 1 ensures Fits(tr + [e], i, j) {
      if i < |tr| {
        assert Fits(tr, i, j);
      }
    }
  }

  /** The engine only ever adds to the trace, and leaves a current state. */
  lemma {:induction false} TransitionGrows(sm: Sm, t: Trans)
    ensures sm.trace <= Transition(sm, t).trace && Transition(sm, t).current >= 0
    ensures sm.current >= 0 ==> sm.trace + [Exit(sm.current)] <= Transition(sm, t).trace
    decreases t, 1
  {
    var left := sm;
    if sm.current >= 0 {
      var x := sm.(trace := sm.trace + [Exit(sm.current)]);
      RunAllGrows(x, t.onExit);
      left := RunAll(x, t.onExit).(previous := RunAll(x, t.onExit).current);
    }
    RunAllGrows(left.(current := t.state, trace := left.trace + [Enter(t.state)]), t.onEnter);
  }

  lemma {:induction false} RunAllGrows(sm: Sm, ts: seq<Trans>)
    ensures sm.trace <= RunAll(sm, ts).trace
    ensures sm.current >= 0 ==> RunAll(sm, ts).current >= 0
    decreases ts, 0
  {
    if ts == [] {
    } else {
      TransitionGrows(sm, ts[0]);
      RunAllGrows(Transition(sm, ts[0]), ts[1..]);
    }
  }

  lemma {:induction false} BrokenStaysBroken(tr: seq<Event>, longer: seq<Event>)
    requires tr <= longer && !Alternates(tr)
    ensures !Alternates(longer)
  {
    assert longer == tr + longer[|tr|..];
    if Alternates(longer) {
      AlternatesPrefix(tr, longer[|tr|..]);
    }
  }

  /** Leaving a state while its exit handler makes a transition logs two exits in a row. */
  lemma {:induction false} ExitTransitionBreaks(sm: Sm, t: Trans)
    requires Good(sm) && sm.current >= 0 && t.onExit != []
    ensures !Alternates(Transition(sm, t).trace)
  {
    var x := sm.(trace := sm.trace + [Exit(sm.current)]);
    TransitionGrows(x, t.onExit[0]);
    RunAllGrows(Transition(x, t.onExit[0]), t.onExit[1..]);
    var bad := x.trace + [Exit(x.current)];
    var left := RunAll(x, t.onExit);
    assert bad <= left.trace;
    assert !Fits(bad, |bad| - 1, |bad| - 2);
    var entered := Sm(t.state, left.current, left.trace + [Enter(t.state)]);
    RunAllGrows(entered, t.onEnter);
    assert bad <= Transition(sm, t).trace;
    BrokenStaysBroken(bad, Transition(sm, t).trace);
  }

  lemma {:induction false} TransitionBrackets(sm: Sm, t: Trans)
    requires Good(sm)
    ensures QuietExits(t, sm.current >= 0) ==> Good(Transition(sm, t))
    ensures !QuietExits(t, sm.current >= 0) ==> !Alternates(Transition(sm, t).trace)
    decreases t, 1
  {
    if sm.current >= 0 && t.onExit != [] {
      ExitTransitionBreaks(sm, t);
    } else {
      var left := if sm.current >= 0 then Sm(sm.current, sm.current, sm.trace + [Exit(sm.current)]) else sm;
      if sm.current >= 0 {
        AlternatesAppend(sm.trace, Exit(sm.current));
      }
      var r := left.(current := t.state, trace := left.trace + [Enter(t.state)]);
      AlternatesAppend(left.trace, Enter(t.state));
      assert Transition(sm, t) == RunAll(r, t.onEnter);
      RunBrackets(r, t.onEnter);
    }
  }

  /** Over every run, nested transitions from enter handlers included, the trace is bracketed, the
      current state is the last entered and the previous state the last exited, if and only if no
      exit handler that ran made a transition. */
  lemma {:induction false} RunBrackets(sm: Sm, ts: seq<Trans>)
    requires Good(sm)
    ensures QuietAll(ts, sm.current >= 0) ==> Good(RunAll(sm, ts))
    ensures Alternates(RunAll(sm, ts).trace) <==> QuietAll(ts, sm.current >= 0)
    decreases ts, 0
  {
    if ts == [] {
    } else {
      var r := Transition(sm, ts[0]);
      TransitionBrackets(sm, ts[0]);
      TransitionGrows(sm, ts[0]);
      if QuietExits(ts[0], sm.current >= 0) {
        RunBrackets(r, ts[1..]);
      } else {
        RunAllGrows(r, ts[1..]);
        BrokenStaysBroken(r.trace, RunAll(r, ts[1..]).trace);
      }
    }
  }

  // ----- Which states are entered -----

  function Entered(tr: seq<Event>): seq<nat> {
    if tr == [] then []
    else if tr[|tr| - 1].Enter? then Entered(tr[..|tr| - 1]) + [tr[|tr| - 1].state]
    else Entered(tr[..|tr| - 1])
  }

  /** The states a call asks for, in the order in which they take effect: first those that the exit handler
      asks for, if there is a state to leave, then its own, then those of its enter handler. */
  function Asked(t: Trans, started: bool): seq<nat>
    decreases t, 1
  {
    (if started then AskedAll(t.onExit, true) else []) + [t.state] + AskedAll(t.onEnter, true)
  }

  function AskedAll(ts: seq<Trans>, started: bool): seq<nat>
    decreases ts, 0
  {
    if ts == [] then [] else Asked(ts[0], started) + AskedAll(ts[1..], true)
  }

  lemma {:induction false} EnteredAppend(tr: seq<Event>, e: Event)
    ensures Entered(tr + [e]) == if e.Enter? then Entered(tr) + [e.state] else Entered(tr)
  {
    assert (tr + [e])[..|tr|] == tr;
  }

  lemma {:induction false} Associate(a: seq<nat>, b: seq<nat>, c: seq<nat>)
    ensures a + b + c == a + (b + c)
  {
  }

  lemma {:induction false} TransitionEnters(sm: Sm, t: Trans)
    ensures Entered(Transition(sm, t).trace) == Entered(sm.trace) + Asked(t, sm.current >= 0)
    decreases t, 1
  {
    var before, own := if sm.current >= 0 then AskedAll(t.onExit, true) else [], [t.state];
    var left := sm;
    if sm.current >= 0 {
      var x := sm.(trace := sm.trace + [Exit(sm.current)]);
      EnteredAppend(sm.trace, Exit(sm.current));
      RunEnters(x, t.onExit);
      left := RunAll(x, t.onExit).(previous := RunAll(x, t.onExit).current);
    }
    assert Entered(left.trace) == Entered(sm.trace) + before;
    EnteredAppend(left.trace, Enter(t.state));
    RunEnters(left.(current := t.state, trace := left.trace + [Enter(t.state)]), t.onEnter);
    Associate(Entered(sm.trace), before, own);
    Associate(Entered(sm.trace), before + own, AskedAll(t.onEnter, true));
  }

  /** Over every run, whatever its handlers do, exactly the states asked for are entered, in the order in
      which the calls take effect. */
  lemma {:induction false} RunEnters(sm: Sm, ts: seq<Trans>)
    ensures Entered(RunAll(sm, ts).trace) == Entered(sm.trace) + AskedAll(ts, sm.current >= 0)
    decreases ts, 0
  {
    if ts == [] {
    } else {
      TransitionEnters(sm, ts[0]);
      TransitionGrows(sm, ts[0]);
      RunEnters(Transition(sm, ts[0]), ts[1..]);
      Associate(Entered(sm.trace), Asked(ts[0], sm.current >= 0), AskedAll(ts[1..], true));
    }
  }

  /** The current state is the last one entered, the previous state the one entered before it. */
  ghost predicate Current(sm: Sm) {
    var e := Entered(sm.trace);
    && sm.current == (if e == [] then -1 else e[|e| - 1])
    && sm.previous == (if |e| < 2 then -1 else e[|e| - 2])
  }

  lemma {:induction false} TransitionCurrent(sm: Sm, t: Trans)
    requires Current(sm)
    ensures Current(Transition(sm, t))
    decreases t, 1
  {
    var left := sm;
    if sm.current >= 0 {
      var x := sm.(trace := sm.trace + [Exit(sm.current)]);
      EnteredAppend(sm.trace, Exit(sm.current));
      RunCurrent(x, t.onExit);
      RunAllGrows(x, t.onExit);
      left := RunAll(x, t.onExit).(previous := RunAll(x, t.onExit).current);
    }
    EnteredAppend(left.trace, Enter(t.state));
    RunCurrent(left.(current := t.state, trace := left.trace + [Enter(t.state)]), t.onEnter);
  }

  /** And that holds over every run, even where exit handlers make transitions. */
  lemma {:induction false} RunCurrent(sm: Sm, ts: seq<Trans>)
    requires Current(sm)
    ensures Current(RunAll(sm, ts))
    decreases ts, 0
  {
    if ts == [] {
    } else {
      TransitionCurrent(sm, ts[0]);
      RunCurrent(Transition(sm, ts[0]), ts[1..]);
    }
  }

  /** The same from `hsm_ctor` on: `first` is the initial transition, `ts` those of all events. */
  lemma {:induction false} MachineBrackets(first: Trans, ts: seq<Trans>)
    ensures var sm := RunAll(Transition(FRESH, first), ts);
            && (Good(sm) <==> QuietExits(first, false) && QuietAll(ts, true))
            && (Alternates(sm.trace) <==> Good(sm))
  {
    var all := [first] + ts;
    assert all[1..] == ts;
    RunBrackets(FRESH, all);
    assert RunAll(FRESH, all) == RunAll(Transition(FRESH, first), ts);
  }

  // ----- The machine itself -----

  class Machine {
    var initial: int
    var current: int
    var previous: int
    ghost var trace: seq<Event>

    ghost function View(): Sm
      reads this
    {
      Sm(current, previous, trace)
    }

    /** `hsm_ctor`. */
    constructor (first: Trans)
      ensures View() == Transition(FRESH, first) && initial == first.state
    {
      initial, current, previous, trace := first.state, -1, -1, [];
      new;
      TransitionTo(first);
    }

    /** `hsm_transition_to`. */
    method TransitionTo(t: Trans)
      modifies this
      ensures View() == Transition(old(View()), t) && initial == old(initial)
      decreases t, 1
    {
      if current >= 0 {
        trace := trace + [Exit(current)];
        RunHandler(t.onExit);
        previous := current;
      }
      current := t.state;
      trace := trace + [Enter(t.state)];
      RunHandler(t.onEnter);
    }

    /** The transitions a handler makes. */
    method RunHandler(ts: seq<Trans>)
      modifies this
      ensures View() == RunAll(old(View()), ts) && initial == old(initial)
      decreases ts, 0
    {
      if ts != [] {
        TransitionTo(ts[0]);
        RunHandler(ts[1..]);
      }
    }

    /** `hsm_dispatch_event` of an event whose handler makes the transitions `ts` and returns `handled`. */
    method DispatchEvent(ts: seq<Trans>, handled: bool) returns (r: bool)
      modifies this
      ensures r <==> old(current) >= 0 && handled
      ensures View() == if old(current) >= 0 then RunAll(old(View()), ts) else old(View())
    {
      if current < 0 {
        return false;
      }
      RunHandler(ts);
      return handled;
    }
  }
}
