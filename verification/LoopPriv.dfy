/** The loop's private data and the functions of framework/common/uv_thread_loop.c that update
    it in place.  Each method is one step of ThreadLoop; `View` is the state it works on. */
module LoopPriv {
  import opened ThreadLoop
  import opened ThreadLoopTheorems

  class Loop {
    var msgQueue: seq<Msg>
    var asyncOpen: bool
    var asyncPending: bool
    var stopFlag: bool
    var isRunning: bool
    var ready: nat
    var runReturned: bool
    var exited: nat
    var pc: Pc
    var exitPc: ExitPc
    var stopId: int
    var signals: map<nat, nat>
    ghost var log: History

    ghost function View(): State
      reads this
    {
      State(msgQueue, asyncOpen, asyncPending, stopFlag, isRunning, ready, runReturned, exited, pc, exitPc, stopId,
            signals, log)
    }

    /** `thread_loop_init`. */
    constructor ()
      ensures View() == INIT
    {
      msgQueue, asyncOpen, asyncPending, stopFlag, isRunning := [], false, false, false, false;
      ready, runReturned, exited, pc, exitPc, stopId, signals := 0, false, 0, Created, NotExiting, -1, map[];
      log := NO_HISTORY;
    }

    /** `do_in_thread_loop` up to the unlock, called by a client; `id` names the new message. */
    method Enqueue(kind: Kind, id: nat)
      requires id == |log.posted|
      modifies this`msgQueue, this`signals, this`log
      ensures View() == PostMsg(old(View()), kind)
    {
      var m := Msg(id, kind);
      if kind.Sync? {
        signals := signals[id := 0];
      }
      msgQueue := msgQueue + [m];
      log := log.(posted := log.posted + [m], owing := log.owing + {id});
    }

    /** `uv_async_send`. */
    method AsyncSend(ghost id: nat)
      modifies this`log, this`asyncPending
      ensures View() == SendAsync(old(View()), id)
    {
      log := log.(owing := log.owing - {id});
      if asyncOpen {
        asyncPending := true;
      }
    }

    /** One turn of the `for` loop of `thread_message_callback` up to the unlock. */
    method RemoveHead() returns (found: bool)
      requires pc.AtLock?
      modifies this`msgQueue, this`pc, this`log
      ensures View() == TakeHead(old(View())) && found == (old(msgQueue) != [])
    {
      found := msgQueue != [];
      if found {
        pc := InFunc(msgQueue[0]);
        msgQueue := msgQueue[1..];
      } else {
        pc := Polling;
        log := log.(sealed := if stopFlag then |log.posted| else log.sealed);
      }
    }

    /** `set_ready`. */
    method SetReadyFunc()
      requires pc.InFunc? && pc.m.kind.SetReady?
      modifies this`log, this`isRunning, this`exited, this`ready, this`pc
      ensures View() == CallFunc(old(View()))
    {
      isRunning, exited, ready := true, 0, ready + 1;
      log := log.(ran := log.ran + [pc.m]);
      pc := FuncDone(pc.m);
    }

    /** `set_stop`. */
    method SetStopFunc()
      requires pc.InFunc? && pc.m.kind.SetStop?
      modifies this`log, this`isRunning, this`asyncOpen, this`stopFlag, this`pc
      ensures View() == CallFunc(old(View()))
    {
      isRunning, asyncOpen, stopFlag := false, false, true;
      log := log.(ran := log.ran + [pc.m]);
      pc := FuncDone(pc.m);
    }

    /** A client's function. */
    method ClientFunc()
      requires pc.InFunc? && pc.m.kind.Plain?
      modifies this`log, this`pc
      ensures View() == CallFunc(old(View()))
    {
      log := log.(ran := log.ran + [pc.m]);
      pc := FuncDone(pc.m);
    }

    /** `thread_sync_callback` up to the return of the caller's function. */
    method SyncFunc()
      requires pc.InFunc? && pc.m.kind.Sync?
      modifies this`log, this`pc
      ensures View() == CallFunc(old(View()))
    {
      log := log.(ran := log.ran + [pc.m], stackFault := log.stackFault || pc.m.id !in signals);
      pc := InSignal(pc.m);
    }

    /** `uv_sem_post(&msg->signal)`. */
    method SignalCaller()
      requires pc.InSignal?
      modifies this`signals, this`pc, this`log
      ensures View() == PostSignal(old(View()))
    {
      if pc.m.id in signals {
        signals := signals[pc.m.id := signals[pc.m.id] + 1];
      } else {
        log := log.(stackFault := true);
      }
      pc := FuncDone(pc.m);
    }

    /** `free(imsg)`. */
    method FreeMessage()
      requires pc.FuncDone?
      modifies this`pc, this`log
      ensures View() == Complete(old(View()))
    {
      log := log.(executed := log.executed + [pc.m]);
      pc := AtLock;
    }

    /** The function of the message in hand runs and returns. */
    method RunBody()
      requires pc.InFunc?
      modifies this`log, this`isRunning, this`exited, this`ready, this`asyncOpen, this`stopFlag, this`pc, this`signals
      ensures View() == Body(old(View()))
    {
      match pc.m.kind {
        case SetReady => SetReadyFunc();
        case SetStop => SetStopFunc();
        case Plain => ClientFunc();
        case Sync =>
          SyncFunc();
          SignalCaller();
      }
    }

    /** `do_in_thread_loop` by another thread, with or without its send. */
    method OtherCalls(c: Call, id: nat)
      requires id == |log.posted|
      modifies this`msgQueue, this`signals, this`log, this`asyncPending
      ensures View() == OneCall(old(View()), c)
    {
      Enqueue(c.kind, id);
      if c.sent {
        AsyncSend(id);
      }
    }

    /** Calls by other threads between two critical sections of the drain. */
    method OthersCall(calls: seq<Call>, first: nat)
      requires first == |log.posted|
      modifies this`msgQueue, this`signals, this`log, this`asyncPending
      ensures View() == Calls(old(View()), calls)
    {
      for i := 0 to |calls|
        invariant View() == Calls(old(View()), calls[..i]) && |log.posted| == first + i
      {
        OneCallKeeps(View(), calls[i]);
        CallsSnoc(old(View()), calls, i);
        OtherCalls(calls[i], first + i);
      }
      assert calls[..|calls|] == calls;
    }

    /** One turn of the drain, during which other threads make `calls`. */
    method TakeTurn(calls: seq<Call>, first: nat) returns (found: bool)
      requires pc.AtLock? && first == |log.posted|
      modifies this
      ensures found == (old(msgQueue) != [])
      ensures if found then IsTurn(old(View()), calls, View()) else View() == TakeHead(old(View()))
    {
      found := RemoveHead();
      if found {
        CallsKeep(View(), calls);
        BodyReturns(Calls(View(), calls));
        OthersCall(calls, first);
        RunBody();
        FreeMessage();
      }
    }

    /** `thread_message_callback` while other threads make the calls `others[i]` during its `i`-th turn: it
        executes the queue and everything posted before it sees the queue empty, in order, and the whole
        of it, with those calls, is a run of the protocol. */
    method MessageCallback(others: seq<seq<Call>>, first: nat) returns (turns: nat, ghost run: seq<Label>)
      requires pc.AtLock? && first == |log.posted| && forall i :: 0 <= i < |others| ==> AllMayPost(View(), others[i])
      modifies this
      ensures pc.Polling? && msgQueue == []
      ensures log.executed == old(log).executed + old(msgQueue) + Numbered(Joined(others, turns), first)
      ensures log.posted == old(log).posted + Numbered(Joined(others, turns), first)
      ensures log.discarded == old(log).discarded
      ensures ValidRun(old(View()), run) && Final(old(View()), run) == View()
    {
      turns := 0;
      var next := first;
      ghost var states := [View()];
      while true
        invariant |states| == turns + 1 && states[0] == old(View()) && states[turns] == View()
        invariant pc.AtLock? && next == |log.posted| && Turns(states, others)
        decreases if turns < |others| then |others| - turns else 0, |msgQueue|
      {
        var calls := During(others, turns);
        var found := TakeTurn(calls, next);
        if !found {
          break;
        }
        TurnKeeps(states[turns], calls, View());
        states := states + [View()];
        turns, next := turns + 1, next + |calls|;
      }
      TurnsInLine(states, others, turns);
      run := TurnsRun(states, others);
      RunAppend(old(View()), run, Take);
      run := run + [Take];
    }

    /** The last part of `thread_loop_exit`: the leftovers are unlinked and freed one by one. */
    method FreeLeftovers()
      requires exitPc.Woken?
      modifies this`msgQueue, this`log, this`exitPc
      ensures View() == DiscardQueue(old(View()))
    {
      while msgQueue != []
        invariant log.discarded + msgQueue == old(log).discarded + old(msgQueue)
        invariant log == old(log).(discarded := log.discarded)
        decreases |msgQueue|
      {
        assert msgQueue == [msgQueue[0]] + msgQueue[1..];
        log := log.(discarded := log.discarded + [msgQueue[0]]);
        msgQueue := msgQueue[1..];
      }
      exitPc := Freed;
    }
  }

  // ----- The drain as one function, and as a run -----

  /** A call of `do_in_thread_loop` or its synchronous form; `sent`: its `uv_async_send` comes at once. */
  datatype Call = Call(kind: Kind, sent: bool)

  /** The message's function and, for a synchronous call, the signal. */
  function Body(s: State): State
    requires s.pc.InFunc?
  {
    var r := CallFunc(s);
    if r.pc.InSignal? then PostSignal(r) else r
  }

  lemma {:induction false} FuncKeeps(s: State)
    requires s.pc.InFunc?
    ensures var r := CallFunc(s);
            && (r.pc == FuncDone(s.pc.m) || r.pc == InSignal(s.pc.m)) && r.queue == s.queue
            && r.runReturned == s.runReturned && r.exitPc == s.exitPc
            && r.log.executed == s.log.executed && r.log.posted == s.log.posted && r.log.discarded == s.log.discarded
  {
    var m, log := s.pc.m, s.log.(ran := s.log.ran + [s.pc.m]);
    match m.kind
    case SetReady =>
      assert CallFunc(s) == s.(isRunning := true, exitedSem := 0, readySem := s.readySem + 1, pc := FuncDone(m),
                               log := log);
    case SetStop =>
      assert CallFunc(s) == s.(isRunning := false, asyncOpen := false, stopFlag := true, pc := FuncDone(m), log := log);
    case Plain => assert CallFunc(s) == s.(pc := FuncDone(m), log := log);
    case Sync =>
      var fault := s.log.stackFault || m.id !in s.signals;
      assert CallFunc(s) == s.(pc := InSignal(m), log := log.(stackFault := fault));
  }

  lemma {:induction false} SignalKeeps(s: State)
    requires s.pc.InSignal?
    ensures var r := PostSignal(s);
            && r.pc == FuncDone(s.pc.m) && r.queue == s.queue
            && r.runReturned == s.runReturned && r.exitPc == s.exitPc
            && r.log.executed == s.log.executed && r.log.posted == s.log.posted && r.log.discarded == s.log.discarded
  {
    if s.pc.m.id in s.signals {
    } else {
    }
  }

  lemma {:induction false} BodyReturns(s: State)
    requires s.pc.InFunc?
    ensures var r := Body(s);
            && r.pc == FuncDone(s.pc.m) && r.queue == s.queue
            && r.runReturned == s.runReturned && r.exitPc == s.exitPc
            && r.log.executed == s.log.executed && r.log.posted == s.log.posted && r.log.discarded == s.log.discarded
  {
    FuncKeeps(s);
    if CallFunc(s).pc.InSignal? {
      SignalKeeps(CallFunc(s));
    }
  }

  function OneCall(s: State, c: Call): State {
    var r := PostMsg(s, c.kind);
    if c.sent then SendAsync(r, |s.log.posted|) else r
  }

  function Calls(s: State, calls: seq<Call>): State {
    if calls == [] then s else OneCall(Calls(s, calls[..|calls| - 1]), calls[|calls| - 1])
  }

  /** The messages of calls, numbered in lock order. */
  function Numbered(calls: seq<Call>, first: nat): (r: seq<Msg>)
    ensures |r| == |calls| && forall i :: 0 <= i < |calls| ==> r[i] == Msg(first + i, calls[i].kind)
  {
    seq(|calls|, i requires 0 <= i < |calls| => Msg(first + i, calls[i].kind))
  }

  /** Calls by others append their messages and touch nothing else that the drain uses. */
  lemma {:induction false} CallsKeep(s: State, calls: seq<Call>)
    ensures var r := Calls(s, calls);
            && r.pc == s.pc && r.runReturned == s.runReturned && r.exitPc == s.exitPc
            && r.queue == s.queue + Numbered(calls, |s.log.posted|)
            && r.log == s.log.(posted := s.log.posted + Numbered(calls, |s.log.posted|), owing := r.log.owing)
    decreases |calls|
  {
    if calls == [] {
    } else {
      var n := |calls| - 1;
      CallsKeep(s, calls[..n]);
      var m := Msg(|s.log.posted| + n, calls[n].kind);
      assert Numbered(calls, |s.log.posted|) == Numbered(calls[..n], |s.log.posted|) + [m];
      OneCallKeeps(Calls(s, calls[..n]), calls[n]);
      Associate(s.queue, Numbered(calls[..n], |s.log.posted|), [m]);
      Associate(s.log.posted, Numbered(calls[..n], |s.log.posted|), [m]);
    }
  }

  lemma {:induction false} CallsSnoc(s: State, calls: seq<Call>, i: nat)
    requires i < |calls|
    ensures Calls(s, calls[..i + 1]) == OneCall(Calls(s, calls[..i]), calls[i])
  {
    assert calls[..i + 1][..i] == calls[..i];
  }

  lemma {:induction false} PostKeeps(s: State, k: Kind)
    ensures var r, m := PostMsg(s, k), Msg(|s.log.posted|, k);
            && r.pc == s.pc && r.runReturned == s.runReturned && r.exitPc == s.exitPc
            && r.queue == s.queue + [m]
            && r.log == s.log.(posted := s.log.posted + [m], owing := s.log.owing + {m.id})
  {
    var r := Enqueue(s, k);
    if k.Sync? {
      assert PostMsg(s, k) == r.(signals := s.signals[|s.log.posted| := 0]);
    } else {
      assert PostMsg(s, k) == r;
    }
  }

  lemma {:induction false} OneCallKeeps(s: State, c: Call)
    ensures var r, m := OneCall(s, c), Msg(|s.log.posted|, c.kind);
            && r.pc == s.pc && r.runReturned == s.runReturned && r.exitPc == s.exitPc
            && r.queue == s.queue + [m]
            && r.log == s.log.(posted := s.log.posted + [m], owing := r.log.owing)
  {
    PostKeeps(s, c.kind);
  }

  /** A turn of the drain that finds a message. */
  ghost predicate IsTurn(s: State, calls: seq<Call>, r: State) {
    && s.pc.AtLock? && s.queue != []
    && var t := Calls(TakeHead(s), calls);
       t.pc.InFunc? && Body(t).pc.FuncDone? && r == Complete(Body(t))
  }

  lemma {:induction false} TurnKeeps(s: State, calls: seq<Call>, r: State)
    requires IsTurn(s, calls, r)
    ensures r.pc.AtLock? && r.runReturned == s.runReturned && r.exitPc == s.exitPc
    ensures r.queue == s.queue[1..] + Numbered(calls, |s.log.posted|)
    ensures r.log.executed == s.log.executed + [s.queue[0]]
    ensures r.log.posted == s.log.posted + Numbered(calls, |s.log.posted|) && r.log.discarded == s.log.discarded
  {
    CallsKeep(TakeHead(s), calls);
    BodyReturns(Calls(TakeHead(s), calls));
  }

  /** What other threads call during turn `i`. */
  function During(others: seq<seq<Call>>, i: nat): seq<Call> { if i < |others| then others[i] else [] }

  /** And during the first `n` turns. */
  function Joined(others: seq<seq<Call>>, n: nat): seq<Call> {
    if n == 0 then [] else Joined(others, n - 1) + During(others, n - 1)
  }

  /** The states between the turns. */
  ghost predicate Turns(states: seq<State>, others: seq<seq<Call>>) {
    forall i :: 0 <= i < |states| - 1 ==> IsTurn(states[i], During(others, i), states[i + 1])
  }

  lemma {:induction false} Associate(a: seq<Msg>, b: seq<Msg>, c: seq<Msg>)
    ensures a + b + c == a + (b + c)
  {
  }

  lemma {:induction false} OneMore(first: seq<Msg>, more: seq<Msg>, done: seq<Msg>, queue: seq<Msg>, now: seq<Msg>)
    requires queue != [] && done + queue == first + more
    ensures done + [queue[0]] + (queue[1..] + now) == first + (more + now)
  {
    assert queue == [queue[0]] + queue[1..];
    assert done + [queue[0]] + (queue[1..] + now) == done + queue + now;
    Associate(first, more, now);
  }

  lemma {:induction false} NumberedConcat(a: seq<Call>, b: seq<Call>, first: nat)
    ensures Numbered(a + b, first) == Numbered(a, first) + Numbered(b, first + |a|)
  {
  }

  /** From `s` to `r` the others made `calls`, and what was in line is executed or still in line. */
  ghost predicate InLine(s: State, calls: seq<Call>, r: State) {
    && r.log.executed + r.queue == s.log.executed + s.queue + Numbered(calls, |s.log.posted|)
    && r.log.posted == s.log.posted + Numbered(calls, |s.log.posted|) && r.log.discarded == s.log.discarded
  }

  lemma {:induction false} TurnInLine(s: State, before: seq<Call>, t: State, calls: seq<Call>, r: State)
    requires InLine(s, before, t) && IsTurn(t, calls, r)
    ensures InLine(s, before + calls, r)
  {
    TurnKeeps(t, calls, r);
    var more, now := Numbered(before, |s.log.posted|), Numbered(calls, |t.log.posted|);
    NumberedConcat(before, calls, |s.log.posted|);
    OneMore(s.log.executed + s.queue, more, t.log.executed, t.queue, now);
    Associate(s.log.posted, more, now);
  }

  lemma {:induction false} TurnsInLine(states: seq<State>, others: seq<seq<Call>>, n: nat)
    requires n < |states| && Turns(states, others)
    ensures InLine(states[0], Joined(others, n), states[n])
    decreases n
  {
    if n == 0 {
      var s := states[0];
      assert s.log.executed + s.queue + [] == s.log.executed + s.queue;
    } else {
      TurnsInLine(states, others, n - 1);
      assert IsTurn(states[n - 1], During(others, n - 1), states[n - 1 + 1]);
      TurnInLine(states[0], Joined(others, n - 1), states[n - 1], During(others, n - 1), states[n]);
    }
  }

  lemma {:induction false} RunConcat(s: State, a: seq<Label>, b: seq<Label>)
    requires ValidRun(s, a) && ValidRun(Final(s, a), b)
    ensures ValidRun(s, a + b) && Final(s, a + b) == Final(Final(s, a), b)
    decreases |a|
  {
    if a == [] {
      assert a + b == b;
    } else {
      RunConcat(Apply(s, a[0]), a[1..], b);
      assert (a + b)[1..] == a[1..] + b;
    }
  }

  /** Clients may call. */
  predicate MayPost(s: State, c: Call) { Enabled(s, Post(c.kind)) }

  ghost predicate AllMayPost(s: State, calls: seq<Call>) {
    forall i :: 0 <= i < |calls| ==> MayPost(s, calls[i])
  }

  lemma {:induction false} StillMayPost(s: State, t: State, others: seq<seq<Call>>)
    requires t.runReturned == s.runReturned && t.exitPc == s.exitPc
    requires forall i :: 0 <= i < |others| ==> AllMayPost(s, others[i])
    ensures forall i :: 0 <= i < |others| ==> AllMayPost(t, others[i])
  {
    forall i | 0 <= i < |others| ensures AllMayPost(t, others[i]) {
      assert AllMayPost(s, others[i]);
      assert forall j :: 0 <= j < |others[i]| ==> MayPost(s, others[i][j]);
    }
  }

  lemma {:induction false} CallsRun(s: State, calls: seq<Call>) returns (run: seq<Label>)
    requires AllMayPost(s, calls)
    ensures ValidRun(s, run) && Final(s, run) == Calls(s, calls)
    decreases |calls|
  {
    if calls == [] {
      run := [];
    } else {
      var n := |calls| - 1;
      run := CallsRun(s, calls[..n]);
      var m, c := Calls(s, calls[..n]), calls[n];
      CallsKeep(s, calls[..n]);
      assert MayPost(s, c);
      RunAppend(s, run, Post(c.kind));
      run := run + [Post(c.kind)];
      if c.sent {
        RunAppend(s, run, Send(|m.log.posted|));
        run := run + [Send(|m.log.posted|)];
      }
    }
  }

  lemma {:induction false} BodyRun(s: State) returns (run: seq<Label>)
    requires s.pc.InFunc?
    ensures Body(s).pc.FuncDone? && ValidRun(s, run) && Final(s, run) == Complete(Body(s))
  {
    BodyReturns(s);
    RunAppend(s, [], RunFunc);
    run := [] + [RunFunc];
    if CallFunc(s).pc.InSignal? {
      RunAppend(s, run, Signal);
      run := run + [Signal];
    }
    RunAppend(s, run, FreeMsg);
    run := run + [FreeMsg];
  }

  lemma {:induction false} TurnRun(s: State, calls: seq<Call>, r: State) returns (run: seq<Label>)
    requires IsTurn(s, calls, r) && AllMayPost(s, calls)
    ensures ValidRun(s, run) && Final(s, run) == r
  {
    var t := TakeHead(s);
    assert forall i :: 0 <= i < |calls| ==> MayPost(s, calls[i]) ==> MayPost(t, calls[i]);
    RunAppend(s, [], Take);
    CallsKeep(t, calls);
    var posts := CallsRun(t, calls);
    var body := BodyRun(Calls(t, calls));
    RunConcat(s, [] + [Take], posts);
    RunConcat(s, [] + [Take] + posts, body);
    run := [] + [Take] + posts + body;
  }

  lemma {:induction false} TurnsRun(states: seq<State>, others: seq<seq<Call>>) returns (run: seq<Label>)
    requires states != [] && Turns(states, others)
    requires forall i :: 0 <= i < |others| ==> AllMayPost(states[0], others[i])
    ensures ValidRun(states[0], run) && Final(states[0], run) == states[|states| - 1]
    ensures states[|states| - 1].runReturned == states[0].runReturned
    ensures states[|states| - 1].exitPc == states[0].exitPc
    decreases |states|
  {
    if |states| == 1 {
      run := [];
    } else {
      var n := |states| - 2;
      var before := states[..n + 1];
      assert forall i :: 0 <= i < |before| ==> before[i] == states[i];
      run := TurnsRun(before, others);
      assert IsTurn(states[n], During(others, n), states[n + 1]);
      TurnKeeps(states[n], During(others, n), states[n + 1]);
      StillMayPost(states[0], states[n], others);
      var turn := TurnRun(states[n], During(others, n), states[n + 1]);
      RunConcat(states[0], run, turn);
      run := run + turn;
    }
  }
}
