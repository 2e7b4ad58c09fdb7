/** What the thread loop promises, for every interleaving. */
module ThreadLoopTheorems {
  import opened ThreadLoop

  ghost predicate Reachable(s: State) {
    exists ls :: ValidRun(INIT, ls) && s == Final(INIT, ls)
  }

  lemma {:induction false} ReachableInv(s: State)
    requires Reachable(s)
    ensures Inv(s)
  {
    var ls :| ValidRun(INIT, ls) && s == Final(INIT, ls);
    InitInv();
    RunInv(INIT, ls);
  }

  lemma {:induction false} RunAppend(s: State, ls: seq<Label>, l: Label)
    requires ValidRun(s, ls) && Enabled(Final(s, ls), l)
    ensures ValidRun(s, ls + [l]) && Final(s, ls + [l]) == Apply(Final(s, ls), l)
    decreases |ls|
  {
    if ls == [] {
      assert [l][1..] == [];
    } else {
      RunAppend(Apply(s, ls[0]), ls[1..], l);
      assert (ls + [l])[1..] == ls[1..] + [l];
    }
  }

  lemma {:induction false} ReachableStep(s: State, l: Label)
    requires Reachable(s) && Enabled(s, l)
    ensures Reachable(Apply(s, l))
  {
    var ls :| ValidRun(INIT, ls) && s == Final(INIT, ls);
    RunAppend(INIT, ls, l);
  }

  // ----- Exactly once, in lock order -----

  /** Every posted message is executed, in the loop thread's hand, queued or discarded, in
      lock order; each function runs at most once, and only if its message is not discarded. */
  lemma {:induction false} FifoExactlyOnce(s: State)
    requires Reachable(s)
    ensures s.log.posted == s.log.executed + InHand(s.pc) + s.queue + s.log.discarded
    ensures s.log.executed <= s.log.ran <= s.log.posted
    ensures forall i, j :: 0 <= i < j < |s.log.ran| ==> s.log.ran[i] != s.log.ran[j]
    ensures forall m :: m in s.log.discarded ==> m !in s.log.ran
  {
    ReachableInv(s);
    FifoConcat(s.log.posted, s.log.executed, s.pc, s.queue, s.log.discarded, s.exitPc.Freed?);
    RanPrefix(s.log.posted, |s.log.executed|, s.pc, s.log.ran);
    DiscardedNotRun(s.log.posted, s.log.executed, s.pc, s.queue, s.log.discarded, s.exitPc.Freed?, s.log.ran);
  }

  lemma {:induction false} DiscardedNotRun(posted: seq<Msg>, executed: seq<Msg>, pc: Pc, queue: seq<Msg>,
                                           discarded: seq<Msg>, freed: bool, ran: seq<Msg>)
    requires Fifo(posted, executed, pc, queue, discarded, freed) && Ran(posted, |executed|, pc, ran)
    ensures executed <= ran
    ensures forall i, j :: 0 <= i < j < |ran| ==> ran[i] != ran[j]
    ensures forall m :: m in discarded ==> m !in ran
  {
    assert forall i :: 0 <= i < |discarded| ==> discarded[i].id >= |ran|;
    assert forall i :: 0 <= i < |ran| ==> ran[i].id == i;
  }

  lemma {:induction false} FifoConcat(posted: seq<Msg>, executed: seq<Msg>, pc: Pc, queue: seq<Msg>,
                                      discarded: seq<Msg>, freed: bool)
    requires Fifo(posted, executed, pc, queue, discarded, freed)
    ensures posted == executed + InHand(pc) + queue + discarded
  {
    var all := executed + InHand(pc) + queue + discarded;
    forall i | 0 <= i < |posted| ensures posted[i] == all[i] {
      var taken := |executed| + |InHand(pc)|;
      if taken <= i < taken + |queue| {
        assert all[i] == queue[i - taken];
      } else if i >= taken + |queue| {
        assert all[i] == discarded[i - taken - |queue|];
      }
    }
  }

  lemma {:induction false} RanPrefix(posted: seq<Msg>, done: nat, pc: Pc, ran: seq<Msg>)
    requires Ran(posted, done, pc, ran)
    ensures ran == posted[..|ran|]
  {
  }

  /** The loop counts as running from the moment `set_ready` has run until `set_stop` has, and
      `thread_loop_run` returns in between or later, never before. */
  lemma {:induction false} RunningIff(s: State)
    requires Reachable(s)
    ensures s.isRunning <==>
            (exists m :: m in s.log.ran && m.kind.SetReady?) && forall m :: m in s.log.ran ==> !m.kind.SetStop?
    ensures s.runReturned ==> exists m :: m in s.log.ran && m.kind.SetReady?
    ensures s.asyncOpen <==> !s.pc.Created? && forall m :: m in s.log.ran ==> !m.kind.SetStop?
  {
    ReachableInv(s);
    RanKinds(s);
  }

  lemma {:induction false} RanKinds(s: State)
    requires Inv(s)
    ensures (exists m :: m in s.log.ran && m.kind.SetReady?) <==> FuncReturned(|s.log.executed|, s.pc, 0)
    ensures (exists m :: m in s.log.ran && m.kind.SetStop?) <==> s.stopFlag
  {
    var ran, posted, done := s.log.ran, s.log.posted, |s.log.executed|;
    if FuncReturned(done, s.pc, 0) {
      assert ran[0] == posted[0] && ran[0] in ran;
    }
    if s.stopFlag {
      assert ran[s.stopId] == posted[s.stopId] && ran[s.stopId] in ran;
    }
    forall m | m in ran && (m.kind.SetReady? || m.kind.SetStop?)
      ensures m.kind.SetReady? ==> FuncReturned(done, s.pc, 0)
      ensures m.kind.SetStop? ==> s.stopFlag
    {
      var i :| 0 <= i < |ran| && ran[i] == m;
      assert posted[i] == m;
    }
  }

  // ----- No lost wakeup -----

  /** While the async handle is open, each queued message is about to be seen by the running
      drain, or the handle is pending, or the poster of that very message still has to send. */
  lemma {:induction false} NoLostWakeup(s: State)
    requires Reachable(s) && s.asyncOpen
    ensures forall m :: m in s.queue ==> Draining(s.pc) || s.asyncPending || m.id in s.log.owing
  {
    ReachableInv(s);
  }

  /** Steps of the loop thread that message `k` still needs, at four per message. */
  ghost function Rank(s: State, k: nat): nat {
    if k < |s.log.executed| then 0
    else 4 * (k - |s.log.executed|) +
         match s.pc
         case FuncDone(_) => 1
         case InSignal(_) => 2
         case InFunc(_) => 3
         case AtLock => 4
         case Polling => 5
         case _ => 6
  }

  /** `k` is posted and sent, and the stopping drain has not missed it. */
  ghost predicate OnItsWay(s: State, k: nat) {
    k < |s.log.posted| && k !in s.log.owing && (k < |s.log.executed| || s.log.sealed == -1)
  }

  lemma {:induction false} RankLoopStep(s: State, l: Label, k: nat)
    requires Inv(s) && Enabled(s, l) && OnItsWay(s, k) && IsLoop(l)
    ensures OnItsWay(Apply(s, l), k)
    ensures if k < |s.log.executed| then Rank(Apply(s, l), k) == 0 else Rank(Apply(s, l), k) < Rank(s, k)
  {
    StaysOnItsWay(s, l, k);
    match l
    case Take => RankTake(s, k);
    case FreeMsg => RankFree(s, k);
    case _ => RankRest(s, l, k);
  }

  /** The other steps move the loop thread along and free nothing. */
  lemma {:induction false} RankRest(s: State, l: Label, k: nat)
    requires Inv(s) && Enabled(s, l) && OnItsWay(s, k) && IsLoop(l) && !l.Take? && !l.FreeMsg?
    ensures if k < |s.log.executed| then Rank(Apply(s, l), k) == 0 else Rank(Apply(s, l), k) < Rank(s, k)
  {
    match l
    case RunFunc => RankBody(s, k);
    case Signal => assert PostSignal(s).pc == FuncDone(s.pc.m) && PostSignal(s).log.executed == s.log.executed;
    case _ =>
  }

  lemma {:induction false} RankBody(s: State, k: nat)
    requires s.pc.InFunc?
    ensures var r := CallFunc(s); if k < |s.log.executed| then Rank(r, k) == 0 else Rank(r, k) < Rank(s, k)
  {
    BodyKeeps(s);
  }

  lemma {:induction false} RankTake(s: State, k: nat)
    requires Inv(s) && s.pc.AtLock? && OnItsWay(s, k) && OnItsWay(TakeHead(s), k)
    ensures var r := TakeHead(s); if k < |s.log.executed| then Rank(r, k) == 0 else Rank(r, k) < Rank(s, k)
  {
  }

  lemma {:induction false} RankFree(s: State, k: nat)
    requires Inv(s) && s.pc.FuncDone? && OnItsWay(s, k)
    ensures var r := Complete(s); if k < |s.log.executed| then Rank(r, k) == 0 else Rank(r, k) < Rank(s, k)
  {
  }

  lemma {:induction false} StaysOnItsWay(s: State, l: Label, k: nat)
    requires Inv(s) && Enabled(s, l) && OnItsWay(s, k) && IsLoop(l)
    ensures OnItsWay(Apply(s, l), k)
  {
  }

  lemma {:induction false} RankOtherStep(s: State, l: Label, k: nat)
    requires Inv(s) && Enabled(s, l) && OnItsWay(s, k) && !IsLoop(l)
    ensures OnItsWay(Apply(s, l), k)
    ensures Rank(Apply(s, l), k) == Rank(s, k)
  {
  }

  /** The loop thread is never blocked while a sent message waits. */
  lemma {:induction false} LoopNotStuck(s: State, k: nat)
    requires Reachable(s) && OnItsWay(s, k) && k >= |s.log.executed|
    ensures exists l :: IsLoop(l) && Enabled(s, l)
  {
    ReachableInv(s);
    var taken := |s.log.executed| + |InHand(s.pc)|;
    if s.pc.Polling? {
      assert s.queue[k - taken].id == k;
      assert Enabled(s, Dispatch);
    } else {
      var l := match s.pc
               case Starting => EnterRun
               case AtLock => Take
               case InFunc(_) => RunFunc
               case InSignal(_) => Signal
               case _ => FreeMsg;
      assert IsLoop(l) && Enabled(s, l);
    }
  }

  ghost function LoopSteps(ls: seq<Label>): nat {
    if ls == [] then 0 else (if IsLoop(ls[0]) then 1 else 0) + LoopSteps(ls[1..])
  }

  lemma {:induction false} RankBound(s: State, k: nat)
    requires Inv(s) && OnItsWay(s, k)
    ensures Rank(s, k) <= 4 * (|s.log.posted| - |s.log.executed|) + 2
    ensures Rank(s, k) == 0 ==> k < |s.log.executed| && s.log.executed[k].id == k
  {
  }

  /** Delivery is bounded: whatever the other threads do, a sent message has been executed
      once the loop thread has taken `Rank` steps, at most four per message ahead plus six. */
  lemma {:induction false} BoundedDelivery(s: State, ls: seq<Label>, k: nat)
    requires Inv(s) && ValidRun(s, ls) && OnItsWay(s, k)
    requires LoopSteps(ls) >= Rank(s, k)
    ensures k < |Final(s, ls).log.executed| && Final(s, ls).log.executed[k].id == k
    ensures Rank(s, k) <= 4 * (|s.log.posted| - |s.log.executed|) + 2
    decreases |ls|
  {
    RankBound(s, k);
    if ls == [] {
    } else {
      RankStep(s, ls[0], k);
      StepInv(s, ls[0]);
      BoundedDelivery(Apply(s, ls[0]), ls[1..], k);
    }
  }

  lemma {:induction false} RankStep(s: State, l: Label, k: nat)
    requires Inv(s) && Enabled(s, l) && OnItsWay(s, k)
    ensures OnItsWay(Apply(s, l), k)
    ensures Rank(Apply(s, l), k) <= Rank(s, k)
    ensures IsLoop(l) && Rank(s, k) > 0 ==> Rank(Apply(s, l), k) < Rank(s, k)
  {
    if IsLoop(l) {
      RankLoopStep(s, l, k);
    } else {
      RankOtherStep(s, l, k);
    }
  }

  // ----- The synchronous call -----

  /** Stack frames of sync callers that the loop thread's next step dereferences. */
  function Touches(s: State): set<nat> {
    if (s.pc.InFunc? || s.pc.InSignal?) && s.pc.m.kind.Sync? then {s.pc.m.id} else {}
  }

  /** When `do_in_thread_loop_sync` can return, its function has run exactly once and every
      message posted before it has completed. */
  lemma {:induction false} SyncBarrier(s: State, id: nat)
    requires Reachable(s) && Enabled(s, SyncReturn(id))
    ensures id < |s.log.posted| && s.log.posted[id].kind.Sync?
    ensures multiset(s.log.ran)[s.log.posted[id]] == 1
    ensures s.log.posted[..id] <= s.log.executed
    ensures id !in Touches(s) && s.log.posted[id] !in s.queue
  {
    ReachableInv(s);
    assert id < |s.log.ran| && id <= |s.log.executed|;
    assert s.log.posted[..id] == s.log.executed[..id];
    Once(s.log.ran, id);
  }

  lemma {:induction false} OthersLeaveLoop(s: State, l: Label)
    requires Enabled(s, l) && !IsLoop(l)
    ensures Apply(s, l).pc == s.pc && Apply(s, l).log.executed == s.log.executed
  {
    match l
    case Post(k) => EnqueueKeeps(s, k);
    case ExitPost => EnqueueKeeps(s, SetStop);
    case _ =>
  }

  /** While the loop thread is inside a function and takes no step, no synchronous call behind that
      function can return, whatever the other threads do.  So a synchronous call that the function itself
      makes, for which the loop thread waits there, never returns. */
  lemma {:induction false} SelfSyncNeverReturns(s: State, ls: seq<Label>, id: nat)
    requires Reachable(s) && s.pc.InFunc? && id > s.pc.m.id
    requires ValidRun(s, ls) && forall i :: 0 <= i < |ls| ==> !IsLoop(ls[i])
    ensures Final(s, ls).pc == s.pc && !Enabled(Final(s, ls), SyncReturn(id))
  {
    ReachableInv(s);
    BlockedStays(s, ls, id);
  }

  lemma {:induction false} BlockedStays(s: State, ls: seq<Label>, id: nat)
    requires Inv(s) && s.pc.InFunc? && id > s.pc.m.id
    requires ValidRun(s, ls) && forall i :: 0 <= i < |ls| ==> !IsLoop(ls[i])
    ensures Final(s, ls).pc == s.pc && !Enabled(Final(s, ls), SyncReturn(id))
    decreases |ls|
  {
    if ls == [] {
      assert s.pc.m == s.log.posted[|s.log.executed|];
    } else {
      OthersLeaveLoop(s, ls[0]);
      StepInv(s, ls[0]);
      assert forall i :: 0 <= i < |ls[1..]| ==> ls[1..][i] == ls[i + 1];
      BlockedStays(Apply(s, ls[0]), ls[1..], id);
    }
  }

  /** Messages numbered by position occur once. */
  lemma {:induction false} Once(ms: seq<Msg>, id: nat)
    requires id < |ms| && forall i :: 0 <= i < |ms| ==> ms[i].id == i
    ensures multiset(ms)[ms[id]] == 1
  {
    assert ms == ms[..id] + [ms[id]] + ms[id + 1..];
    assert ms[id] !in ms[..id] && ms[id] !in ms[id + 1..];
  }

  /** Which steps change what of the history. */
  lemma {:induction false} HistoryKept(s: State, l: Label)
    requires Enabled(s, l)
    ensures l.SyncReturn? || Apply(s, l).log.returned == s.log.returned
    ensures l.FreeMsg? || Apply(s, l).log.executed == s.log.executed
  {
    match l
    case LoopStart => EnqueueKeeps(s, SetReady);
    case Take => TakeKeeps(s);
    case RunFunc => BodyKeeps(s);
    case Signal => assert PostSignal(s).log == s.log.(stackFault := PostSignal(s).log.stackFault);
    case Post(k) => EnqueueKeeps(s, k);
    case ExitPost => EnqueueKeeps(s, SetStop);
    case _ =>
  }

  lemma {:induction false} EnqueueKeeps(s: State, k: Kind)
    ensures Enqueue(s, k).log.returned == s.log.returned && Enqueue(s, k).log.executed == s.log.executed
    ensures PostMsg(s, k).log == Enqueue(s, k).log
  {
  }

  lemma {:induction false} TakeKeeps(s: State)
    ensures TakeHead(s).log.returned == s.log.returned && TakeHead(s).log.executed == s.log.executed
  {
    if s.queue == [] {
      assert TakeHead(s).log == s.log.(sealed := if s.stopFlag then |s.log.posted| else s.log.sealed);
    } else {
      assert TakeHead(s).log == s.log;
    }
  }

  lemma {:induction false} BodyKeeps(s: State)
    requires s.pc.InFunc?
    ensures CallFunc(s).log.returned == s.log.returned && CallFunc(s).log.executed == s.log.executed
  {
    var log := s.log.(ran := s.log.ran + [s.pc.m]);
    if s.pc.m.kind.Sync? {
      assert CallFunc(s).log == log.(stackFault := s.log.stackFault || s.pc.m.id !in s.signals);
    } else {
      assert CallFunc(s).log == log;
    }
  }

  lemma {:induction false} ReturnedStep(s: State, l: Label, id: nat)
    requires Enabled(s, l) && id in s.log.returned
    ensures id in Apply(s, l).log.returned
  {
    HistoryKept(s, l);
  }

  lemma {:induction false} ReturnedUntouched(s: State, id: nat)
    requires Inv(s) && id in s.log.returned
    ensures id !in Touches(s) && !s.log.stackFault
  {
  }

  /** Once the call has returned, no later step of any run dereferences its stack frame. */
  lemma {:induction false} StackNeverTouchedAgain(s: State, ls: seq<Label>, id: nat)
    requires Inv(s) && id in s.log.returned && ValidRun(s, ls)
    ensures id in Final(s, ls).log.returned
    ensures id !in Touches(Final(s, ls)) && !Final(s, ls).log.stackFault
    decreases |ls|
  {
    if ls == [] {
      ReturnedUntouched(s, id);
    } else {
      StepInv(s, ls[0]);
      ReturnedStep(s, ls[0], id);
      StackNeverTouchedAgain(Apply(s, ls[0]), ls[1..], id);
    }
  }

  // ----- Exit -----

  /** `thread_loop_exit` always finds the loop running, so its not-running branch is not taken. */
  lemma {:induction false} ExitFindsLoopRunning(s: State)
    requires Reachable(s) && s.runReturned && s.exitPc.NotExiting?
    ensures s.isRunning && s.asyncOpen && Enabled(s, ExitPost)
  {
    ReachableInv(s);
  }

  /** The leftovers are freed only after the loop thread drained and signalled; what is freed
      is exactly what was posted after the stopping drain saw the queue empty. */
  lemma {:induction false} ExitDiscardsSuffix(s: State)
    requires Reachable(s) && Enabled(s, ExitFree)
    ensures s.pc.Quit? && 0 <= s.log.sealed <= |s.log.posted|
    ensures var r := Apply(s, ExitFree);
            && r.log.posted == r.log.executed + r.log.discarded
            && r.log.executed == r.log.ran == r.log.posted[..s.log.sealed]
            && r.log.discarded == r.log.posted[s.log.sealed..]
  {
    ReachableInv(s);
    ReachableStep(s, ExitFree);
    FifoExactlyOnce(Apply(s, ExitFree));
    assert s.log.executed == s.log.posted[..s.log.sealed];
  }

  /** A message posted after that last look never runs, in any continuation. */
  lemma {:induction false} MissedMessageNeverRuns(s: State, ls: seq<Label>, k: nat)
    requires Inv(s) && ValidRun(s, ls) && 0 <= s.log.sealed <= k
    ensures Final(s, ls).log.sealed == s.log.sealed && |Final(s, ls).log.ran| <= k
    ensures k !in Final(s, ls).log.returned
    decreases |ls|
  {
    if ls == [] {
    } else {
      StepInv(s, ls[0]);
      SealStays(s, ls[0]);
      MissedMessageNeverRuns(Apply(s, ls[0]), ls[1..], k);
    }
  }

  lemma {:induction false} SealStays(s: State, l: Label)
    requires Inv(s) && Enabled(s, l) && 0 <= s.log.sealed
    ensures Apply(s, l).log.sealed == s.log.sealed
  {
  }

  /** Hence a synchronous call posted that late waits for ever: its message is never run and
      the call never returns.  A sent message runs if and only if it was posted before the
      last look. */
  lemma {:induction false} RunsIffPostedBeforeSeal(s: State, ls: seq<Label>, k: nat)
    requires Reachable(s) && k < |s.log.posted| && k !in s.log.owing && s.pc.Quit?
    requires ValidRun(s, ls)
    ensures k < |Final(s, ls).log.ran| <==> k < s.log.sealed
    ensures s.log.posted[k].kind.Sync? && k >= s.log.sealed ==> k !in Final(s, ls).log.returned
  {
    ReachableInv(s);
    RunInv(s, ls);
    if k >= s.log.sealed {
      MissedMessageNeverRuns(s, ls, k);
    } else {
      ExecutedGrows(s, ls);
    }
  }

  /** What a client can rely on: a message posted before exit's own message has always run, exactly
      once, when the loop thread has quit. */
  lemma {:induction false} PostedBeforeExitRuns(s: State, k: nat)
    requires Reachable(s) && s.pc.Quit? && k < s.stopId
    ensures k < |s.log.executed| && k < |s.log.posted| && s.log.executed[k] == s.log.posted[k]
    ensures multiset(s.log.ran)[s.log.posted[k]] == 1
  {
    ReachableInv(s);
    Once(s.log.ran, k);
  }

  lemma {:induction false} ExecutedStep(s: State, l: Label)
    requires Enabled(s, l)
    ensures s.log.executed <= Apply(s, l).log.executed
  {
    HistoryKept(s, l);
  }

  lemma {:induction false} ExecutedGrows(s: State, ls: seq<Label>)
    requires ValidRun(s, ls)
    ensures s.log.executed <= Final(s, ls).log.executed
    decreases |ls|
  {
    if ls == [] {
    } else {
      ExecutedStep(s, ls[0]);
      ExecutedGrows(Apply(s, ls[0]), ls[1..]);
    }
  }

  /** After the free, the only steps left are returns of sync calls and the `uv_async_send`
      of posters that were between unlock and send when the memory was freed. */
  lemma {:induction false} OnlyLateSendsTouchFreedLoop(s: State, ls: seq<Label>, l: Label)
    requires Inv(s) && s.exitPc.Freed? && ValidRun(s, ls) && Enabled(Final(s, ls), l)
    ensures l.SyncReturn? || (l.Send? && l.id in s.log.owing)
    decreases |ls|
  {
    if ls == [] {
    } else {
      StepInv(s, ls[0]);
      OnlyLateSendsTouchFreedLoop(Apply(s, ls[0]), ls[1..], l);
    }
  }

  /** Some continuation sends on the freed loop. */
  ghost predicate SendToCome(s: State) {
    exists ls, id: nat :: ValidRun(s, ls) && Enabled(Final(s, ls), Send(id))
  }

  /** After the free, a send is still to come if and only if some poster was caught between unlock and
      send. */
  lemma {:induction false} SendAfterFreeIff(s: State)
    requires Reachable(s) && s.exitPc.Freed?
    ensures SendToCome(s) <==> s.log.owing != {}
  {
    ReachableInv(s);
    if s.log.owing != {} {
      var id :| id in s.log.owing;
      assert ValidRun(s, []) && Enabled(Final(s, []), Send(id));
    }
    if SendToCome(s) {
      var ls, id: nat :| ValidRun(s, ls) && Enabled(Final(s, ls), Send(id));
      OnlyLateSendsTouchFreedLoop(s, ls, Send(id));
    }
  }

  // ----- The shortfalls happen -----

  lemma {:induction false} Go(s: State, l: Label) returns (r: State)
    requires Reachable(s) && Enabled(s, l)
    ensures Reachable(r) && r == Apply(s, l)
  {
    ReachableStep(s, l);
    r := Apply(s, l);
  }

  lemma StartingReachable() returns (s: State)
    ensures Reachable(s)
    ensures var one := [Msg(0, SetReady)];
            s == State(one, true, false, false, false, 0, false, 0, AtLock, NotExiting, -1, map[],
                       NO_HISTORY.(posted := one))
  {
    assert ValidRun(INIT, []) && Final(INIT, []) == INIT;
    s := Go(INIT, LoopStart);
    s := Go(s, Send(0));
    s := Go(s, EnterRun);
    s := Go(s, Dispatch);
  }

  /** The loop after `thread_loop_run`, about to look at the queue; nothing is posted yet. */
  lemma StartedReachable() returns (s: State)
    ensures Reachable(s)
    ensures var one := [Msg(0, SetReady)];
            s == State([], true, false, false, true, 0, true, 0, AtLock, NotExiting, -1, map[],
                       History({}, {}, false, -1, one, one, one, []))
  {
    s := StartingReachable();
    s := Go(s, Take);
    s := Go(s, RunFunc);
    s := Go(s, FreeMsg);
    s := Go(s, RunReturns);
  }

  /** Exit's message is posted and sent first, then a client's message, in either order of sending. */
  lemma ExitThenPost() returns (s: State)
    ensures Reachable(s)
    ensures var all := [Msg(0, SetReady), Msg(1, SetStop), Msg(2, Plain)];
            s == State(all[1..], true, true, false, true, 0, true, 0, AtLock, StopPosted, 1, map[],
                       History({2}, {}, false, -1, all, all[..1], all[..1], []))
  {
    s := StartedReachable();
    s := Go(s, ExitPost);
    s := Go(s, Send(1));
    s := Go(s, Post(Plain));
  }

  /** A message posted after exit's can still run. */
  lemma PostedAfterExitMayRun() returns (s: State)
    ensures Reachable(s) && s.stopId == 1 && 2 < |s.log.ran|
  {
    s := ExitThenPost();
    s := Go(s, Take);
    s := Go(s, RunFunc);
    s := Go(s, FreeMsg);
    s := Go(s, Take);
    s := Go(s, RunFunc);
  }

  /** The stopping drain has seen the queue empty. */
  lemma SealedReachable() returns (s: State)
    ensures Reachable(s)
    ensures var all := [Msg(0, SetReady), Msg(1, SetStop)];
            s == State([], false, true, true, false, 0, true, 0, Polling, StopPosted, 1, map[],
                       History({}, {}, false, 2, all, all, all, []))
  {
    s := StartedReachable();
    s := Go(s, ExitPost);
    s := Go(s, Send(1));
    s := Go(s, Take);
    s := Go(s, RunFunc);
    s := Go(s, FreeMsg);
    s := Go(s, Take);
  }

  /** A synchronous call made then is posted and sent on a loop that is not yet freed, and waits for
      ever. */
  lemma PostedAfterSealIsMissed() returns (s: State)
    ensures Reachable(s) && s.pc.Quit? && !s.exitPc.Freed? && 2 < |s.log.posted| && 2 !in s.log.owing
    ensures s.log.posted[2].kind.Sync? && 2 >= s.log.sealed
  {
    s := SealedReachable();
    s := Go(s, Post(Sync));
    s := Go(s, Send(2));
    s := Go(s, LeaveRun);
    s := Go(s, PostExited);
  }

  /** The stop message is next, and the poster of message 1 still owes its send. */
  lemma StoppingReachable() returns (s: State)
    ensures Reachable(s)
    ensures var all := [Msg(0, SetReady), Msg(1, Plain), Msg(2, SetStop)];
            s == State([all[2]], true, true, false, true, 0, true, 0, InFunc(all[1]), StopPosted, 2, map[],
                       History({1}, {}, false, -1, all, all[..1], all[..1], []))
  {
    s := StartedReachable();
    s := Go(s, Post(Plain));
    s := Go(s, ExitPost);
    s := Go(s, Send(2));
    s := Go(s, Take);
  }

  /** The drain that stops the loop, run to the end of set_stop while the first poster still owes
      its send. */
  lemma StoppedReachable() returns (s: State)
    ensures Reachable(s)
    ensures var done := [Msg(0, SetReady), Msg(1, Plain), Msg(2, SetStop)];
            s == State([], false, true, true, false, 0, true, 0, FuncDone(Msg(2, SetStop)), StopPosted, 2, map[],
                       History({1}, {}, false, -1, done, done, done[..2], []))
  {
    s := StoppingReachable();
    s := Go(s, RunFunc);
    s := Go(s, FreeMsg);
    s := Go(s, Take);
    s := Go(s, RunFunc);
  }

  /** A poster that has unlocked but not sent can find the loop freed. */
  lemma LateSendIsPossible() returns (s: State)
    ensures Reachable(s) && s.exitPc.Freed? && Enabled(s, Send(1))
  {
    s := StoppedReachable();
    s := Go(s, FreeMsg);
    s := Go(s, Take);
    s := Go(s, LeaveRun);
    s := Go(s, PostExited);
    s := Go(s, ExitWait);
    s := Go(s, ExitFree);
  }
}
