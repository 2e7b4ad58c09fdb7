/** The message protocol of the thread loop (framework/common/uv_thread_loop.c).

    Any number of threads post messages; one loop thread drains them.  The model is
    a transition system: one label is one critical section, one `uv_async_send`, one
    dispatch of the async handle, one semaphore operation or the body of one message
    function.  A run is a sequence of labels, so a statement about every valid run is
    a statement about every interleaving. */
module ThreadLoop {

  /** What the function of a message does: `set_ready`, `set_stop`, a client's function
      posted by `do_in_thread_loop`, or `thread_sync_callback`. */
  datatype Kind = SetReady | SetStop | Plain | Sync

  /** `id` is the position of the message in lock order. */
  datatype Msg = Msg(id: nat, kind: Kind)

  /** Where the loop thread is. */
  datatype Pc =
    | Created          // thread not yet in thread_schedule_loop
    | Starting         // set_ready enqueued, uv_run not entered
    | Polling          // inside uv_run, no callback running
    | AtLock           // in thread_message_callback, about to take the lock
    | InFunc(m: Msg)   // imsg->func about to run
    | InSignal(m: Msg) // sync callback: func returned, uv_sem_post next
    | FuncDone(m: Msg) // func returned, free(imsg) next
    | AfterRun         // uv_run returned
    | Quit             // exited semaphore posted

  /** Where the thread in `thread_loop_exit` is. */
  datatype ExitPc = NotExiting | StopPosted | Woken | Freed

  /** What no thread stores: who still has to send, and the history of the messages. */
  datatype History = History(
    owing: set<nat>,          // posted, uv_async_send still to come
    returned: set<nat>,       // sync calls that returned
    stackFault: bool,         // the loop thread touched a dead stack frame
    sealed: int,              // |posted| when the stopping drain saw the queue empty, else -1
    posted: seq<Msg>,
    ran: seq<Msg>,            // message functions that ran, in order
    executed: seq<Msg>,       // messages run and freed, in order
    discarded: seq<Msg>)      // messages freed by thread_loop_exit without running

  datatype State = State(
    queue: seq<Msg>,
    asyncOpen: bool,
    asyncPending: bool,
    stopFlag: bool,
    isRunning: bool,
    readySem: nat,
    runReturned: bool,        // thread_loop_run has returned to its caller
    exitedSem: nat,
    pc: Pc,
    exitPc: ExitPc,
    stopId: int,              // id of the set_stop message, -1 before it is posted
    signals: map<nat, nat>,   // semaphores of the sync calls whose stack frame is alive
    log: History)

  const NO_HISTORY := History({}, {}, false, -1, [], [], [], [])

  const INIT := State([], false, false, false, false, 0, false, 0, Created, NotExiting, -1, map[], NO_HISTORY)

  datatype Label =
    | LoopStart | EnterRun | Dispatch | Take | RunFunc | Signal | FreeMsg | LeaveRun | PostExited
    | RunReturns
    | Post(kind: Kind)
    | Send(id: nat)
    | SyncReturn(id: nat)
    | ExitPost | ExitWait | ExitFree

  /** Labels of the loop thread. */
  predicate IsLoop(l: Label) {
    l.LoopStart? || l.EnterRun? || l.Dispatch? || l.Take? || l.RunFunc? || l.Signal? || l.FreeMsg? ||
    l.LeaveRun? || l.PostExited?
  }

  /** Clients post between the return of `thread_loop_run` and the free in
      `thread_loop_exit`; `thread_loop_exit` is called once.  Everything else is the
      code and libuv. */
  predicate Enabled(s: State, l: Label) {
    match l
    case LoopStart => s.pc.Created?
    case EnterRun => s.pc.Starting? && 0 !in s.log.owing
    case Dispatch => s.pc.Polling? && s.asyncOpen && s.asyncPending
    case Take => s.pc.AtLock?
    case RunFunc => s.pc.InFunc?
    case Signal => s.pc.InSignal?
    case FreeMsg => s.pc.FuncDone?
    case LeaveRun => s.pc.Polling? && s.stopFlag
    case PostExited => s.pc.AfterRun?
    case RunReturns => s.readySem > 0 && !s.runReturned
    case Post(k) => s.runReturned && !s.exitPc.Freed? && (k.Plain? || k.Sync?)
    case Send(id) => id in s.log.owing
    case SyncReturn(id) => id !in s.log.owing && id in s.signals && s.signals[id] > 0
    case ExitPost => s.runReturned && s.exitPc.NotExiting? && s.isRunning
    case ExitWait => s.exitPc.StopPosted? && s.stopId !in s.log.owing && s.exitedSem > 0
    case ExitFree => s.exitPc.Woken?
  }

  /** `do_in_thread_loop` up to the unlock. */
  function Enqueue(s: State, k: Kind): State {
    var m := Msg(|s.log.posted|, k);
    s.(queue := s.queue + [m], log := s.log.(posted := s.log.posted + [m], owing := s.log.owing + {m.id}))
  }

  /** The same by a client; the semaphore of a sync call is initialised before. */
  function PostMsg(s: State, k: Kind): State {
    var r := Enqueue(s, k);
    if k.Sync? then r.(signals := s.signals[|s.log.posted| := 0]) else r
  }

  /** `uv_async_send`: sets the pending flag of an open handle. */
  function SendAsync(s: State, id: nat): State {
    s.(asyncPending := s.asyncPending || s.asyncOpen, log := s.log.(owing := s.log.owing - {id}))
  }

  /** `list_remove_head` under the lock; an empty queue ends `thread_message_callback`. */
  function TakeHead(s: State): State {
    if s.queue == [] then
      s.(pc := Polling, log := s.log.(sealed := if s.stopFlag then |s.log.posted| else s.log.sealed))
    else
      s.(pc := InFunc(s.queue[0]), queue := s.queue[1..])
  }

  /** `imsg->func(imsg->msg)`. */
  function CallFunc(s: State): State
    requires s.pc.InFunc?
  {
    var m := s.pc.m;
    var log := s.log.(ran := s.log.ran + [m]);
    match m.kind
    case SetReady => s.(isRunning := true, exitedSem := 0, readySem := s.readySem + 1, pc := FuncDone(m), log := log)
    case SetStop => s.(isRunning := false, asyncOpen := false, stopFlag := true, pc := FuncDone(m), log := log)
    case Plain => s.(pc := FuncDone(m), log := log)
    case Sync => s.(pc := InSignal(m), log := log.(stackFault := s.log.stackFault || m.id !in s.signals))
  }

  /** `uv_sem_post(&msg->signal)` on the caller's stack. */
  function PostSignal(s: State): State
    requires s.pc.InSignal?
  {
    var m := s.pc.m;
    if m.id in s.signals then
      s.(pc := FuncDone(m), signals := s.signals[m.id := s.signals[m.id] + 1])
    else
      s.(pc := FuncDone(m), log := s.log.(stackFault := true))
  }

  /** `free(imsg)`. */
  function Complete(s: State): State
    requires s.pc.FuncDone?
  {
    s.(pc := AtLock, log := s.log.(executed := s.log.executed + [s.pc.m]))
  }

  /** The end of `thread_loop_exit`: every message left is freed without running. */
  function DiscardQueue(s: State): State {
    s.(exitPc := Freed, queue := [], log := s.log.(discarded := s.log.discarded + s.queue))
  }

  function Apply(s: State, l: Label): State
    requires Enabled(s, l)
  {
    match l
    case LoopStart => Enqueue(s, SetReady).(asyncOpen := true, pc := Starting)
    case EnterRun => s.(pc := Polling)
    case Dispatch => s.(pc := AtLock, asyncPending := false)
    case Take => TakeHead(s)
    case RunFunc => CallFunc(s)
    case Signal => PostSignal(s)
    case FreeMsg => Complete(s)
    case LeaveRun => s.(pc := AfterRun)
    case PostExited => s.(pc := Quit, isRunning := false, exitedSem := s.exitedSem + 1)
    case RunReturns => s.(readySem := s.readySem - 1, runReturned := true)
    case Post(k) => PostMsg(s, k)
    case Send(id) => SendAsync(s, id)
    case SyncReturn(id) => s.(signals := s.signals - {id}, log := s.log.(returned := s.log.returned + {id}))
    case ExitPost => Enqueue(s, SetStop).(exitPc := StopPosted, stopId := |s.log.posted|)
    case ExitWait => s.(exitPc := Woken, exitedSem := s.exitedSem - 1)
    case ExitFree => DiscardQueue(s)
  }

  ghost predicate ValidRun(s: State, ls: seq<Label>)
    decreases |ls|
  {
    ls == [] || (Enabled(s, ls[0]) && ValidRun(Apply(s, ls[0]), ls[1..]))
  }

  ghost function Final(s: State, ls: seq<Label>): State
    requires ValidRun(s, ls)
    decreases |ls|
  {
    if ls == [] then s else Final(Apply(s, ls[0]), ls[1..])
  }

  // ----- The invariant -----

  /** The message the loop thread holds: removed from the queue and not yet freed. */
  function InHand(pc: Pc): seq<Msg> {
    if pc.InFunc? || pc.InSignal? || pc.FuncDone? then [pc.m] else []
  }

  function Bit(b: bool): nat { if b then 1 else 0 }

  /** The loop thread is inside `thread_message_callback`. */
  predicate Draining(pc: Pc) {
    pc.AtLock? || pc.InFunc? || pc.InSignal? || pc.FuncDone?
  }

  /** The function of message `id` has returned, `done` messages being freed already. */
  predicate FuncReturned(done: nat, pc: Pc, id: int) {
    id < done || (pc.FuncDone? && id == done)
  }

  /** Messages are numbered in lock order, each is in exactly one place, and places are in
      that order: executed, in hand, queued, discarded. */
  ghost predicate Fifo(posted: seq<Msg>, executed: seq<Msg>, pc: Pc, queue: seq<Msg>, discarded: seq<Msg>,
                       freed: bool) {
    var taken := |executed| + |InHand(pc)|;
    && (forall i :: 0 <= i < |posted| ==> posted[i].id == i)
    && |posted| == taken + |queue| + |discarded|
    && (forall i :: 0 <= i < |executed| ==> executed[i] == posted[i])
    && (InHand(pc) != [] ==> pc.m == posted[|executed|])
    && (forall i :: 0 <= i < |queue| ==> queue[i] == posted[taken + i])
    && (forall i :: 0 <= i < |discarded| ==> discarded[i] == posted[taken + |queue| + i])
    && (discarded == [] || freed)
    && (freed ==> queue == [])
  }

  /** The functions that ran are those of the executed messages and of the one in hand once
      its body has run. */
  ghost predicate Ran(posted: seq<Msg>, done: nat, pc: Pc, ran: seq<Msg>) {
    && |ran| == done + Bit(pc.InSignal? || pc.FuncDone?) <= |posted|
    && (forall i :: 0 <= i < |ran| ==> ran[i] == posted[i])
    && (pc.InSignal? ==> pc.m.kind.Sync?)
  }

  /** A queued message has its wake-up: the drain will see it, the async handle is
      pending, or its poster has not sent yet. */
  ghost predicate Wakeup(queue: seq<Msg>, open: bool, pending: bool, pc: Pc, owing: set<nat>) {
    open && !Draining(pc) && !pending ==> forall i :: 0 <= i < |queue| ==> queue[i].id in owing
  }

  /** The first message is `set_ready`, and `set_stop` is posted by `thread_loop_exit` only. */
  ghost predicate Kinds(posted: seq<Msg>, stopId: int, exitPc: ExitPc, owing: set<nat>) {
    && (forall i :: 0 <= i < |posted| ==> (posted[i].kind.SetReady? <==> i == 0))
    && (forall i :: 0 <= i < |posted| ==> (posted[i].kind.SetStop? <==> i == stopId))
    && (exitPc.NotExiting? <==> stopId == -1)
    && (stopId == -1 || 0 < stopId < |posted|)
    && (forall id :: id in owing ==> id < |posted|)
  }

  /** Start-up and shutdown handshakes; `done` is the number of messages freed. */
  ghost predicate Handshake(s: State, done: nat) {
    && (s.pc.Created? <==> s.log.posted == [])
    && (s.asyncOpen <==> !s.pc.Created? && !s.stopFlag)
    && (s.stopFlag <==> s.stopId > 0 && FuncReturned(done, s.pc, s.stopId))
    && (s.isRunning <==> FuncReturned(done, s.pc, 0) && !s.stopFlag)
    && s.readySem + Bit(s.runReturned) == Bit(FuncReturned(done, s.pc, 0))
    && s.exitedSem + Bit(s.exitPc.Woken? || s.exitPc.Freed?) == Bit(s.pc.Quit?)
    && (s.pc.AfterRun? || s.pc.Quit? ==> s.stopFlag)
    && (s.pc.Created? || s.pc.Starting? ==> done == 0)
    && (s.pc.Starting? ==> |s.log.posted| == 1)
    && (|s.log.posted| > 1 ==> s.runReturned)
  }

  /** The stopping drain's last look at the queue splits the messages that run from the
      messages that are discarded. */
  ghost predicate Seal(sealed: int, stopFlag: bool, pc: Pc, done: nat) {
    if stopFlag && !Draining(pc) then sealed == done else sealed == -1
  }

  /** Semaphores on the stacks of sync callers. */
  ghost predicate Signals(signals: map<nat, nat>, returned: set<nat>, fault: bool, posted: seq<Msg>, done: nat,
                          pc: Pc) {
    && !fault
    && (forall id :: id in signals || id in returned ==> id < |posted| && posted[id].kind.Sync?)
    && (forall id :: 0 <= id < |posted| && posted[id].kind.Sync? ==> (id in signals <==> id !in returned))
    && (forall id :: id in signals ==> signals[id] == Bit(FuncReturned(done, pc, id)))
    && (forall id :: id in returned ==> FuncReturned(done, pc, id))
  }

  ghost predicate Inv(s: State) {
    && Fifo(s.log.posted, s.log.executed, s.pc, s.queue, s.log.discarded, s.exitPc.Freed?)
    && Ran(s.log.posted, |s.log.executed|, s.pc, s.log.ran)
    && Wakeup(s.queue, s.asyncOpen, s.asyncPending, s.pc, s.log.owing)
    && Kinds(s.log.posted, s.stopId, s.exitPc, s.log.owing)
    && Handshake(s, |s.log.executed|)
    && Seal(s.log.sealed, s.stopFlag, s.pc, |s.log.executed|)
    && Signals(s.signals, s.log.returned, s.log.stackFault, s.log.posted, |s.log.executed|, s.pc)
  }

  // ----- Every step keeps the invariant -----

  /** The loop thread holds no message. */
  predicate Free(pc: Pc) { !pc.InFunc? && !pc.InSignal? && !pc.FuncDone? }

  /** Moving between such places touches no message. */
  lemma {:induction false} FreeMove(log: History, queue: seq<Msg>, freed: bool, signals: map<nat, nat>, p: Pc, q: Pc)
    requires Free(p) && Free(q)
    requires Fifo(log.posted, log.executed, p, queue, log.discarded, freed)
    requires Ran(log.posted, |log.executed|, p, log.ran)
    requires Signals(signals, log.returned, log.stackFault, log.posted, |log.executed|, p)
    ensures Fifo(log.posted, log.executed, q, queue, log.discarded, freed)
    ensures Ran(log.posted, |log.executed|, q, log.ran)
    ensures Signals(signals, log.returned, log.stackFault, log.posted, |log.executed|, q)
  {
    FifoMove(log.posted, log.executed, queue, log.discarded, freed, p, q);
    SignalsMove(signals, log.returned, log.stackFault, log.posted, |log.executed|, p, q);
  }

  lemma {:induction false} FifoMove(posted: seq<Msg>, executed: seq<Msg>, queue: seq<Msg>, discarded: seq<Msg>,
                                    freed: bool, p: Pc, q: Pc)
    requires InHand(p) == InHand(q) == [] && Fifo(posted, executed, p, queue, discarded, freed)
    ensures Fifo(posted, executed, q, queue, discarded, freed)
  {
  }

  lemma {:induction false} SignalsMove(signals: map<nat, nat>, returned: set<nat>, fault: bool, posted: seq<Msg>,
                                       done: nat, p: Pc, q: Pc)
    requires Free(p) && Free(q) && Signals(signals, returned, fault, posted, done, p)
    ensures Signals(signals, returned, fault, posted, done, q)
  {
    assert forall id :: FuncReturned(done, q, id) == FuncReturned(done, p, id);
  }

  lemma {:induction false} StepLoopStart(s: State, l: Label)
    requires l.LoopStart? && Inv(s) && Enabled(s, l)
    ensures Inv(Apply(s, l))
  {
  }

  lemma {:induction false} StepEnterRun(s: State, l: Label)
    requires l.EnterRun? && Inv(s) && Enabled(s, l)
    ensures Inv(Apply(s, l))
  {
    FreeMove(s.log, s.queue, s.exitPc.Freed?, s.signals, s.pc, Polling);
  }

  lemma {:induction false} StepDispatch(s: State, l: Label)
    requires l.Dispatch? && Inv(s) && Enabled(s, l)
    ensures Inv(Apply(s, l))
  {
    FreeMove(s.log, s.queue, s.exitPc.Freed?, s.signals, s.pc, AtLock);
  }

  lemma {:induction false} TakeFifo(posted: seq<Msg>, executed: seq<Msg>, queue: seq<Msg>, discarded: seq<Msg>,
                                    freed: bool)
    requires Fifo(posted, executed, AtLock, queue, discarded, freed) && queue != []
    ensures Fifo(posted, executed, InFunc(queue[0]), queue[1..], discarded, freed)
  {
    assert queue[0] == posted[|executed| + 0];
    forall i | 0 <= i < |queue[1..]| ensures queue[1..][i] == posted[|executed| + 1 + i] {
      assert queue[1..][i] == queue[i + 1];
    }
  }

  lemma {:induction false} TakeRest(s: State)
    requires Inv(s) && s.pc.AtLock? && s.queue != []
    ensures var r := TakeHead(s);
            && Ran(r.log.posted, |r.log.executed|, r.pc, r.log.ran)
            && Handshake(r, |r.log.executed|)
            && Signals(r.signals, r.log.returned, r.log.stackFault, r.log.posted, |r.log.executed|, r.pc)
  {
  }

  lemma {:induction false} StepTake(s: State, l: Label)
    requires l.Take? && Inv(s) && Enabled(s, l)
    ensures Inv(Apply(s, l))
  {
    if s.queue == [] {
      FreeMove(s.log, s.queue, s.exitPc.Freed?, s.signals, s.pc, Polling);
    } else {
      TakeFifo(s.log.posted, s.log.executed, s.queue, s.log.discarded, s.exitPc.Freed?);
      TakeRest(s);
    }
  }

  /** Running the body moves no message. */
  lemma {:induction false} SameHandFifo(posted: seq<Msg>, executed: seq<Msg>, p: Pc, q: Pc, queue: seq<Msg>,
                                        discarded: seq<Msg>, freed: bool)
    requires Fifo(posted, executed, p, queue, discarded, freed)
    requires (p.InFunc? || p.InSignal?) && (q == InSignal(p.m) || q == FuncDone(p.m))
    ensures Fifo(posted, executed, q, queue, discarded, freed)
  {
  }

  lemma {:induction false} BodyRan(posted: seq<Msg>, done: nat, m: Msg, q: Pc, ran: seq<Msg>)
    requires Ran(posted, done, InFunc(m), ran) && done < |posted| && posted[done] == m
    requires if m.kind.Sync? then q == InSignal(m) else q == FuncDone(m)
    ensures Ran(posted, done, q, ran + [m])
  {
  }

  lemma {:induction false} BodySignals(signals: map<nat, nat>, returned: set<nat>, posted: seq<Msg>, done: nat,
                                       m: Msg, q: Pc)
    requires Signals(signals, returned, false, posted, done, InFunc(m)) && done < |posted| && posted[done] == m
    requires if m.kind.Sync? then q == InSignal(m) else q == FuncDone(m)
    ensures Signals(signals, returned, false, posted, done, q)
    ensures m.kind.Sync? ==> done in signals
  {
    assert m.kind.Sync? ==> !FuncReturned(done, InFunc(m), done);
  }

  lemma {:induction false} BodyHandshake(s: State)
    requires Inv(s) && s.pc.InFunc?
    ensures Handshake(CallFunc(s), |s.log.executed|)
  {
    var m, done := s.pc.m, |s.log.executed|;
    assert m == s.log.posted[done] && m.id == done;
    assert m.kind.SetReady? <==> done == 0;
    assert m.kind.SetStop? <==> done == s.stopId;
  }

  lemma {:induction false} StepRunFunc(s: State, l: Label)
    requires l.RunFunc? && Inv(s) && Enabled(s, l)
    ensures Inv(Apply(s, l))
  {
    var q := Apply(s, l).pc;
    SameHandFifo(s.log.posted, s.log.executed, s.pc, q, s.queue, s.log.discarded, s.exitPc.Freed?);
    BodyRan(s.log.posted, |s.log.executed|, s.pc.m, q, s.log.ran);
    BodySignals(s.signals, s.log.returned, s.log.posted, |s.log.executed|, s.pc.m, q);
    BodyHandshake(s);
  }

  lemma {:induction false} PostedSignals(signals: map<nat, nat>, returned: set<nat>, posted: seq<Msg>, done: nat,
                                         m: Msg)
    requires Signals(signals, returned, false, posted, done, InSignal(m))
    requires done < |posted| && posted[done] == m && m.kind.Sync? && m.id == done
    ensures done in signals
    ensures Signals(signals[done := signals[done] + 1], returned, false, posted, done, FuncDone(m))
  {
    assert !FuncReturned(done, InSignal(m), done);
  }

  lemma {:induction false} SignalHandshake(s: State)
    requires Inv(s) && s.pc.InSignal?
    ensures Handshake(PostSignal(s), |s.log.executed|)
  {
    assert s.stopId != |s.log.executed| && |s.log.executed| != 0;
  }

  lemma {:induction false} StepSignal(s: State, l: Label)
    requires l.Signal? && Inv(s) && Enabled(s, l)
    ensures Inv(Apply(s, l))
  {
    SameHandFifo(s.log.posted, s.log.executed, s.pc, FuncDone(s.pc.m), s.queue, s.log.discarded, s.exitPc.Freed?);
    PostedSignals(s.signals, s.log.returned, s.log.posted, |s.log.executed|, s.pc.m);
    SignalHandshake(s);
  }

  lemma {:induction false} FreeFifo(posted: seq<Msg>, executed: seq<Msg>, m: Msg, queue: seq<Msg>,
                                    discarded: seq<Msg>, freed: bool, ran: seq<Msg>)
    requires Fifo(posted, executed, FuncDone(m), queue, discarded, freed) && Ran(posted, |executed|, FuncDone(m), ran)
    ensures Fifo(posted, executed + [m], AtLock, queue, discarded, freed) && Ran(posted, |executed| + 1, AtLock, ran)
  {
  }

  lemma {:induction false} FreeSignals(signals: map<nat, nat>, returned: set<nat>, posted: seq<Msg>, done: nat, m: Msg)
    requires Signals(signals, returned, false, posted, done, FuncDone(m))
    ensures Signals(signals, returned, false, posted, done + 1, AtLock)
  {
    assert forall id :: FuncReturned(done + 1, AtLock, id) == FuncReturned(done, FuncDone(m), id);
  }

  lemma {:induction false} FreeHandshake(s: State)
    requires Inv(s) && s.pc.FuncDone?
    ensures Handshake(Complete(s), |s.log.executed| + 1)
  {
    var done := |s.log.executed|;
    assert FuncReturned(done + 1, AtLock, 0) == FuncReturned(done, s.pc, 0);
    assert FuncReturned(done + 1, AtLock, s.stopId) == FuncReturned(done, s.pc, s.stopId);
  }

  lemma {:induction false} StepFreeMsg(s: State, l: Label)
    requires l.FreeMsg? && Inv(s) && Enabled(s, l)
    ensures Inv(Apply(s, l))
  {
    FreeFifo(s.log.posted, s.log.executed, s.pc.m, s.queue, s.log.discarded, s.exitPc.Freed?, s.log.ran);
    FreeSignals(s.signals, s.log.returned, s.log.posted, |s.log.executed|, s.pc.m);
    FreeHandshake(s);
  }

  lemma {:induction false} StepLeaveRun(s: State, l: Label)
    requires l.LeaveRun? && Inv(s) && Enabled(s, l)
    ensures Inv(Apply(s, l))
  {
    FreeMove(s.log, s.queue, s.exitPc.Freed?, s.signals, s.pc, AfterRun);
  }

  lemma {:induction false} StepPostExited(s: State, l: Label)
    requires l.PostExited? && Inv(s) && Enabled(s, l)
    ensures Inv(Apply(s, l))
  {
    FreeMove(s.log, s.queue, s.exitPc.Freed?, s.signals, s.pc, Quit);
  }

  lemma {:induction false} StepRunReturns(s: State, l: Label)
    requires l.RunReturns? && Inv(s) && Enabled(s, l)
    ensures Inv(Apply(s, l))
  {
  }

  lemma {:induction false} EnqueueFifo(posted: seq<Msg>, executed: seq<Msg>, pc: Pc, queue: seq<Msg>, m: Msg)
    requires Fifo(posted, executed, pc, queue, [], false) && m.id == |posted|
    ensures Fifo(posted + [m], executed, pc, queue + [m], [], false)
  {
  }

  lemma {:induction false} EnqueueRan(posted: seq<Msg>, done: nat, pc: Pc, ran: seq<Msg>, m: Msg)
    requires Ran(posted, done, pc, ran)
    ensures Ran(posted + [m], done, pc, ran)
  {
  }

  lemma {:induction false} EnqueueKinds(posted: seq<Msg>, stopId: int, exitPc: ExitPc, owing: set<nat>, m: Msg)
    requires Kinds(posted, stopId, exitPc, owing) && posted != [] && m.id == |posted|
    requires !m.kind.SetReady? && (m.kind.SetStop? ==> exitPc.NotExiting?)
    ensures if m.kind.SetStop? then Kinds(posted + [m], |posted|, StopPosted, owing + {|posted|})
            else Kinds(posted + [m], stopId, exitPc, owing + {|posted|})
  {
  }

  lemma {:induction false} EnqueueWakeup(queue: seq<Msg>, open: bool, pending: bool, pc: Pc, owing: set<nat>, m: Msg)
    requires Wakeup(queue, open, pending, pc, owing)
    ensures Wakeup(queue + [m], open, pending, pc, owing + {m.id})
  {
  }

  lemma {:induction false} EnqueueParts(s: State, m: Msg)
    requires Inv(s) && s.runReturned && !s.exitPc.Freed? && m.id == |s.log.posted|
    requires !m.kind.SetReady? && (m.kind.SetStop? ==> s.exitPc.NotExiting?)
    ensures Fifo(s.log.posted + [m], s.log.executed, s.pc, s.queue + [m], s.log.discarded, false)
    ensures Ran(s.log.posted + [m], |s.log.executed|, s.pc, s.log.ran)
    ensures Wakeup(s.queue + [m], s.asyncOpen, s.asyncPending, s.pc, s.log.owing + {m.id})
    ensures if m.kind.SetStop? then Kinds(s.log.posted + [m], |s.log.posted|, StopPosted, s.log.owing + {m.id})
            else Kinds(s.log.posted + [m], s.stopId, s.exitPc, s.log.owing + {m.id})
    ensures Signals(if m.kind.Sync? then s.signals[m.id := 0] else s.signals, s.log.returned, false,
                    s.log.posted + [m], |s.log.executed|, s.pc)
  {
    EnqueueFifo(s.log.posted, s.log.executed, s.pc, s.queue, m);
    EnqueueRan(s.log.posted, |s.log.executed|, s.pc, s.log.ran, m);
    EnqueueKinds(s.log.posted, s.stopId, s.exitPc, s.log.owing, m);
    EnqueueWakeup(s.queue, s.asyncOpen, s.asyncPending, s.pc, s.log.owing, m);
    EnqueueSignals(s.signals, s.log.returned, s.log.posted, m, |s.log.executed|, s.pc);
  }

  lemma {:induction false} EnqueueSignals(signals: map<nat, nat>, returned: set<nat>, posted: seq<Msg>, m: Msg,
                                          done: nat, pc: Pc)
    requires Signals(signals, returned, false, posted, done, pc) && !FuncReturned(done, pc, |posted|)
    ensures Signals(if m.kind.Sync? then signals[|posted| := 0] else signals, returned, false, posted + [m], done, pc)
  {
    assert forall id :: 0 <= id < |posted| ==> (posted + [m])[id] == posted[id];
  }

  lemma {:induction false} StepPost(s: State, l: Label)
    requires l.Post? && Inv(s) && Enabled(s, l)
    ensures Inv(Apply(s, l))
  {
    EnqueueParts(s, Msg(|s.log.posted|, l.kind));
  }

  lemma {:induction false} StepSend(s: State, l: Label)
    requires l.Send? && Inv(s) && Enabled(s, l)
    ensures Inv(Apply(s, l))
  {
  }

  lemma {:induction false} StepSyncReturn(s: State, l: Label)
    requires l.SyncReturn? && Inv(s) && Enabled(s, l)
    ensures Inv(Apply(s, l))
  {
  }

  lemma {:induction false} StepExitPost(s: State, l: Label)
    requires l.ExitPost? && Inv(s) && Enabled(s, l)
    ensures Inv(Apply(s, l))
  {
    EnqueueParts(s, Msg(|s.log.posted|, SetStop));
  }

  lemma {:induction false} StepExitWait(s: State, l: Label)
    requires l.ExitWait? && Inv(s) && Enabled(s, l)
    ensures Inv(Apply(s, l))
  {
  }

  lemma {:induction false} DiscardFifo(posted: seq<Msg>, executed: seq<Msg>, queue: seq<Msg>)
    requires Fifo(posted, executed, Quit, queue, [], false)
    ensures Fifo(posted, executed, Quit, [], [] + queue, true)
  {
  }

  lemma {:induction false} StepExitFree(s: State, l: Label)
    requires l.ExitFree? && Inv(s) && Enabled(s, l)
    ensures Inv(Apply(s, l))
  {
    assert s.pc.Quit? && s.log.discarded == [];
    DiscardFifo(s.log.posted, s.log.executed, s.queue);
  }

  lemma {:induction false} StepInv(s: State, l: Label)
    requires Inv(s) && Enabled(s, l)
    ensures Inv(Apply(s, l))
  {
    match l
    case LoopStart => StepLoopStart(s, l);
    case EnterRun => StepEnterRun(s, l);
    case Dispatch => StepDispatch(s, l);
    case Take => StepTake(s, l);
    case RunFunc => StepRunFunc(s, l);
    case Signal => StepSignal(s, l);
    case FreeMsg => StepFreeMsg(s, l);
    case LeaveRun => StepLeaveRun(s, l);
    case PostExited => StepPostExited(s, l);
    case RunReturns => StepRunReturns(s, l);
    case Post(_) => StepPost(s, l);
    case Send(_) => StepSend(s, l);
    case SyncReturn(_) => StepSyncReturn(s, l);
    case ExitPost => StepExitPost(s, l);
    case ExitWait => StepExitWait(s, l);
    case ExitFree => StepExitFree(s, l);
  }

  lemma InitInv()
    ensures Inv(INIT)
  {
    assert Fifo([], [], Created, [], [], false) && Ran([], 0, Created, []) && Kinds([], -1, NotExiting, {});
    assert Signals(map[], {}, false, [], 0, Created);
  }

  lemma {:induction false} RunInv(s: State, ls: seq<Label>)
    requires Inv(s) && ValidRun(s, ls)
    ensures Inv(Final(s, ls))
    decreases |ls|
  {
    if ls == [] {
    } else {
      StepInv(s, ls[0]);
      RunInv(Apply(s, ls[0]), ls[1..]);
    }
  }
}
