/** The speed-test transfer of tools/l2cap.c and tools/spp.c: START, START_ACK, bulks, EOF.

    `OnData`, `OnBulkComplete` and `OnSpeedTest` are the three entry points of one end, as
    functions of its transfer context.  `Sys` is a sender and a receiver joined by two in-order
    byte channels.  Bulk bytes may be cut and glued anywhere; control messages are delivered
    whole. */
module Transfer {

  const U32: nat := 0x1_0000_0000

  datatype Mode = Idle | Sending | Receiving

  /** `l2cap_trans_ctx_t` and `transmit_context_t`; handle 0 is NULL. */
  datatype Ctx = Ctx(handle: nat, state: Mode, bulkCount: int, bulkLength: nat, total: nat, received: nat)

  const RESET := Ctx(0, Idle, 0, 0, 0, 0)

  /** What one read delivers. */
  datatype Chunk = Start(total: nat) | StartAck | Eof | Data(size: nat)

  /** What an entry point writes. */
  datatype Output = Silent | Reply(chunk: Chunk) | Bulk(length: nat)

  function Digits(n: nat): nat { if n < 10 then 1 else 1 + Digits(n / 10) }

  function Size(c: Chunk): nat {
    match c
    case Start(n) => 7 + Digits(n)
    case StartAck => 9
    case Eof => 3
    case Data(k) => k
  }

  /** `handle_l2cap_data_recv` and `spp_data_received`. */
  function OnData(ctx: Ctx, handle: nat, c: Chunk): (Ctx, Output) {
    if !ctx.state.Idle? && handle != ctx.handle then (ctx, Silent)
    else
      match ctx.state
      case Idle =>
        if c.Start? then (RESET.(handle := handle, state := Receiving, total := c.total), Reply(StartAck))
        else (ctx, Silent)
      case Sending =>
        if c.Eof? then (RESET, Silent)
        else if c.StartAck? then (ctx, Bulk(ctx.bulkLength))
        else (ctx, Silent)
      case Receiving =>
        var received := (ctx.received + Size(c)) % U32;
        if received >= ctx.total then (RESET, Reply(Eof)) else (ctx.(received := received), Silent)
  }

  /** `bulk_trans_complete`. */
  function OnBulkComplete(ctx: Ctx): (Ctx, Output) {
    var r := ctx.(bulkCount := ctx.bulkCount - 1);
    (r, if r.bulkCount != 0 then Bulk(ctx.bulkLength) else Silent)
  }

  /** `do_l2cap_speed_test` and `speed_test_start` on a channel that exists; `length` is the bulk
      length of the tool. */
  function OnSpeedTest(ctx: Ctx, handle: nat, length: nat, times: nat): (Ctx, Output) {
    if !ctx.state.Idle? then (ctx, Silent)
    else
      var total := (length * times) % U32;
      (ctx.(handle := handle, state := Sending, bulkLength := length, bulkCount := times, total := total),
       Reply(Start(total)))
  }

  // ----- A sender and a receiver -----

  const SENDER: nat := 1
  const RECEIVER: nat := 2

  /** A finished test: how many bulks were asked for and how many bytes had arrived when the
      receiver sent EOF. */
  datatype Report = Report(times: nat, bytes: nat)

  datatype Sys = Sys(
    a: Ctx,                 // the end that starts tests
    b: Ctx,
    ab: seq<Chunk>,         // in flight, oldest first; bulk bytes coalesced
    ba: seq<Chunk>,
    unsent: int,            // bytes of the outstanding bulk write not yet in the channel; -1: no write
    times: nat,             // of the running test
    arrived: nat,           // bulk bytes the receiver has read in this test
    eofs: nat,              // EOFs sent in this test
    begun: seq<nat>,        // bulks asked for, test by test
    reports: seq<Report>)

  const QUIET := Sys(RESET, RESET, [], [], -1, 0, 0, 0, [], [])

  datatype Label =
    | Begin(times: nat)
    | Flush(k: nat)         // k bytes of the outstanding write enter the channel
    | Complete              // its completion callback
    | Deliver(k: nat)       // the receiver reads a control message or k bulk bytes
    | Answer                // the sender reads a control message
    | Overtake              // the same before the completion of its write
    | Noise(toA: bool, from: nat, c: Chunk)   // an end reads something that is not the test's

  /** In flight and coalesced. */
  function Append(cs: seq<Chunk>, k: nat): seq<Chunk> {
    if cs != [] && cs[|cs| - 1].Data? then cs[..|cs| - 1] + [Data(cs[|cs| - 1].size + k)] else cs + [Data(k)]
  }

  /** Not a message of a test: while idle anything but START; while a test runs anything from another handle,
      and at the sender anything but START_ACK and EOF. */
  predicate IsNoise(state: Mode, own: nat, from: nat, c: Chunk) {
    match state
    case Idle => !c.Start?
    case Sending => from != own || !(c.StartAck? || c.Eof?)
    case Receiving => from != own
  }

  /** A test runs at least one and at most 65535 bulks; one may be asked for at any time. */
  predicate Enabled(s: Sys, l: Label) {
    match l
    case Begin(n) => 0 < n < 0x10000
    case Flush(k) => 0 < k <= s.unsent
    case Complete => s.unsent == 0
    case Deliver(k) => s.ab != [] && (s.ab[0].Data? ==> 0 < k <= s.ab[0].size)
    case Answer => s.ba != [] && s.unsent != 0
    case Overtake => s.ba != [] && s.unsent == 0
    case Noise(toA, from, c) =>
      if toA then IsNoise(s.a.state, SENDER, from, c) else IsNoise(s.b.state, RECEIVER, from, c)
  }

  function Written(s: Sys, o: Output): Sys {
    match o
    case Silent => s
    case Reply(c) => s.(ab := s.ab + [c])
    case Bulk(n) => s.(unsent := n)
  }

  function DeliverTo(s: Sys, k: nat): Sys
    requires s.ab != []
  {
    var head, rest := s.ab[0], s.ab[1..];
    var c := if head.Data? then Data(k) else head;
    var ab := if head.Data? && k < head.size then [Data(head.size - k)] + rest else rest;
    var (b, o) := OnData(s.b, RECEIVER, c);
    var arrived := if head.Data? then s.arrived + k else s.arrived;
    var r := s.(b := b, ab := ab, arrived := arrived);
    if o.Reply? then
      r.(ba := s.ba + [o.chunk],
         eofs := if o.chunk.Eof? then s.eofs + 1 else s.eofs,
         reports := if o.chunk.Eof? then s.reports + [Report(s.times, arrived)] else s.reports)
    else r
  }

  function AnswerTo(s: Sys): Sys
    requires s.ba != []
  {
    var (a, o) := OnData(s.a, SENDER, s.ba[0]);
    Written(s.(a := a, ba := s.ba[1..]), o)
  }

  /** A test is asked for; it is counted if START was written. */
  function BeginAt(s: Sys, length: nat, n: nat): Sys {
    var (a, o) := OnSpeedTest(s.a, SENDER, length, n);
    var r := Written(s.(a := a), o);
    if o.Reply? then r.(times := n, arrived := 0, eofs := 0, begun := s.begun + [n]) else r
  }

  function NoiseToA(s: Sys, from: nat, c: Chunk): Sys {
    var (a, o) := OnData(s.a, from, c);
    Written(s.(a := a), o)
  }

  function NoiseToB(s: Sys, from: nat, c: Chunk): Sys {
    var (b, o) := OnData(s.b, from, c);
    var r := s.(b := b);
    if o.Reply? then
      r.(ba := s.ba + [o.chunk],
         eofs := if o.chunk.Eof? then s.eofs + 1 else s.eofs,
         reports := if o.chunk.Eof? then s.reports + [Report(s.times, s.arrived)] else s.reports)
    else r
  }

  function Apply(s: Sys, length: nat, l: Label): Sys
    requires Enabled(s, l)
  {
    match l
    case Begin(n) => BeginAt(s, length, n)
    case Flush(k) => s.(unsent := s.unsent - k, ab := Append(s.ab, k))
    case Complete =>
      var (a, o) := OnBulkComplete(s.a);
      Written(s.(a := a, unsent := -1), o)
    case Deliver(k) => DeliverTo(s, k)
    case Answer => AnswerTo(s)
    case Overtake => AnswerTo(s)
    case Noise(toA, from, c) => if toA then NoiseToA(s, from, c) else NoiseToB(s, from, c)
  }

  /** The two tools: 1000-byte bulks over L2CAP, 990-byte bulks over SPP. */
  predicate ToolLength(length: nat) { length == 1000 || length == 990 }

  // ----- The invariant -----

  /** The sender in the middle of a test of `n` bulks with `c` of them not completed. */
  function Sender(length: nat, n: nat, c: int): Ctx {
    Ctx(SENDER, Sending, c, length, length * n, 0)
  }

  function Receiver(length: nat, n: nat, received: nat): Ctx {
    Ctx(RECEIVER, Receiving, 0, 0, length * n, received)
  }

  function InFlight(ab: seq<Chunk>): nat {
    if ab != [] && ab[0].Data? then ab[0].size else 0
  }

  datatype Phase = Resting | Starting | Acked | Bulking | Ending

  ghost predicate InPhase(s: Sys, length: nat, p: Phase) {
    var n := s.times;
    match p
    case Resting => s.a == RESET && s.b == RESET && s.ab == [] && s.ba == [] && s.unsent == -1 && s.eofs <= 1
    case Starting =>
      && s.a == Sender(length, n, n) && s.b == RESET && s.ab == [Start(length * n)] && s.ba == []
      && s.unsent == -1 && s.arrived == 0 && s.eofs == 0
    case Acked =>
      && s.a == Sender(length, n, n) && s.b == Receiver(length, n, 0) && s.ab == [] && s.ba == [StartAck]
      && s.unsent == -1 && s.arrived == 0 && s.eofs == 0
    case Bulking =>
      && (s.ab == [] || (|s.ab| == 1 && s.ab[0].Data? && s.ab[0].size > 0)) && s.ba == []
      && s.arrived < length * n && s.b == Receiver(length, n, s.arrived)
      && s.eofs == 0
      && 0 <= s.a.bulkCount <= n && s.a == Sender(length, n, s.a.bulkCount)
      && (s.unsent == -1 <==> s.a.bulkCount == 0) && -1 <= s.unsent <= length
      && Conserved(s, length)
    case Ending =>
      && s.ab == [] && s.ba == [Eof] && s.b == RESET && s.eofs == 1
      && s.arrived == length * n
      && 0 <= s.a.bulkCount <= 1 && s.a == Sender(length, n, s.a.bulkCount)
      && s.unsent == s.a.bulkCount - 1
  }

  /** Received, in flight, in the outstanding write and in the bulks still to be written: together
      always the total. */
  ghost predicate Conserved(s: Sys, length: nat) {
    s.arrived + InFlight(s.ab) + (if s.unsent >= 0 then s.unsent + length * (s.a.bulkCount - 1) else 0)
    == length * s.times
  }

  ghost predicate Inv(s: Sys, length: nat) {
    && (exists p :: InPhase(s, length, p))
    && Accounted(s, length)
  }

  /** EOF has not been sent yet in the test that was begun last. */
  predicate Running(s: Sys) { s.a.state.Sending? && s.eofs == 0 }

  /** Every test begun is reported with exactly its total, except one that is still running. */
  ghost predicate Reported(begun: seq<nat>, times: nat, reports: seq<Report>, length: nat, running: bool) {
    && |begun| == |reports| + (if running then 1 else 0)
    && (forall i :: 0 <= i < |reports| ==> reports[i] == Report(begun[i], length * begun[i]))
    && (running ==> begun[|reports|] == times)
  }

  /** The successor phase of each step. */
  ghost function NextPhase(s: Sys, length: nat, l: Label, p: Phase): Phase {
    match p
    case Resting => Starting
    case Starting => Acked
    case Acked => Bulking
    case Bulking => if l.Deliver? && s.arrived + l.k == length * s.times then Ending else Bulking
    case Ending => if l.Complete? then Ending else Resting
  }

  /** Steps that are not part of a running test: noise, and asking for a test while one runs. */
  predicate Aside(s: Sys, l: Label) { l.Noise? || (l.Begin? && !s.a.state.Idle?) }

  /** They change nothing at all. */
  lemma {:induction false} AsideChangesNothing(s: Sys, length: nat, l: Label)
    requires ToolLength(length) && Inv(s, length) && Enabled(s, l) && Aside(s, l)
    ensures Apply(s, length, l) == s
  {
    var p :| InPhase(s, length, p);
    if l.Noise? {
      if l.toA {
        assert s.a.state.Idle? || s.a.handle == SENDER;
      } else {
        assert s.b.state.Idle? || s.b.handle == RECEIVER;
      }
    }
  }

  lemma {:induction false} StepControl(s: Sys, length: nat, l: Label, p: Phase)
    requires ToolLength(length) && Inv(s, length) && InPhase(s, length, p)
    requires Enabled(s, l) && !l.Overtake? && !Aside(s, l) && !p.Bulking?
    ensures InPhase(Apply(s, length, l), length, NextPhase(s, length, l, p))
  {
  }

  lemma {:induction false} BulkFlush(s: Sys, length: nat, l: Label)
    requires ToolLength(length) && Inv(s, length) && InPhase(s, length, Bulking) && Enabled(s, l) && l.Flush?
    ensures InPhase(Apply(s, length, l), length, NextPhase(s, length, l, Bulking))
  {
  }

  lemma {:induction false} BulkComplete(s: Sys, length: nat, l: Label)
    requires ToolLength(length) && Inv(s, length) && InPhase(s, length, Bulking) && Enabled(s, l) && l.Complete?
    ensures InPhase(Apply(s, length, l), length, NextPhase(s, length, l, Bulking))
  {
  }

  /** A bulk read of `k` bytes: the counter does not wrap, and it ends the test exactly at the total. */
  lemma {:induction false} BulkRead(s: Sys, length: nat, k: nat)
    requires ToolLength(length) && Inv(s, length) && InPhase(s, length, Bulking) && s.ab != [] && 0 < k <= s.ab[0].size
    ensures s.arrived + k <= length * s.times < U32
    ensures OnData(s.b, RECEIVER, Data(k)) ==
            if s.arrived + k == length * s.times then (RESET, Reply(Eof))
            else (Receiver(length, s.times, s.arrived + k), Silent)
  {
    var total := length * s.times;
    assert total < U32;
    assert s.arrived + k <= total;
    assert (s.b.received + k) % U32 == s.arrived + k;
  }

  lemma {:induction false} BulkDeliver(s: Sys, length: nat, l: Label)
    requires ToolLength(length) && Inv(s, length) && InPhase(s, length, Bulking) && Enabled(s, l) && l.Deliver?
    ensures InPhase(Apply(s, length, l), length, NextPhase(s, length, l, Bulking))
  {
    BulkRead(s, length, l.k);
  }

  lemma {:induction false} StepBulk(s: Sys, length: nat, l: Label)
    requires ToolLength(length) && Inv(s, length) && InPhase(s, length, Bulking)
    requires Enabled(s, l) && !l.Overtake? && !Aside(s, l)
    ensures InPhase(Apply(s, length, l), length, NextPhase(s, length, l, Bulking))
  {
    match l
    case Flush(_) => BulkFlush(s, length, l);
    case Complete => BulkComplete(s, length, l);
    case Deliver(_) => BulkDeliver(s, length, l);
  }

  ghost predicate Accounted(s: Sys, length: nat) {
    s.times < 0x10000 && (!s.a.state.Idle? ==> s.times > 0) && Reported(s.begun, s.times, s.reports, length, Running(s))
  }

  /** A delivery may end a test. */
  lemma {:induction false} DeliverAccounted(s: Sys, length: nat, l: Label, p: Phase)
    requires ToolLength(length) && Inv(s, length) && InPhase(s, length, p) && Enabled(s, l) && l.Deliver?
    ensures Accounted(Apply(s, length, l), length)
  {
    if p.Bulking? {
      BulkRead(s, length, l.k);
    }
  }

  lemma {:induction false} BeginAccounted(s: Sys, length: nat, l: Label, p: Phase)
    requires ToolLength(length) && Inv(s, length) && InPhase(s, length, p)
    requires Enabled(s, l) && l.Begin? && !Aside(s, l)
    ensures Accounted(Apply(s, length, l), length)
  {
  }

  /** Other steps leave the reports alone. */
  lemma {:induction false} OtherAccounted(s: Sys, length: nat, l: Label, p: Phase)
    requires ToolLength(length) && Inv(s, length) && InPhase(s, length, p) && Enabled(s, l)
    requires l.Flush? || l.Complete? || l.Answer?
    ensures Accounted(Apply(s, length, l), length)
  {
  }

  lemma {:induction false} StepInv(s: Sys, length: nat, l: Label)
    requires ToolLength(length) && Inv(s, length) && Enabled(s, l) && !l.Overtake?
    ensures Inv(Apply(s, length, l), length)
  {
    if Aside(s, l) {
      AsideChangesNothing(s, length, l);
      return;
    }
    var p :| InPhase(s, length, p);
    match l {
      case Begin(_) => BeginAccounted(s, length, l, p);
      case Deliver(_) => DeliverAccounted(s, length, l, p);
      case _ => OtherAccounted(s, length, l, p);
    }
    if p.Bulking? {
      StepBulk(s, length, l);
    } else {
      StepControl(s, length, l, p);
    }
    assert InPhase(Apply(s, length, l), length, NextPhase(s, length, l, p));
  }

  // ----- Every run -----

  /** A run in which the sender sees the completion of a write before the peer's answer to it. */
  ghost predicate ValidRun(s: Sys, length: nat, ls: seq<Label>)
    decreases |ls|
  {
    ls == [] || (Enabled(s, ls[0]) && !ls[0].Overtake? && ValidRun(Apply(s, length, ls[0]), length, ls[1..]))
  }

  ghost function Final(s: Sys, length: nat, ls: seq<Label>): Sys
    requires ValidRun(s, length, ls)
    decreases |ls|
  {
    if ls == [] then s else Final(Apply(s, length, ls[0]), length, ls[1..])
  }

  lemma {:induction false} RunInv(s: Sys, length: nat, ls: seq<Label>)
    requires ToolLength(length) && Inv(s, length) && ValidRun(s, length, ls)
    ensures Inv(Final(s, length, ls), length)
    decreases |ls|
  {
    if ls == [] {
    } else {
      StepInv(s, length, ls[0]);
      RunInv(Apply(s, length, ls[0]), length, ls[1..]);
    }
  }

  ghost predicate Reachable(s: Sys, length: nat) {
    exists ls :: ValidRun(QUIET, length, ls) && s == Final(QUIET, length, ls)
  }

  lemma {:induction false} ReachableInv(s: Sys, length: nat)
    requires ToolLength(length) && Reachable(s, length)
    ensures Inv(s, length)
  {
    var ls :| ValidRun(QUIET, length, ls) && s == Final(QUIET, length, ls);
    assert InPhase(QUIET, length, Resting);
    RunInv(QUIET, length, ls);
  }

  /** While a bulk write is outstanding and the receiver is counting, what was received, what is
      in flight and what is still to be written always add up to the announced total. */
  lemma {:induction false} Conservation(s: Sys, length: nat)
    requires ToolLength(length) && Reachable(s, length) && s.unsent >= 0 && s.b.state.Receiving?
    ensures s.b.received + InFlight(s.ab) + s.unsent + length * (s.a.bulkCount - 1) == s.a.total == s.b.total
  {
    ReachableInv(s, length);
  }

  /** EOF is sent when exactly the total has arrived, once per test; every finished test moved
      exactly its total; no counter ever wraps. */
  lemma {:induction false} EofExactlyAtTotal(s: Sys, length: nat)
    requires ToolLength(length) && Reachable(s, length)
    ensures s.eofs <= 1
    ensures |s.reports| <= |s.begun| <= |s.reports| + 1
    ensures Eof in s.ba ==> s.eofs == 1 && s.arrived == length * s.times
    ensures forall i :: 0 <= i < |s.reports| ==> s.reports[i] == Report(s.begun[i], length * s.begun[i])
    ensures s.b.received <= s.b.total < U32 && s.a.total < U32 && s.a.bulkCount >= 0
    ensures s.b.state.Receiving? ==> s.b.received == s.arrived < s.b.total
  {
    ReachableInv(s, length);
  }

  /** Both ends are idle only with empty channels, no write outstanding and contexts cleared. */
  lemma {:induction false} IdleMeansClean(s: Sys, length: nat)
    requires ToolLength(length) && Reachable(s, length) && s.a.state.Idle?
    ensures s.a == s.b == RESET && s.ab == s.ba == [] && s.unsent == -1 && |s.reports| == |s.begun|
  {
    ReachableInv(s, length);
  }

  // ----- Every test ends -----

  ghost function Unwritten(s: Sys, length: nat): int {
    if s.unsent >= 0 then s.unsent + length * (s.a.bulkCount - 1) else length * s.a.bulkCount
  }

  /** Work left in the running test. */
  ghost function Work(s: Sys, length: nat): int {
    3 * Unwritten(s, length) + 2 * InFlight(s.ab) + s.a.bulkCount +
    (if s.ab != [] && s.ab[0].Start? then 2 else 0) + |s.ba|
  }

  lemma {:induction false} WorkStep(s: Sys, length: nat, l: Label)
    requires ToolLength(length) && Inv(s, length) && Enabled(s, l) && !l.Begin? && !l.Noise? && !l.Overtake?
    ensures 0 <= Work(Apply(s, length, l), length) < Work(s, length)
  {
    var p :| InPhase(s, length, p);
    if p.Bulking? {
      WorkBulk(s, length, l);
    } else {
      WorkControl(s, length, l, p);
    }
  }

  lemma {:induction false} WorkBulk(s: Sys, length: nat, l: Label)
    requires ToolLength(length) && Inv(s, length) && InPhase(s, length, Bulking)
    requires Enabled(s, l) && !l.Begin? && !l.Noise? && !l.Overtake?
    ensures 0 <= Work(Apply(s, length, l), length) < Work(s, length)
  {
    if l.Deliver? {
      WorkDeliver(s, length, l);
    }
  }

  lemma {:induction false} WorkDeliver(s: Sys, length: nat, l: Label)
    requires ToolLength(length) && Inv(s, length) && InPhase(s, length, Bulking) && Enabled(s, l) && l.Deliver?
    ensures 0 <= Work(Apply(s, length, l), length) < Work(s, length)
  {
    BulkRead(s, length, l.k);
  }

  lemma {:induction false} WorkControl(s: Sys, length: nat, l: Label, p: Phase)
    requires ToolLength(length) && Inv(s, length) && InPhase(s, length, p) && !p.Bulking?
    requires Enabled(s, l) && !l.Begin? && !l.Noise? && !l.Overtake?
    ensures 0 <= Work(Apply(s, length, l), length) < Work(s, length)
  {
  }

  /** A step of a running test. */
  predicate OfTest(l: Label) { !l.Begin? && !l.Noise? && !l.Overtake? }

  /** A test that is not over can always continue. */
  lemma {:induction false} NotStuck(s: Sys, length: nat)
    requires ToolLength(length) && Inv(s, length) && !s.a.state.Idle?
    ensures exists l :: OfTest(l) && Enabled(s, l)
  {
    var p :| InPhase(s, length, p);
    var l := match p
             case Starting => Deliver(0)
             case Acked => Answer
             case Bulking => if s.ab != [] then Deliver(1) else if s.unsent > 0 then Flush(1) else Complete
             case _ => if s.unsent == 0 then Complete else Answer;
    assert OfTest(l) && Enabled(s, l);
  }

  /** The steps of the running test in a run. */
  function TestSteps(ls: seq<Label>): nat {
    if ls == [] then 0 else (if OfTest(ls[0]) then 1 else 0) + TestSteps(ls[1..])
  }

  /** Tests are asked for only while one runs. */
  ghost predicate OneTest(s: Sys, length: nat, ls: seq<Label>)
    requires ValidRun(s, length, ls)
    decreases |ls|
  {
    ls == [] || ((ls[0].Begin? ==> !s.a.state.Idle?) && OneTest(Apply(s, length, ls[0]), length, ls[1..]))
  }

  /** However the bytes are cut, the callbacks interleaved and whatever other channels send, a test takes at
      most `Work` steps; a run after which no step of it is left has both ends idle and every test begun
      reported. */
  lemma {:induction false} TransferEnds(s: Sys, length: nat, ls: seq<Label>)
    requires ToolLength(length) && Inv(s, length) && ValidRun(s, length, ls) && OneTest(s, length, ls)
    ensures TestSteps(ls) <= Work(s, length)
    ensures (forall l :: OfTest(l) ==> !Enabled(Final(s, length, ls), l)) ==>
              InPhase(Final(s, length, ls), length, Resting) &&
              |Final(s, length, ls).reports| == |Final(s, length, ls).begun|
    decreases |ls|
  {
    if ls == [] {
      WorkNonNegative(s, length);
      if !s.a.state.Idle? {
        NotStuck(s, length);
      }
    } else {
      if OfTest(ls[0]) {
        WorkStep(s, length, ls[0]);
      } else {
        AsideChangesNothing(s, length, ls[0]);
      }
      StepInv(s, length, ls[0]);
      TransferEnds(Apply(s, length, ls[0]), length, ls[1..]);
    }
  }

  lemma {:induction false} WorkNonNegative(s: Sys, length: nat)
    requires ToolLength(length) && Inv(s, length)
    ensures Work(s, length) >= 0
    ensures s.a.state.Idle? ==> InPhase(s, length, Resting)
  {
    var p :| InPhase(s, length, p);
  }

  // ----- What reaches a running test -----

  /** An end ignores what it reads, keeping its state and writing nothing, if and only if that is no message
      of a test.  In particular data from another handle is never counted into a running test. */
  lemma {:induction false} IgnoredIffNoise(s: Sys, length: nat, from: nat, c: Chunk)
    requires ToolLength(length) && Reachable(s, length) && 0 < Size(c) < U32
    ensures OnData(s.a, from, c) == (s.a, Silent) <==> IsNoise(s.a.state, SENDER, from, c)
    ensures OnData(s.b, from, c) == (s.b, Silent) <==> IsNoise(s.b.state, RECEIVER, from, c)
  {
    ReachableInv(s, length);
    var p :| InPhase(s, length, p);
    EndIgnores(s.a, SENDER, from, c);
    EndIgnores(s.b, RECEIVER, from, c);
  }

  lemma {:induction false} EndIgnores(ctx: Ctx, own: nat, from: nat, c: Chunk)
    requires (!ctx.state.Idle? ==> ctx.handle == own) && ctx.received < U32 && 0 < Size(c) < U32
    ensures OnData(ctx, from, c) == (ctx, Silent) <==> IsNoise(ctx.state, own, from, c)
  {
    if ctx.state.Receiving? {
      assert (ctx.received + Size(c)) % U32 != ctx.received;
    }
  }

  /** A START from another handle reaches an idle receiver while the sender's own is under way: the receiver
      serves the other handle, and the sender's START is ignored when it comes. */
  lemma {:induction false} ForeignStartTakesReceiver(s: Sys, length: nat, from: nat, total: nat)
    requires ToolLength(length) && Reachable(s, length) && s.ab != [] && s.ab[0].Start? && from != RECEIVER
    ensures var (b, o) := OnData(s.b, from, Start(total));
            && b.state.Receiving? && b.handle == from && b.total == total && o == Reply(StartAck)
            && OnData(b, RECEIVER, s.ab[0]) == (b, Silent)
  {
    ReachableInv(s, length);
    var p :| InPhase(s, length, p);
  }

  // ----- Why the completion has to come first -----

  /** The answer can overtake exactly at the end: EOF is on its way and the completion of the last write
      is still to come. */
  lemma {:induction false} OvertakeIff(s: Sys, length: nat)
    requires ToolLength(length) && Reachable(s, length)
    ensures Enabled(s, Overtake) <==> s.ba == [Eof] && s.unsent == 0
  {
    ReachableInv(s, length);
  }

  /** `k` completions in a row, as far as there are writes to complete. */
  function Completes(s: Sys, length: nat, k: nat): Sys {
    if k == 0 then s
    else
      var r := Completes(s, length, k - 1);
      if Enabled(r, Complete) then Apply(r, length, Complete) else r
  }

  /** If EOF overtakes the completion of the last write, the reset counter goes negative and every
      completion starts another write, for as long as the 32-bit counter lasts: no write is ever the
      last. */
  lemma {:induction false} OvertakenNeverSettles(s: Sys, length: nat, k: nat)
    requires ToolLength(length) && Reachable(s, length) && Enabled(s, Overtake) && k < 0x8000_0000
    ensures var r := Completes(Apply(s, length, Overtake), length, k);
            Enabled(r, Complete) && r.a == RESET.(bulkCount := 0 - k)
  {
    if k == 0 {
      ReachableInv(s, length);
    } else {
      OvertakenNeverSettles(s, length, k - 1);
    }
  }

  // ----- One end, as the tools keep it -----

  class TransferEnd {
    var handle: nat
    var state: Mode
    var bulkCount: int
    var bulkLength: nat
    var total: nat
    var received: nat

    ghost function View(): Ctx
      reads this
    {
      Ctx(handle, state, bulkCount, bulkLength, total, received)
    }

    constructor ()
      ensures View() == RESET
    {
      handle, state, bulkCount, bulkLength, total, received := 0, Idle, 0, 0, 0, 0;
    }

    /** `l2cap_trans_reset` and `spp_trans_reset`. */
    method Clear()
      modifies this
      ensures View() == RESET
    {
      handle, state, bulkCount, bulkLength, total, received := 0, Idle, 0, 0, 0, 0;
    }

    method DataReceived(from: nat, c: Chunk) returns (o: Output)
      modifies this
      ensures (View(), o) == OnData(old(View()), from, c)
      ensures old(state) != Idle && from != old(handle) ==> View() == old(View()) && o == Silent
    {
      o := Silent;
      if state != Idle && from != handle {
        return;
      }
      match state {
        case Idle =>
          if c.Start? {
            Clear();
            handle, state, total := from, Receiving, c.total;
            o := Reply(StartAck);
          }
        case Sending =>
          if c.Eof? {
            Clear();
          } else if c.StartAck? {
            o := Bulk(bulkLength);
          }
        case Receiving =>
          received := (received + Size(c)) % U32;
          if received >= total {
            o := Reply(Eof);
            Clear();
          }
      }
    }

    method BulkTransComplete() returns (o: Output)
      modifies this`bulkCount
      ensures (View(), o) == OnBulkComplete(old(View()))
    {
      bulkCount := bulkCount - 1;
      o := if bulkCount != 0 then Bulk(bulkLength) else Silent;
    }

    method SpeedTest(pipe: nat, length: nat, times: nat) returns (o: Output)
      modifies this
      ensures (View(), o) == OnSpeedTest(old(View()), pipe, length, times)
      ensures old(state) != Idle ==> View() == old(View()) && o == Silent
    {
      if state != Idle {
        return Silent;
      }
      handle, state, bulkLength, bulkCount := pipe, Sending, length, times;
      total := (length * times) % U32;
      o := Reply(Start(total));
    }
  }
}
