/** The hand-out condition is exact: an id that is not ready can spoil the table. */
module ChannelExact {
  import opened ChannelHandOut
  import opened ChannelPaths
  import opened ChannelService
  import opened ChannelTable
  import opened Seqs

  /** Some continuation, in which ids are handed out only when ready, makes the table unsound or applies a
      message to another life of its id. */
  ghost predicate Doomed(s: Sys) {
    exists ls :: ValidRun(s, ls) && ReadyRun(s, ls) && !Good(Final(s, ls).tool)
  }

  lemma {:induction false} DoomedNow(s: Sys)
    requires !Good(s.tool)
    ensures Doomed(s)
  {
    assert ValidRun(s, []) && ReadyRun(s, []) && !Good(Final(s, []).tool);
  }

  lemma {:induction false} DoomedBefore(s: Sys, l: Label)
    requires Enabled(s, l) && Ready(s, l) && Doomed(Apply(s, l))
    ensures Doomed(s)
  {
    var r := Apply(s, l);
    var ls :| ValidRun(r, ls) && ReadyRun(r, ls) && !Good(Final(r, ls).tool);
    var all := [l] + ls;
    assert all[1..] == ls;
    assert ValidRun(s, all) && ReadyRun(s, all) && !Good(Final(s, all).tool);
  }

  lemma {:induction false} DoomedByNext(s: Sys)
    requires s.queue != [] && !Good(Handle(s.tool, s.queue[0], true, 1))
    ensures Doomed(s)
  {
    DoomedNow(Apply(s, Run(true, 1)));
    DoomedBefore(s, Run(true, 1));
  }

  lemma {:induction false} DoomedByCross(s: Sys)
    requires Good(s.tool) && s.queue != [] && IsCallback(s.queue[0].msg)
    requires var n, u := s.queue[0], Slots(s.tool); n.msg.id in u && u[n.msg.id].life != n.life
    ensures Doomed(s)
  {
    var t, n := s.tool, s.queue[0];
    SlotsHas(t.table, t.owner, n.msg.id);
    SlotsAt(t.table, t.owner, Find(t.table, n.msg.id));
    DoomedByNext(s);
  }

  lemma {:induction false} DoomedByUnfit(s: Sys)
    requires Good(s.tool) && s.queue != [] && !Fits(s.tool.table, s.queue[0].msg, true, 1)
    ensures Doomed(s)
  {
    HandleGoodIff(s.tool, s.queue[0], true, 1);
    DoomedByNext(s);
  }

  // ----- Bringing in everything that can come -----

  /** The same state but for the tool and the queue. */
  predicate Elsewhere(e: Sys, s: Sys) { e.command == s.command && e.flight == s.flight && e.svc == s.svc }

  /** Processing the whole queue. */
  lemma {:induction false} Drain(s: Sys) returns (e: Sys)
    requires Good(s.tool)
    ensures Doomed(s) || (Good(e.tool) && e.queue == [] && Slots(e.tool) == Ahead(s) && Elsewhere(e, s))
    ensures Doomed(e) ==> Doomed(s)
    decreases |s.queue|
  {
    if s.queue == [] {
      e := s;
    } else {
      var r := Apply(s, Run(true, 1));
      if Good(r.tool) {
        HandleExact(s.tool, s.queue[0]);
        e := Drain(r);
        if Doomed(r) {
          DoomedBefore(s, Run(true, 1));
        }
      } else {
        DoomedByNext(s);
        e := s;
      }
    }
  }

  /** Posting the command and processing it. */
  lemma {:induction false} DrainCommand(s: Sys) returns (e: Sys)
    requires Good(s.tool) && s.queue == [] && |s.command| == 1
    ensures Doomed(s) || (Good(e.tool) && e.queue == [] && Slots(e.tool) == Step(Slots(s.tool), s.command[0]) &&
                          Elsewhere(e, s.(command := [])))
    ensures Doomed(e) ==> Doomed(s)
  {
    var r := Apply(s, PostCommand);
    assert r.queue == [s.command[0]] && r.queue[1..] == [];
    assert Ahead(r) == After(Step(Slots(s.tool), s.command[0]), []);
    e := Drain(r);
    if Doomed(r) {
      DoomedBefore(s, PostCommand);
    }
  }

  /** Posting a callback and processing it. */
  lemma {:induction false} DrainCallback(s: Sys, i: nat) returns (e: Sys)
    requires Good(s.tool) && s.queue == [] && i < |s.flight|
    ensures Doomed(s) || (Good(e.tool) && e.queue == [] && Slots(e.tool) == Step(Slots(s.tool), s.flight[i]) &&
                          Elsewhere(e, s.(flight := Without(s.flight, i))))
    ensures Doomed(e) ==> Doomed(s)
  {
    var r := Apply(s, PostCallback(i));
    assert r.queue == [s.flight[i]] && r.queue[1..] == [];
    assert Ahead(r) == After(Step(Slots(s.tool), s.flight[i]), []);
    e := Drain(r);
    if Doomed(r) {
      DoomedBefore(s, PostCallback(i));
    }
  }

  ghost predicate KeptApart(notes: seq<Note>, rest: seq<Note>, u: map<nat, Slot>) {
    forall i :: 0 <= i < |notes| && IsCallback(notes[i].msg) && notes[i].msg.id !in u ==> notes[i] in rest
  }

  /** Letting every accept of `notes` that can take effect do so; the callbacks `kept` stay in flight, and
      so does every callback about an id that does not come to the table. */
  lemma {:induction false} SettleRun(s: Sys, notes: seq<Note>, kept: seq<Note>) returns (e: Sys, rest: seq<Note>)
    requires Good(s.tool) && s.queue == [] && s.flight == notes + kept
    ensures Doomed(s) || (Good(e.tool) && e.queue == [] && Slots(e.tool) == Settle(Slots(s.tool), notes) &&
                          Elsewhere(e, s.(flight := rest + kept)))
    ensures KeptApart(notes, rest, Settle(Slots(s.tool), notes))
    ensures Doomed(e) ==> Doomed(s)
    decreases |notes|
  {
    var u := Slots(s.tool);
    var k := FirstLive(u, notes);
    if k == |notes| {
      e, rest := s, notes;
    } else {
      var d := DrainCallback(s, k);
      if Doomed(s) {
        e, rest := s, notes;
      } else {
        assert Without(s.flight, k) == Without(notes, k) + kept;
        e, rest := SettleRun(d, Without(notes, k), kept);
        SettleKeys(u, notes);
        KeptStep(u, notes, rest, k);
      }
    }
  }

  lemma {:induction false} KeptStep(u: map<nat, Slot>, notes: seq<Note>, rest: seq<Note>, k: nat)
    requires k == FirstLive(u, notes) && k < |notes| && (forall x :: x in u ==> x in Settle(u, notes))
    requires KeptApart(Without(notes, k), rest, Settle(u, notes))
    ensures KeptApart(notes, rest, Settle(u, notes))
  {
    var w := Settle(u, notes);
    forall i | 0 <= i < |notes| && IsCallback(notes[i].msg) && notes[i].msg.id !in w ensures notes[i] in rest {
      assert i != k;
      assert Without(notes, k)[if i < k then i else i - 1] == notes[i];
    }
  }

  // ----- An id handed out by a command -----

  /** The old life comes to the table first. */
  lemma {:induction false} AddMeetsOldLife(s: Sys, r: Sys)
    requires Good(r.tool) && Ahead(r) == Ahead(s) && r.flight == s.flight
    requires s.command == [] && |r.command| == 1 && r.command[0].msg.Add? && r.command[0].msg.id in Coming(s)
    ensures Doomed(r)
  {
    var d := Drain(r);
    if !Doomed(r) {
      var e, _ := SettleRun(d, d.flight, []);
      if !Doomed(d) {
        var f := Apply(e, PostCommand);
        SlotsHas(e.tool.table, e.tool.owner, r.command[0].msg.id);
        assert f.queue[0] == r.command[0];
        DoomedByUnfit(f);
        DoomedBefore(e, PostCommand);
      }
    }
  }

  /** A callback of the old life comes to the new channel. */
  lemma {:induction false} OldCallbackMeetsAdd(r: Sys, k: nat)
    requires Good(r.tool) && |r.command| == 1 && r.command[0].msg.Add? && k < |r.flight|
    requires IsAbout(r.flight[k], r.command[0].msg.id) && r.flight[k].life != r.command[0].life
    ensures Doomed(r)
  {
    var d := Drain(r);
    if !Doomed(r) {
      var e := DrainCommand(d);
      if !Doomed(d) {
        var f := Apply(e, PostCallback(k));
        assert f.queue[0] == r.flight[k];
        DoomedByCross(f);
        DoomedBefore(e, PostCallback(k));
      }
    }
  }

  /** The PSM has another listener. */
  lemma {:induction false} AddMeetsListener(r: Sys)
    requires Good(r.tool) && |r.command| == 1 && r.command[0].msg.Add? && r.command[0].msg.listening
    requires HasServer(Ahead(r), r.command[0].msg.psm)
    ensures Doomed(r)
  {
    var d := Drain(r);
    if !Doomed(r) {
      var f := Apply(d, PostCommand);
      ServerIff(d.tool, r.command[0].msg.psm);
      assert f.queue[0] == r.command[0];
      DoomedByUnfit(f);
      DoomedBefore(d, PostCommand);
    }
  }

  lemma {:induction false} CommandDoomed(s: Sys, l: Label)
    requires Inv(s) && Enabled(s, l) && (l.Listen? || l.Connect?) && !Ready(s, l)
    ensures Doomed(Apply(s, l))
  {
    var r := Apply(s, l);
    assert Ahead(r) == Ahead(s);
    if l.id in Coming(s) {
      AddMeetsOldLife(s, r);
    } else if !NoneAbout(s.flight, l.id) {
      var k :| 0 <= k < |s.flight| && IsAbout(s.flight[k], l.id);
      NewLife(Ahead(s), s.command, s.flight, s.svc);
      OldCallbackMeetsAdd(r, k);
    } else {
      AddMeetsListener(r);
    }
  }

  // ----- An id handed out by an accept -----

  /** All that can come has come, and the accept is still in flight. */
  lemma {:induction false} AllIn(s: Sys, r: Sys, m: Note) returns (e: Sys, rest: seq<Note>)
    requires Good(r.tool) && Ahead(r) == Ahead(s) && r.command == s.command && |s.command| <= 1
    requires r.flight == s.flight + [m]
    ensures Doomed(r) || (Good(e.tool) && e.queue == [] && Slots(e.tool) == Coming(s) && e.svc == r.svc &&
                          |e.command| <= 1 && e.flight == rest + [m] && (e.command != [] ==> !e.command[0].msg.Add?))
    ensures KeptApart(s.flight, rest, Coming(s))
    ensures Doomed(e) ==> Doomed(r)
  {
    var d := Drain(r);
    if !Doomed(r) {
      var c := d;
      if s.command != [] && s.command[0].msg.Add? {
        c := DrainCommand(d);
      }
      if !Doomed(d) {
        e, rest := SettleRun(c, s.flight, [m]);
      } else {
        e, rest := r, s.flight;
      }
    } else {
      e, rest := r, s.flight;
    }
  }

  /** The replacement's id is in the table when the accept is processed. */
  lemma {:induction false} AcceptMeetsOldLife(e: Sys, k: nat)
    requires Good(e.tool) && e.queue == [] && k < |e.flight| && IsAccept(e.flight[k].msg)
    requires e.flight[k].msg.id in Slots(e.tool) && e.flight[k].msg.listenId in Slots(e.tool)
    ensures Doomed(e)
  {
    var t, n := e.tool, e.flight[k];
    SlotsHas(t.table, t.owner, n.msg.id);
    SlotsHas(t.table, t.owner, n.msg.listenId);
    var f := Apply(e, PostCallback(k));
    assert f.queue[0] == n;
    DoomedByUnfit(f);
    DoomedBefore(e, PostCallback(k));
  }

  /** A callback of the replacement's old life comes to the new listener. */
  lemma {:induction false} OldCallbackMeetsAccept(e: Sys, rest: seq<Note>, m: Note, n: Note)
    requires Good(e.tool) && e.queue == [] && e.flight == rest + [m] && n in rest
    requires IsAccept(m.msg) && m.msg.id in Slots(e.tool) && IsAbout(n, m.msg.listenId) && n.life != m.next
    ensures Doomed(e)
  {
    var f := DrainCallback(e, |rest|);
    if !Doomed(e) {
      assert Without(e.flight, |rest|) == rest;
      var k :| 0 <= k < |rest| && rest[k] == n;
      var g := Apply(f, PostCallback(k));
      assert g.queue[0] == n;
      DoomedByCross(g);
      DoomedBefore(f, PostCallback(k));
    }
  }

  lemma {:induction false} AcceptDoomed(s: Sys, l: Label)
    requires Inv(s) && Enabled(s, l) && l.Accept? && l.id in Coming(s) && !Ready(s, l)
    ensures Doomed(Apply(s, l))
  {
    var r, m := Apply(s, l), AcceptNote(s.svc, l.id, l.cid, l.next);
    assert Ahead(r) == Ahead(s);
    var e, rest := AllIn(s, r, m);
    if !Doomed(r) {
      if l.next in Coming(s) {
        assert e.flight[|rest|] == m;
        AcceptMeetsOldLife(e, |rest|);
      } else {
        var k :| 0 <= k < |s.flight| && IsAbout(s.flight[k], l.next);
        NewLife(Ahead(s), s.command, s.flight, s.svc);
        OldCallbackMeetsAccept(e, rest, m, s.flight[k]);
      }
    }
  }

  /** In every reached state, whatever is queued or in flight: the service may hand out an id, to a
      listener, to a client or to the replacement of an accepted listener, without endangering the table
      in any continuation if and only if the id is ready. */
  lemma {:induction false} HandOutIff(s: Sys, l: Label)
    requires Reached(s) && Enabled(s, l)
    ensures !Doomed(Apply(s, l)) <==> Ready(s, l)
  {
    ReachedInv(s);
    if l.Accept? {
      AcceptedIsListed(s, l);
    }
    InvHandOutIff(s, l);
  }

  lemma {:induction false} InvHandOutIff(s: Sys, l: Label)
    requires Inv(s) && Enabled(s, l) && (l.Accept? ==> l.id in Coming(s))
    ensures !Doomed(Apply(s, l)) <==> Ready(s, l)
  {
    if Ready(s, l) {
      StepInv(s, l);
      NotDoomed(Apply(s, l));
    } else if l.Accept? {
      AcceptDoomed(s, l);
    } else {
      CommandDoomed(s, l);
    }
  }

  /** A stop never endangers the id it frees: handed to a client right behind the stop's message, the id
      is safe in every continuation if and only if no callback about a life before the stopped one is in
      flight; handed to a listener, if and only if besides its PSM is free ahead. */
  lemma {:induction false} StopThenReuseSafe(s: Sys, id: nat, psm: nat)
    requires Reached(s) && Enabled(s, Stop(id))
    ensures var r := Apply(Apply(s, Stop(id)), PostCommand);
            && Enabled(r, Connect(psm, id))
            && (!Doomed(Apply(r, Connect(psm, id))) <==> NoneAbout(s.flight, id))
            && (Enabled(r, Listen(psm, id)) ==>
                  (!Doomed(Apply(r, Listen(psm, id))) <==>
                   NoneAbout(s.flight, id) && !HasServer(Ahead(r), psm)))
  {
    ReachedInv(s);
    ReusedAfterStop(s, id, psm);
    StepInv(s, Stop(id));
    var r := Apply(Apply(s, Stop(id)), PostCommand);
    StepInv(Apply(s, Stop(id)), PostCommand);
    InvHandOutIff(r, Connect(psm, id));
    if Enabled(r, Listen(psm, id)) {
      InvHandOutIff(r, Listen(psm, id));
    }
  }

  lemma {:induction false} NotDoomed(s: Sys)
    requires Inv(s)
    ensures !Doomed(s)
  {
    forall ls | ValidRun(s, ls) && ReadyRun(s, ls) ensures Good(Final(s, ls).tool) {
      RunInv(s, ls);
    }
  }

  /** With nothing under way the condition is a look into the table. */
  lemma {:induction false} QuietReadyIff(s: Sys, psm: nat, id: nat, listener: nat, cid: nat)
    requires Reached(s) && s.queue == [] && s.command == [] && s.flight == []
    ensures Ready(s, Connect(psm, id)) <==> !HasId(s.tool.table, id)
    ensures Ready(s, Accept(listener, cid, id)) <==> !HasId(s.tool.table, id)
    ensures Ready(s, Listen(psm, id)) <==> !HasId(s.tool.table, id) && !HasListener(s.tool.table, psm)
  {
    ReachedInv(s);
    SlotsHas(s.tool.table, s.tool.owner, id);
    ServerIff(s.tool, psm);
  }

  // ----- Runs that go wrong -----

  /** A state of any run at all. */
  ghost predicate Possible(s: Sys) { exists ls :: ValidRun(EMPTY, ls) && s == Final(EMPTY, ls) }

  lemma {:induction false} RunAppend(s: Sys, ls: seq<Label>, l: Label)
    requires ValidRun(s, ls) && Enabled(Final(s, ls), l)
    ensures ValidRun(s, ls + [l]) && Final(s, ls + [l]) == Apply(Final(s, ls), l)
    decreases |ls|
  {
    if ls == [] {
      assert [l][1..] == [];
    } else {
      RunAppend(Apply(s, ls[0]), ls[1..], l);
      assert (ls + [l])[1..] == ls[1..] + [l];
    }
  }

  lemma {:induction false} Go(s: Sys, l: Label) returns (r: Sys)
    requires Possible(s) && Enabled(s, l)
    ensures Possible(r) && r == Apply(s, l)
  {
    r := Apply(s, l);
    var ls :| ValidRun(EMPTY, ls) && s == Final(EMPTY, ls);
    RunAppend(EMPTY, ls, l);
  }

  lemma Begin() returns (s: Sys)
    ensures Possible(s) && s == EMPTY
  {
    s := EMPTY;
    assert ValidRun(EMPTY, []) && s == Final(EMPTY, []);
  }

  /** A whole command: call, post and processing, on an empty queue. */
  lemma {:induction false} Command(s: Sys, l: Label, pipe: nat) returns (r: Sys)
    requires Possible(s) && s.queue == [] && Enabled(s, l) && (l.Listen? || l.Connect?)
    ensures Possible(r) && r.queue == [] && r.command == [] && r.flight == s.flight && r.svc == Apply(s, l).svc
    ensures r.tool == Handle(s.tool, AddNote(s.svc, l.id, l.psm, l.Listen?), true, pipe)
  {
    r := Go(s, l);
    r := Go(r, PostCommand);
    assert r.queue == [AddNote(s.svc, l.id, l.psm, l.Listen?)];
    r := Go(r, Run(true, pipe));
  }

  /** An id reused while its old channel's disconnect is in flight: the command overtakes the callback and
      the table holds the id twice, until the callback is processed.  Only callbacks that are not posted
      at once can be overtaken. */
  lemma {:induction false} DisconnectOvertaken(p: nat, q: nat, id: nat) returns (s: Sys)
    ensures Possible(s) && !UniqueIds(s.tool.table)
    ensures s.queue == [] && s.command == [] && s.flight == [Note(Disconnected(id), 0, 0)]
    ensures UniqueIds(Apply(Apply(s, PostCallback(0)), Run(true, 1)).tool.table)
  {
    s := Begin();
    s := Command(s, Connect(p, id), 1);
    assert s.tool.table == [Channel(id, p, 0, false, 1)];
    s := Go(s, Down(id));
    assert s.flight == [Note(Disconnected(id), 0, 0)];
    s := Command(s, Connect(q, id), 2);
    assert s.tool.table == [Channel(id, p, 0, false, 1), Channel(id, q, 0, false, 2)];
    DisconnectArrives(s, id);
  }

  lemma {:induction false} DisconnectArrives(s: Sys, id: nat)
    requires s.queue == [] && s.flight == [Note(Disconnected(id), 0, 0)]
    requires |s.tool.table| == 2 && s.tool.table[0].id == id && s.tool.table[1].id == id
    ensures !UniqueIds(s.tool.table)
    ensures UniqueIds(Apply(Apply(s, PostCallback(0)), Run(true, 1)).tool.table)
  {
    var r := Apply(s, PostCallback(0));
    assert r.queue == [Note(Disconnected(id), 0, 0)];
    assert Apply(r, Run(true, 1)).tool.table == OnDisconnected(s.tool.table, id);
    TwiceThenOnce(s.tool.table, id);
  }

  lemma {:induction false} TwiceThenOnce(t: seq<Channel>, id: nat)
    requires |t| == 2 && t[0].id == id && t[1].id == id
    ensures !UniqueIds(t) && UniqueIds(OnDisconnected(t, id))
  {
    assert Find(t, id) == 0;
    assert t[0].id == t[1].id;
  }

  /** A listener whose data path fails ends without a callback.  The next listener of its PSM joins it in
      the table, and with nothing left to process it stays. */
  lemma {:induction false} ListenerLostForGood(p: nat, i: nat, j: nat) returns (s: Sys)
    ensures Possible(s) && !OneListener(s.tool.table)
    ensures s.queue == [] && s.command == [] && s.flight == [] && s.svc.live == map[j := Use(1, p, true)]
  {
    s := Begin();
    s := Command(s, Listen(p, i), 1);
    assert s.tool.table == [Channel(i, p, 0, true, 1)];
    s := Go(s, Drop(i));
    s := Command(s, Listen(p, j), 2);
    var t := s.tool.table;
    assert t == [Channel(i, p, 0, true, 1), Channel(j, p, 0, true, 2)];
    assert t[0].listening && t[1].listening && t[0].psm == t[1].psm;
    assert s.svc.live == map[j := Use(1, p, true)];
  }

  /** Between the service call of a stop and its post, a peer connects to another listener and the
      replacement gets the freed id, in either build.  The table holds the id twice until the stop is
      processed. */
  lemma {:induction false} AcceptDuringStop(p: nat, q: nat, i: nat, j: nat) returns (s: Sys)
    requires p != q && i != j
    ensures Possible(s) && !UniqueIds(s.tool.table)
    ensures s.queue == [] && s.command == [Note(StopListen(p), 0, 0)] && s.flight == []
    ensures Sound(Apply(Apply(s, PostCommand), Run(true, 1)).tool.table)
  {
    s := TwoListeners(p, q, i, j);
    s := Go(s, Stop(i));
    assert s.svc.live == map[j := Use(1, q, true)];
    s := AcceptDuringStopEnd(s, p, q, i, j);
  }

  lemma {:induction false} TwoListeners(p: nat, q: nat, i: nat, j: nat) returns (s: Sys)
    requires p != q && i != j
    ensures Possible(s) && s.queue == [] && s.command == [] && s.flight == []
    ensures s.svc.live == map[i := Use(0, p, true), j := Use(1, q, true)]
    ensures s.tool.table == [Channel(i, p, 0, true, 1), Channel(j, q, 0, true, 2)] && 1 in s.tool.joined
  {
    s := Begin();
    s := Command(s, Listen(p, i), 1);
    assert s.tool.table == [Channel(i, p, 0, true, 1)] && s.svc.live == map[i := Use(0, p, true)];
    s := Command(s, Listen(q, j), 2);
  }

  lemma {:induction false} AcceptDuringStopEnd(from: Sys, p: nat, q: nat, i: nat, j: nat) returns (s: Sys)
    requires p != q && i != j && Possible(from) && from.queue == [] && from.flight == []
    requires from.command == [Note(StopListen(p), 0, 0)] && from.svc.live == map[j := Use(1, q, true)]
    requires from.tool.table == [Channel(i, p, 0, true, 1), Channel(j, q, 0, true, 2)] && 1 in from.tool.joined
    ensures Possible(s) && !UniqueIds(s.tool.table)
    ensures s.queue == [] && s.command == [Note(StopListen(p), 0, 0)] && s.flight == []
    ensures Sound(Apply(Apply(s, PostCommand), Run(true, 1)).tool.table)
  {
    s := Go(from, Accept(j, 7, i));
    assert s.flight == [AcceptNote(from.svc, j, 7, i)];
    s := Go(s, PostCallback(0));
    assert s.queue == [AcceptNote(from.svc, j, 7, i)] && s.flight == [];
    AcceptAgain(s.tool.table, p, q, i, j);
    s := Go(s, Run(true, 3));
    StopArrives(s, p, q, i, j);
  }

  lemma {:induction false} StopArrives(s: Sys, p: nat, q: nat, i: nat, j: nat)
    requires p != q && i != j && s.queue == [] && s.command == [Note(StopListen(p), 0, 0)]
    requires TwoLives(s.tool.table, p, q, i, j)
    ensures !UniqueIds(s.tool.table) && Sound(Apply(Apply(s, PostCommand), Run(true, 1)).tool.table)
  {
    var r := Apply(s, PostCommand);
    assert r.queue == [Note(StopListen(p), 0, 0)];
    assert Apply(r, Run(true, 1)).tool.table == OnStopListen(s.tool.table, p);
    StopRemovesOld(s.tool.table, p, q, i, j);
  }

  /** The old listener `i`, the accepted channel `j`, and the new listener with the old one's id. */
  predicate TwoLives(t: seq<Channel>, p: nat, q: nat, i: nat, j: nat) {
    && |t| == 3 && t[0] == Channel(i, p, 0, true, 1)
    && t[1] == Channel(j, q, 7, false, 2) && t[2] == Channel(i, q, 0, true, 3)
  }

  lemma {:induction false} AcceptAgain(t: seq<Channel>, p: nat, q: nat, i: nat, j: nat)
    requires i != j && t == [Channel(i, p, 0, true, 1), Channel(j, q, 0, true, 2)]
    ensures TwoLives(OnConnected(t, Connected(j, q, 7, i), true, 3), p, q, i, j)
  {
    assert t[0].id != j && t[1].id == j;
    assert Find(t, j) == 1;
  }

  lemma {:induction false} StopRemovesOld(t: seq<Channel>, p: nat, q: nat, i: nat, j: nat)
    requires p != q && i != j && TwoLives(t, p, q, i, j)
    ensures !UniqueIds(t) && Sound(OnStopListen(t, p))
  {
    assert t[0].id == t[2].id;
    var k, r := FindListener(t, p), OnStopListen(t, p);
    assert k == 0;
    assert |r| == 2 && r[0] == t[1] && r[1] == t[2];
    PairSound(r);
  }

  lemma {:induction false} PairSound(r: seq<Channel>)
    requires |r| == 2 && r[0].id != r[1].id && !r[0].listening
    ensures Sound(r)
  {
  }
}
