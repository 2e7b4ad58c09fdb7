/** Data paths: the service hears of peers only on listeners that are in the table. */
module ChannelPaths {
  import opened ChannelHandOut
  import opened ChannelService
  import opened ChannelTable
  import opened Seqs

  // ----- The invariant -----

  predicate StopsPsm(n: Note, psm: nat) { n.msg.StopListen? && n.msg.psm == psm }

  predicate IsOf(n: Note, life: nat) { IsCallback(n.msg) && n.life == life }

  ghost predicate NoStop(notes: seq<Note>, psm: nat) {
    forall k :: 0 <= k < |notes| ==> !StopsPsm(notes[k], psm)
  }

  ghost predicate NoneOf(notes: seq<Note>, life: nat) {
    forall k :: 0 <= k < |notes| ==> !IsOf(notes[k], life)
  }

  /** No stop of the PSM is queued behind the message that brings the life. */
  ghost predicate NoStopBehind(queue: seq<Note>, life: nat, psm: nat) {
    forall i, j :: 0 <= i < j < |queue| && Brings(queue[i]) == life ==> !StopsPsm(queue[j], psm)
  }

  /** A listener of the service: no message about it is under way that could take it out of the table, and
      once its data path is connected it is in the table. */
  ghost predicate Secure(s: Sys, id: nat, use: Use) {
    && NoStop(s.command, use.psm) && NoStopBehind(s.queue, use.life, use.psm)
    && NoneOf(s.queue, use.life) && NoneOf(s.flight, use.life)
    && (use.life in s.tool.joined ==>
          NoStop(s.queue, use.psm) && id in Slots(s.tool) && Slots(s.tool)[id] == Slot(use.psm, true, use.life))
  }

  ghost predicate AllSecure(s: Sys) {
    forall id :: id in s.svc.live && s.svc.live[id].listening ==> Secure(s, id, s.svc.live[id])
  }

  ghost predicate QueueKnown(queue: seq<Note>, lives: seq<Life>) {
    forall k :: 0 <= k < |queue| ==> Known(queue[k], lives)
  }

  ghost predicate Paths(s: Sys) {
    && OneUse(s.svc.live) && QueueKnown(s.queue, s.svc.lives)
    && (forall life :: life in s.tool.joined ==> life < |s.svc.lives|)
    && AllSecure(s)
  }

  // ----- Posting -----

  lemma {:induction false} PostPaths(s: Sys, l: Label)
    requires Inv(s) && Paths(s) && Enabled(s, l) && (l.PostCommand? || l.PostCallback?)
    ensures Paths(Apply(s, l))
  {
    var r := Apply(s, l);
    var n := if l.PostCommand? then s.command[0] else s.flight[l.i];
    assert r.queue == s.queue + [n] && Known(n, s.svc.lives);
    if l.PostCallback? {
      WithoutAt(s.flight, l.i);
    }
    forall id | id in s.svc.live && s.svc.live[id].listening ensures Secure(r, id, s.svc.live[id]) {
      assert Secure(s, id, s.svc.live[id]);
      PostSecure(s, r, n, id, s.svc.live[id]);
    }
  }

  lemma {:induction false} PostSecure(s: Sys, r: Sys, n: Note, id: nat, use: Use)
    requires Secure(s, id, use) && r.tool == s.tool && r.queue == s.queue + [n]
    requires !StopsPsm(n, use.psm) && !IsOf(n, use.life)
    requires NoStop(r.command, use.psm) && NoneOf(r.flight, use.life)
    ensures Secure(r, id, use)
  {
  }

  // ----- Service steps -----

  /** Uses that stay: the rest of the state only gets new lives, and messages about others. */
  lemma {:induction false} SecureStays(s: Sys, r: Sys, id: nat, use: Use)
    requires Secure(s, id, use) && r.tool == s.tool && r.queue == s.queue
    requires NoStop(r.command, use.psm) && NoneOf(r.flight, use.life)
    ensures Secure(r, id, use)
  {
  }

  lemma {:induction false} QueueKnownGrows(queue: seq<Note>, lives: seq<Life>, life: Life)
    requires QueueKnown(queue, lives)
    ensures QueueKnown(queue, lives + [life])
  {
  }

  /** A life that is new is named by nothing. */
  lemma {:induction false} NewSecure(s: Sys, r: Sys, id: nat, use: Use)
    requires Inv(s) && Paths(s) && use.life == |s.svc.lives| && r.tool == s.tool && r.queue == s.queue
    requires NoStop(r.command, use.psm) && NoneOf(r.flight, use.life)
    ensures Secure(r, id, use)
  {
    forall k | 0 <= k < |s.queue| ensures !IsOf(s.queue[k], use.life) && Brings(s.queue[k]) != use.life {
      assert Known(s.queue[k], s.svc.lives);
    }
  }

  lemma {:induction false} FlightOld(s: Sys, life: nat)
    requires Inv(s) && life >= |s.svc.lives|
    ensures NoneOf(s.flight, life)
  {
    NewLife(Ahead(s), s.command, s.flight, s.svc);
  }

  lemma {:induction false} AddPaths(s: Sys, l: Label)
    requires Inv(s) && Paths(s) && Enabled(s, l) && (l.Listen? || l.Connect?)
    ensures Paths(Apply(s, l))
  {
    var r := Apply(s, l);
    QueueKnownGrows(s.queue, s.svc.lives, r.svc.lives[|s.svc.lives|]);
    assert r.svc.lives == s.svc.lives + [r.svc.lives[|s.svc.lives|]];
    DirectUses(s, l);
    FlightOld(s, |s.svc.lives|);
    forall id | id in r.svc.live && r.svc.live[id].listening ensures Secure(r, id, r.svc.live[id]) {
      if id == l.id {
        NewSecure(s, r, id, r.svc.live[id]);
      } else {
        assert Secure(s, id, s.svc.live[id]);
        SecureStays(s, r, id, s.svc.live[id]);
      }
    }
  }

  lemma {:induction false} AcceptPaths(s: Sys, l: Label)
    requires Inv(s) && Paths(s) && Enabled(s, l) && l.Accept?
    ensures Paths(Apply(s, l))
  {
    var r, m := Apply(s, l), AcceptNote(s.svc, l.id, l.cid, l.next);
    QueueKnownGrows(s.queue, s.svc.lives, Life(l.next, s.svc.live[l.id].psm, true));
    DirectUses(s, l);
    FlightOld(s, |s.svc.lives|);
    assert r.flight == s.flight + [m];
    assert UseKnown(l.id, s.svc.live[l.id], s.svc.lives) && Secure(s, l.id, s.svc.live[l.id]);
    forall id | id in r.svc.live && r.svc.live[id].listening ensures Secure(r, id, r.svc.live[id]) {
      if id == l.next {
        NewSecure(s, r, id, r.svc.live[id]);
      } else {
        assert Secure(s, id, s.svc.live[id]) && UseKnown(id, s.svc.live[id], s.svc.lives);
        SecureStays(s, r, id, s.svc.live[id]);
      }
    }
  }

  lemma {:induction false} OtherPaths(s: Sys, l: Label)
    requires Inv(s) && Paths(s) && Enabled(s, l) && (l.Stop? || l.Lapse? || l.Up? || l.Down? || l.Drop?)
    ensures Paths(Apply(s, l))
  {
    var r := Apply(s, l);
    forall id | id in r.svc.live && r.svc.live[id].listening ensures Secure(r, id, r.svc.live[id]) {
      OtherSecure(s, l, id);
    }
    assert OneUse(r.svc.live);
  }

  lemma {:induction false} OtherSecure(s: Sys, l: Label, id: nat)
    requires Inv(s) && Paths(s) && Enabled(s, l) && (l.Stop? || l.Lapse? || l.Up? || l.Down? || l.Drop?)
    requires var live := Apply(s, l).svc.live; id in live && live[id].listening
    ensures Secure(Apply(s, l), id, Apply(s, l).svc.live[id])
  {
    var use, r := s.svc.live[id], Apply(s, l);
    assert id != l.id && r.svc.live[id] == use;
    assert Secure(s, id, use);
    if l.Stop? {
      StopIsOther(s, l.id, id);
    } else if l.Up? || l.Down? {
      var n := r.flight[|s.flight|];
      OtherLife(s, l.id, id);
      NoneOfAppend(s.flight, n, use.life);
    }
    SecureStays(s, r, id, use);
  }

  lemma {:induction false} StopIsOther(s: Sys, stopped: nat, id: nat)
    requires OneUse(s.svc.live) && Listens(s, stopped) && Listens(s, id) && id != stopped
    ensures NoStop([Note(StopListen(s.svc.live[stopped].psm), 0, 0)], s.svc.live[id].psm)
  {
    assert !SamePsm(s.svc.live[id], s.svc.live[stopped]);
  }

  lemma {:induction false} OtherLife(s: Sys, x: nat, y: nat)
    requires Inv(s) && x in s.svc.live && y in s.svc.live && x != y
    ensures s.svc.live[x].life != s.svc.live[y].life
  {
    assert UseKnown(x, s.svc.live[x], s.svc.lives) && UseKnown(y, s.svc.live[y], s.svc.lives);
  }

  lemma {:induction false} NoneOfAppend(notes: seq<Note>, n: Note, life: nat)
    requires NoneOf(notes, life) && !IsOf(n, life)
    ensures NoneOf(notes + [n], life)
  {
  }

  // ----- Processing -----

  /** A message about something else leaves a listener of the table alone. */
  lemma {:induction false} SlotStays(t: Tool, n: Note, readOk: bool, pipe: nat, id: nat)
    requires Good(t) && StepOk(Slots(t), n) && id in Slots(t) && Slots(t)[id].listening
    requires !IsOf(n, Slots(t)[id].life) && !StopsPsm(n, Slots(t)[id].psm)
    ensures var u := Slots(Handle(t, n, readOk, pipe)); id in u && u[id] == Slots(t)[id]
  {
    var m := n.msg;
    if m.StopListen? {
      StopSlots(t, n, readOk, pipe);
    } else {
      SlotsHas(t.table, t.owner, m.id);
      if m.Add? {
        if pipe != 0 {
          AddSlots(t, n, pipe);
        }
      } else if Find(t.table, m.id) < |t.table| {
        if m.Disconnected? || !readOk || m.listenId < 0 {
          RemoveSlots(t, n, readOk, pipe);
        } else {
          SlotsHas(t.table, t.owner, m.listenId);
          AcceptSlots(t, n, pipe);
        }
      }
    }
  }

  /** A message whose life has just been joined has brought it. */
  lemma {:induction false} SlotComes(t: Tool, n: Note, readOk: bool, pipe: nat, life: nat)
    requires Good(t) && StepOk(Slots(t), n) && life !in t.joined && life in Handle(t, n, readOk, pipe).joined
    ensures Brings(n) == life && Slots(Handle(t, n, readOk, pipe)) == Step(Slots(t), n)
    ensures IsAccept(n.msg) ==> n.msg.id in Slots(t)
  {
    SlotsHas(t.table, t.owner, n.msg.id);
    if n.msg.Add? {
      AddSlots(t, n, pipe);
    } else {
      SlotsHas(t.table, t.owner, n.msg.listenId);
      AcceptSlots(t, n, pipe);
    }
  }

  lemma {:induction false} TailSecure(queue: seq<Note>, use: Use)
    requires queue != [] && NoStopBehind(queue, use.life, use.psm) && NoneOf(queue, use.life)
    ensures NoStopBehind(queue[1..], use.life, use.psm) && NoneOf(queue[1..], use.life)
    ensures Brings(queue[0]) == use.life || NoStop(queue, use.psm) ==> NoStop(queue[1..], use.psm)
  {
    var rest := queue[1..];
    assert forall i :: 0 <= i < |rest| ==> rest[i] == queue[i + 1];
  }

  lemma {:induction false} RunSecure(s: Sys, readOk: bool, pipe: nat, id: nat)
    requires Inv(s) && Paths(s) && s.queue != [] && Listens(s, id)
    ensures Secure(Apply(s, Run(readOk, pipe)), id, s.svc.live[id])
  {
    var n, use, r := s.queue[0], s.svc.live[id], Apply(s, Run(readOk, pipe));
    assert Secure(s, id, use);
    TailSecure(s.queue, use);
    if use.life in s.tool.joined {
      SlotStays(s.tool, n, readOk, pipe, id);
    } else if use.life in r.tool.joined {
      SlotComes(s.tool, n, readOk, pipe, use.life);
      assert Known(n, s.svc.lives) && UseKnown(id, use, s.svc.lives);
    }
  }

  lemma {:induction false} RunPaths(s: Sys, readOk: bool, pipe: nat)
    requires Inv(s) && Paths(s) && s.queue != []
    ensures Paths(Apply(s, Run(readOk, pipe)))
  {
    var n, r := s.queue[0], Apply(s, Run(readOk, pipe));
    assert Known(n, s.svc.lives);
    assert forall k :: 0 <= k < |r.queue| ==> r.queue[k] == s.queue[k + 1];
    forall id | id in r.svc.live && r.svc.live[id].listening ensures Secure(r, id, r.svc.live[id]) {
      RunSecure(s, readOk, pipe, id);
    }
  }

  // ----- Every run -----

  lemma {:induction false} StepPaths(s: Sys, l: Label)
    requires Inv(s) && Paths(s) && Enabled(s, l)
    ensures Paths(Apply(s, l))
  {
    if l.Run? {
      RunPaths(s, l.readOk, l.pipe);
    } else if l.PostCommand? || l.PostCallback? {
      PostPaths(s, l);
    } else if l.Accept? {
      AcceptPaths(s, l);
    } else if l.Listen? || l.Connect? {
      AddPaths(s, l);
    } else {
      OtherPaths(s, l);
    }
  }

  lemma {:induction false} RunKeepsPaths(s: Sys, ls: seq<Label>)
    requires Inv(s) && Paths(s) && ValidRun(s, ls) && ReadyRun(s, ls)
    ensures Paths(Final(s, ls))
    decreases |ls|
  {
    if ls == [] {
    } else {
      StepPaths(s, ls[0]);
      StepInv(s, ls[0]);
      RunKeepsPaths(Apply(s, ls[0]), ls[1..]);
    }
  }

  lemma {:induction false} ReachedPaths(s: Sys)
    requires Reached(s)
    ensures Paths(s)
  {
    var ls :| ValidRun(EMPTY, ls) && ReadyRun(EMPTY, ls) && s == Final(EMPTY, ls);
    EmptyInv();
    RunKeepsPaths(EMPTY, ls);
  }

  lemma {:induction false} SecureAhead(u: map<nat, Slot>, queue: seq<Note>, id: nat, slot: Slot)
    requires AllOk(u, queue) && id in u && u[id] == slot && slot.listening
    requires NoStop(queue, slot.psm) && NoneOf(queue, slot.life)
    ensures id in After(u, queue) && After(u, queue)[id] == slot
    decreases |queue|
  {
    if queue == [] {
    } else {
      var rest := queue[1..];
      assert forall k :: 0 <= k < |rest| ==> rest[k] == queue[k + 1];
      assert !StopsPsm(queue[0], slot.psm) && !IsOf(queue[0], slot.life);
      SecureAhead(Step(u, queue[0]), rest, id, slot);
    }
  }

  /** A listener on which a peer can connect is in the tool's table, with its PSM and its life, and is so
      still when everything queued is processed: the accept finds it. */
  lemma {:induction false} AcceptedIsListed(s: Sys, l: Label)
    requires Reached(s) && Enabled(s, l) && l.Accept?
    ensures var use := s.svc.live[l.id];
            && l.id in Slots(s.tool) && Slots(s.tool)[l.id] == Slot(use.psm, true, use.life)
            && l.id in Ahead(s) && Ahead(s)[l.id] == Slot(use.psm, true, use.life)
            && l.id in Coming(s)
  {
    ReachedInv(s);
    ReachedPaths(s);
    var use := s.svc.live[l.id];
    assert Secure(s, l.id, use);
    SecureAhead(Slots(s.tool), s.queue, l.id, Slot(use.psm, true, use.life));
    SettleKeys(WithCommand(Ahead(s), s.command), s.flight);
  }

  // ----- From the service to the table -----

  predicate Quiet(s: Sys) { s.queue == [] && s.command == [] && s.flight == [] }

  /** A callback made with nothing else under way is posted and processed. */
  function Through(s: Sys, l: Label, pipe: nat): Sys
    requires Quiet(s) && Enabled(s, l) && (l.Accept? || l.Up? || l.Down?)
  {
    Apply(Apply(Apply(s, l), PostCallback(0)), Run(true, pipe))
  }

  lemma {:induction false} ThroughTable(s: Sys, l: Label, pipe: nat)
    requires Quiet(s) && Enabled(s, l) && (l.Accept? || l.Up? || l.Down?)
    ensures Through(s, l, pipe).tool.table == Process(s.tool.table, Apply(s, l).flight[0].msg, true, pipe)
  {
    var r := Apply(s, l);
    assert r.flight == [r.flight[0]] && r.queue == [];
    assert Apply(r, PostCallback(0)).queue == [r.flight[0]];
  }

  /** A peer's connection arrives: the listener becomes the accepted channel, with its cid, and the
      replacement with the listener's PSM comes last; no other channel changes. */
  lemma {:induction false} AcceptArrives(s: Sys, l: Label, pipe: nat) returns (k: nat)
    requires Reached(s) && Quiet(s) && Enabled(s, l) && l.Accept? && pipe != 0
    ensures k < |s.tool.table| && s.tool.table[k].id == l.id
    ensures var t, psm := s.tool.table, s.svc.live[l.id].psm;
            Through(s, l, pipe).tool.table ==
            t[k := Channel(l.id, psm, l.cid, false, t[k].pipe)] + [Channel(l.next, psm, 0, true, pipe)]
  {
    AcceptedIsListed(s, l);
    ReachedInv(s);
    var t := s.tool.table;
    SlotsHas(t, s.tool.owner, l.id);
    k := Find(t, l.id);
    SlotsAt(t, s.tool.owner, k);
    ThroughTable(s, l, pipe);
  }

  /** A client's connection arrives as its cid in its channel, and nothing else changes. */
  lemma {:induction false} ConnectionArrives(s: Sys, l: Label, pipe: nat, k: nat)
    requires Quiet(s) && Enabled(s, l) && l.Up? && FirstWithId(s.tool.table, k, l.id)
    ensures Through(s, l, pipe).tool.table == s.tool.table[k := s.tool.table[k].(cid := l.cid)]
  {
    ThroughTable(s, l, pipe);
    assert Find(s.tool.table, l.id) == k;
  }

  /** A disconnection arrives as the end of its channel, and nothing else changes. */
  lemma {:induction false} DisconnectionArrives(s: Sys, l: Label, pipe: nat, k: nat)
    requires Quiet(s) && Enabled(s, l) && l.Down? && FirstWithId(s.tool.table, k, l.id)
    ensures Through(s, l, pipe).tool.table == s.tool.table[..k] + s.tool.table[k + 1..]
    ensures l.id !in Through(s, l, pipe).svc.live
  {
    ThroughTable(s, l, pipe);
    assert Find(s.tool.table, l.id) == k;
  }
}
