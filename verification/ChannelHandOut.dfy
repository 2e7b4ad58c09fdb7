/** When the service may hand out an id, and what every run that keeps to it preserves. */
module ChannelHandOut {
  import opened ChannelService
  import opened ChannelTable
  import opened Seqs

  // ----- The condition -----

  /** The first accept that finds the listener it is about, else the length. */
  function FirstLive(u: map<nat, Slot>, notes: seq<Note>): (k: nat)
    ensures k <= |notes|
    ensures k < |notes| ==> IsAccept(notes[k].msg) && notes[k].msg.id in u
    ensures forall i :: 0 <= i < k ==> !(IsAccept(notes[i].msg) && notes[i].msg.id in u)
  {
    if notes == [] || (IsAccept(notes[0].msg) && notes[0].msg.id in u) then 0
    else
      var k := FirstLive(u, notes[1..]);
      assert forall i :: 0 < i < k + 1 ==> notes[i] == notes[1..][i - 1];
      k + 1
  }

  /** Every accept that can still take effect takes effect; nothing is removed. */
  function Settle(u: map<nat, Slot>, notes: seq<Note>): map<nat, Slot>
    decreases |notes|
  {
    var k := FirstLive(u, notes);
    if k == |notes| then u else Settle(Step(u, notes[k]), Without(notes, k))
  }

  /** What the table will have when the queue is processed. */
  function Ahead(s: Sys): map<nat, Slot> { After(Slots(s.tool), s.queue) }

  function WithCommand(u: map<nat, Slot>, command: seq<Note>): map<nat, Slot> {
    if command != [] && command[0].msg.Add? then Step(u, command[0]) else u
  }

  /** All ids that can still come to be in the table by what is under way. */
  function Coming(s: Sys): map<nat, Slot> { Settle(WithCommand(Ahead(s), s.command), s.flight) }

  predicate IsAbout(n: Note, id: nat) { IsCallback(n.msg) && n.msg.id == id }

  predicate NoneAbout(notes: seq<Note>, id: nat) {
    forall k :: 0 <= k < |notes| ==> !IsAbout(notes[k], id)
  }

  /** The condition on what the service hands out: nothing under way can bring the id's old life into the
      table, no callback about the old life is in flight, and a new listener finds its PSM free when the
      queue is processed. */
  ghost predicate Ready(s: Sys, l: Label)
  {
    match l
    case Listen(p, id) => id !in Coming(s) && NoneAbout(s.flight, id) && !HasServer(Ahead(s), p)
    case Connect(_, id) => id !in Coming(s) && NoneAbout(s.flight, id)
    case Accept(_, _, next) => next !in Coming(s) && NoneAbout(s.flight, next)
    case _ => true
  }

  // ----- Settling -----

  /** `lives` says for each id which life it can have. */
  ghost predicate Agrees(lives: map<nat, nat>, u: map<nat, Slot>) {
    forall x :: x in u ==> x in lives && lives[x] == u[x].life
  }

  ghost predicate Closed(lives: map<nat, nat>, n: Note) {
    IsCallback(n.msg) && n.msg.id in lives ==>
      lives[n.msg.id] == n.life &&
      (IsAccept(n.msg) ==> n.msg.listenId in lives && lives[n.msg.listenId] == n.next)
  }

  ghost predicate AllClosed(lives: map<nat, nat>, notes: seq<Note>) {
    forall k :: 0 <= k < |notes| ==> Closed(lives, notes[k])
  }

  lemma {:induction false} SettleAgrees(lives: map<nat, nat>, u: map<nat, Slot>, notes: seq<Note>)
    requires Agrees(lives, u) && AllClosed(lives, notes)
    ensures Agrees(lives, Settle(u, notes))
    decreases |notes|
  {
    var k := FirstLive(u, notes);
    if k == |notes| {
    } else {
      assert Closed(lives, notes[k]);
      WithoutAt(notes, k);
      SettleAgrees(lives, Step(u, notes[k]), Without(notes, k));
    }
  }

  ghost predicate Followed(u: map<nat, Slot>, n: Note) {
    IsAccept(n.msg) && n.msg.id in u ==> n.msg.listenId in u
  }

  /** Settling only adds, and leaves no accept that could still add. */
  lemma {:induction false} SettleKeys(u: map<nat, Slot>, notes: seq<Note>)
    ensures forall x :: x in u ==> x in Settle(u, notes)
    ensures forall i :: 0 <= i < |notes| ==> Followed(Settle(u, notes), notes[i])
    decreases |notes|
  {
    var k := FirstLive(u, notes);
    if k == |notes| {
    } else {
      var v, rest := Step(u, notes[k]), Without(notes, k);
      SettleKeys(v, rest);
      forall i | 0 <= i < |notes| ensures Followed(Settle(v, rest), notes[i]) {
        if i != k {
          assert rest[if i < k then i else i - 1] == notes[i];
        }
      }
    }
  }

  // ----- The invariant -----

  /** The message speaks of the lives it names. */
  predicate Known(n: Note, lives: seq<Life>) {
    match n.msg
    case Add(id, psm, listening) => n.life < |lives| && lives[n.life] == Life(id, psm, listening)
    case Connected(id, psm, _, listenId) =>
      && n.life < |lives| && lives[n.life].id == id
      && (listenId >= 0 ==>
            && lives[n.life] == Life(id, psm, true)
            && n.next < |lives| && lives[n.next] == Life(listenId, psm, true))
    case Disconnected(id) => n.life < |lives| && lives[n.life].id == id
    case StopListen(_) => true
  }

  predicate SlotKnown(id: nat, slot: Slot, lives: seq<Life>) {
    && slot.life < |lives| && lives[slot.life].id == id && lives[slot.life].psm == slot.psm
    && (slot.listening ==> lives[slot.life].server)
  }

  predicate UseKnown(id: nat, use: Use, lives: seq<Life>) {
    && use.life < |lives| && lives[use.life].id == id && lives[use.life].psm == use.psm
    && (use.listening ==> lives[use.life].server)
  }

  ghost predicate AllKnown(t: map<nat, Slot>, command: seq<Note>, flight: seq<Note>, svc: Service) {
    && (forall x :: x in t ==> SlotKnown(x, t[x], svc.lives))
    && (forall x :: x in svc.live ==> UseKnown(x, svc.live[x], svc.lives))
    && (forall k :: 0 <= k < |command| ==> Known(command[k], svc.lives) && !IsCallback(command[k].msg))
    && (forall k :: 0 <= k < |flight| ==> Known(flight[k], svc.lives) && IsCallback(flight[k].msg))
  }

  /** Whatever the order, each id can have one life only: the service's, if it is in use. */
  ghost predicate Covers(lives: map<nat, nat>, t: map<nat, Slot>, command: seq<Note>, flight: seq<Note>,
                         live: map<nat, Use>) {
    && Agrees(lives, t)
    && (forall k :: 0 <= k < |command| && command[k].msg.Add? ==>
          command[k].msg.id in lives && lives[command[k].msg.id] == command[k].life)
    && AllClosed(lives, flight)
    && (forall x :: x in live && x in lives ==> lives[x] == live[x].life)
  }

  ghost predicate Covered(t: map<nat, Slot>, command: seq<Note>, flight: seq<Note>, live: map<nat, Use>) {
    exists lives :: Covers(lives, t, command, flight, live)
  }

  /** The life that a message brings into the table, or -1. */
  function Brings(n: Note): int {
    if n.msg.Add? then n.life else if IsAccept(n.msg) then n.next else -1
  }

  ghost predicate NotThere(t: map<nat, Slot>, notes: seq<Note>) {
    forall k, x :: 0 <= k < |notes| && x in t ==> t[x].life != Brings(notes[k])
  }

  ghost predicate BringDifferent(a: seq<Note>, b: seq<Note>) {
    forall i, j :: 0 <= i < |a| && 0 <= j < |b| ==> Brings(a[i]) == -1 || Brings(a[i]) != Brings(b[j])
  }

  ghost predicate BringDistinct(a: seq<Note>) {
    forall i, j :: 0 <= i < j < |a| ==> Brings(a[i]) == -1 || Brings(a[i]) != Brings(a[j])
  }

  /** Each life is brought once. */
  ghost predicate Fresh(t: map<nat, Slot>, command: seq<Note>, flight: seq<Note>) {
    && NotThere(t, command) && NotThere(t, flight)
    && BringDifferent(command, flight) && BringDistinct(flight)
  }

  predicate AcceptsLife(n: Note, life: nat) { IsAccept(n.msg) && n.life == life }

  /** A listener with an accept in flight, or one that the service listens on, is still a listener, and it
      is accepted on once. */
  ghost predicate Awaits(t: map<nat, Slot>, flight: seq<Note>, live: map<nat, Use>) {
    && (forall k, x :: 0 <= k < |flight| && x in t && AcceptsLife(flight[k], t[x].life) ==> t[x].listening)
    && (forall y, x :: y in live && x in t && live[y].listening && t[x].life == live[y].life ==> t[x].listening)
    && (forall i, j :: 0 <= i < j < |flight| && IsAccept(flight[i].msg) ==> !AcceptsLife(flight[j], flight[i].life))
    && (forall k, y :: 0 <= k < |flight| && y in live && live[y].listening ==> !AcceptsLife(flight[k], live[y].life))
  }

  ghost predicate CommandFits(t: map<nat, Slot>, command: seq<Note>) {
    && |command| <= 1
    && forall k :: 0 <= k < |command| && command[k].msg.Add? && command[k].msg.listening ==>
         !HasServer(t, command[k].msg.psm)
  }

  ghost predicate Outlook(t: map<nat, Slot>, command: seq<Note>, flight: seq<Note>, svc: Service) {
    && AllKnown(t, command, flight, svc) && Covered(t, command, flight, svc.live)
    && Fresh(t, command, flight) && Awaits(t, flight, svc.live) && CommandFits(t, command)
  }

  ghost predicate Inv(s: Sys) {
    Good(s.tool) && AllOk(Slots(s.tool), s.queue) && Outlook(Ahead(s), s.command, s.flight, s.svc)
  }

  // ----- Losing channels -----

  lemma {:induction false} SubOutlook(v: map<nat, Slot>, t: map<nat, Slot>, command: seq<Note>, flight: seq<Note>,
                                      svc: Service)
    requires Sub(v, t) && Outlook(t, command, flight, svc)
    ensures Outlook(v, command, flight, svc)
  {
    var lives :| Covers(lives, t, command, flight, svc.live);
    assert Covers(lives, v, command, flight, svc.live);
    forall k | 0 <= k < |command| && command[k].msg.Add? && command[k].msg.listening
      ensures !HasServer(v, command[k].msg.psm)
    {
      SubServer(v, t, command[k].msg.psm);
    }
  }

  lemma {:induction false} SubServer(v: map<nat, Slot>, t: map<nat, Slot>, psm: nat)
    requires Sub(v, t) && !HasServer(t, psm)
    ensures !HasServer(v, psm)
  {
  }

  // ----- Posting the command -----

  lemma {:induction false} CommandOk(t: map<nat, Slot>, c: Note, flight: seq<Note>, svc: Service)
    requires Outlook(t, [c], flight, svc)
    ensures StepOk(t, c)
  {
    var lives :| Covers(lives, t, [c], flight, svc.live);
    assert [c][0] == c;
    assert c.msg.Add? ==> lives[c.msg.id] == Brings(c);
  }

  lemma {:induction false} CommandCovered(t: map<nat, Slot>, c: Note, flight: seq<Note>, svc: Service)
    requires Outlook(t, [c], flight, svc)
    ensures Covered(Step(t, c), [], flight, svc.live)
  {
    var lives :| Covers(lives, t, [c], flight, svc.live);
    assert [c][0] == c;
    assert Covers(lives, Step(t, c), [], flight, svc.live);
  }

  lemma {:induction false} CommandKnown(t: map<nat, Slot>, c: Note, flight: seq<Note>, svc: Service)
    requires AllKnown(t, [c], flight, svc)
    ensures AllKnown(Step(t, c), [], flight, svc)
  {
    assert [c][0] == c && Known(c, svc.lives);
  }

  lemma {:induction false} CommandAwaits(t: map<nat, Slot>, c: Note, flight: seq<Note>, svc: Service)
    requires AllKnown(t, [c], flight, svc) && Awaits(t, flight, svc.live)
    ensures Awaits(Step(t, c), flight, svc.live)
  {
    assert [c][0] == c && Known(c, svc.lives);
  }

  lemma {:induction false} PostCommandOutlook(t: map<nat, Slot>, c: Note, flight: seq<Note>, svc: Service)
    requires Outlook(t, [c], flight, svc)
    ensures StepOk(t, c) && Outlook(Step(t, c), [], flight, svc)
  {
    CommandOk(t, c, flight, svc);
    CommandCovered(t, c, flight, svc);
    CommandKnown(t, c, flight, svc);
    CommandAwaits(t, c, flight, svc);
    assert [c][0] == c;
  }

  // ----- Posting a callback -----

  lemma {:induction false} CallbackOk(t: map<nat, Slot>, command: seq<Note>, flight: seq<Note>, svc: Service, i: nat)
    requires Outlook(t, command, flight, svc) && i < |flight|
    ensures StepOk(t, flight[i])
  {
    var n := flight[i];
    var lives :| Covers(lives, t, command, flight, svc.live);
    assert Closed(lives, n) && Known(n, svc.lives);
    if n.msg.id in t {
      assert SlotKnown(n.msg.id, t[n.msg.id], svc.lives);
      if IsAccept(n.msg) {
        assert AcceptsLife(n, t[n.msg.id].life);
        assert lives[n.msg.listenId] == Brings(n);
      }
    }
  }

  lemma {:induction false} CallbackCovered(t: map<nat, Slot>, command: seq<Note>, flight: seq<Note>, svc: Service,
                                           i: nat)
    requires Outlook(t, command, flight, svc) && i < |flight|
    ensures Covered(Step(t, flight[i]), command, Without(flight, i), svc.live)
  {
    var lives :| Covers(lives, t, command, flight, svc.live);
    assert Closed(lives, flight[i]);
    WithoutAt(flight, i);
    assert Covers(lives, Step(t, flight[i]), command, Without(flight, i), svc.live);
  }

  lemma {:induction false} CallbackFresh(t: map<nat, Slot>, command: seq<Note>, flight: seq<Note>, i: nat)
    requires Fresh(t, command, flight) && i < |flight| && IsCallback(flight[i].msg)
    ensures Fresh(Step(t, flight[i]), command, Without(flight, i))
  {
    var n, v, rest := flight[i], Step(t, flight[i]), Without(flight, i);
    WithoutAt(flight, i);
    forall k, x | 0 <= k < |rest| && x in v ensures v[x].life != Brings(rest[k]) {
      assert rest[k] == flight[Skip(k, i)];
      assert v[x].life == Brings(n) || (x in t && v[x].life == t[x].life);
    }
    forall k, x | 0 <= k < |command| && x in v ensures v[x].life != Brings(command[k]) {
      assert v[x].life == Brings(n) || (x in t && v[x].life == t[x].life);
    }
  }

  lemma {:induction false} CallbackAwaits(t: map<nat, Slot>, flight: seq<Note>, live: map<nat, Use>, i: nat)
    requires Awaits(t, flight, live) && i < |flight| && IsCallback(flight[i].msg) && StepOk(t, flight[i])
    ensures Awaits(Step(t, flight[i]), Without(flight, i), live)
  {
    var n, v, rest := flight[i], Step(t, flight[i]), Without(flight, i);
    WithoutAt(flight, i);
    forall k, x | 0 <= k < |rest| && x in v && AcceptsLife(rest[k], v[x].life) ensures v[x].listening {
      assert rest[k] == flight[Skip(k, i)];
    }
  }

  lemma {:induction false} CallbackKnown(t: map<nat, Slot>, command: seq<Note>, flight: seq<Note>, svc: Service,
                                         i: nat)
    requires AllKnown(t, command, flight, svc) && i < |flight|
    ensures AllKnown(Step(t, flight[i]), command, Without(flight, i), svc)
  {
    WithoutAt(flight, i);
    assert Known(flight[i], svc.lives) && IsCallback(flight[i].msg);
  }

  lemma {:induction false} CallbackServer(t: map<nat, Slot>, n: Note, psm: nat)
    requires IsCallback(n.msg) && StepOk(t, n) && !HasServer(t, psm)
    ensures !HasServer(Step(t, n), psm)
  {
  }

  lemma {:induction false} PostCallbackOutlook(t: map<nat, Slot>, command: seq<Note>, flight: seq<Note>,
                                               svc: Service, i: nat)
    requires Outlook(t, command, flight, svc) && i < |flight|
    ensures StepOk(t, flight[i]) && Outlook(Step(t, flight[i]), command, Without(flight, i), svc)
  {
    CallbackOk(t, command, flight, svc, i);
    CallbackCovered(t, command, flight, svc, i);
    CallbackFresh(t, command, flight, i);
    CallbackAwaits(t, flight, svc.live, i);
    CallbackKnown(t, command, flight, svc, i);
    forall k | 0 <= k < |command| && command[k].msg.Add? && command[k].msg.listening
      ensures !HasServer(Step(t, flight[i]), command[k].msg.psm)
    {
      CallbackServer(t, flight[i], command[k].msg.psm);
    }
  }

  // ----- Handing out an id -----

  function LifeMap(u: map<nat, Slot>): map<nat, nat> { map x | x in u :: u[x].life }

  /** What settling gives is the least choice of lives. */
  lemma {:induction false} LeastCover(t: map<nat, Slot>, command: seq<Note>, flight: seq<Note>, svc: Service)
    requires Outlook(t, command, flight, svc)
    ensures Covers(LifeMap(Settle(WithCommand(t, command), flight)), t, command, flight, svc.live)
  {
    var lives :| Covers(lives, t, command, flight, svc.live);
    var u := WithCommand(t, command);
    var w := Settle(u, flight);
    assert Agrees(lives, u);
    SettleAgrees(lives, u, flight);
    SettleKeys(u, flight);
    forall k | 0 <= k < |flight| ensures Closed(LifeMap(w), flight[k]) {
      assert Closed(lives, flight[k]) && Followed(w, flight[k]);
    }
    assert |command| > 0 ==> command[0] in command;
  }

  lemma {:induction false} KnownGrows(t: map<nat, Slot>, command: seq<Note>, flight: seq<Note>, svc: Service,
                                      life: Life)
    requires AllKnown(t, command, flight, svc)
    ensures AllKnown(t, command, flight, svc.(lives := svc.lives + [life]))
  {
  }

  /** Lives that are known are not new. */
  lemma {:induction false} NewLife(t: map<nat, Slot>, command: seq<Note>, flight: seq<Note>, svc: Service)
    requires AllKnown(t, command, flight, svc)
    ensures forall x :: x in t ==> t[x].life < |svc.lives|
    ensures forall x :: x in svc.live ==> svc.live[x].life < |svc.lives|
    ensures forall k :: 0 <= k < |flight| ==> flight[k].life < |svc.lives| && Brings(flight[k]) < |svc.lives|
    ensures forall k :: 0 <= k < |command| ==> Brings(command[k]) < |svc.lives|
  {
    forall x | x in t ensures t[x].life < |svc.lives| {
      assert SlotKnown(x, t[x], svc.lives);
    }
    forall x | x in svc.live ensures svc.live[x].life < |svc.lives| {
      assert UseKnown(x, svc.live[x], svc.lives);
    }
    forall k | 0 <= k < |flight| ensures flight[k].life < |svc.lives| && Brings(flight[k]) < |svc.lives| {
      assert Known(flight[k], svc.lives);
    }
    forall k | 0 <= k < |command| ensures Brings(command[k]) < |svc.lives| {
      assert Known(command[k], svc.lives);
    }
  }

  lemma {:induction false} AddCovered(t: map<nat, Slot>, flight: seq<Note>, svc: Service, id: nat, psm: nat, l: bool)
    requires Outlook(t, [], flight, svc)
    requires id !in Settle(t, flight) && NoneAbout(flight, id)
    ensures Covered(t, [AddNote(svc, id, psm, l)], flight, HandOut(svc, id, psm, l).live)
  {
    LeastCover(t, [], flight, svc);
    var lives := LifeMap(Settle(t, flight));
    var more := lives[id := |svc.lives|];
    forall k | 0 <= k < |flight| ensures Closed(more, flight[k]) {
      assert Closed(lives, flight[k]) && !IsAbout(flight[k], id);
    }
    assert Covers(more, t, [AddNote(svc, id, psm, l)], flight, HandOut(svc, id, psm, l).live);
  }

  lemma {:induction false} AddOutlook(t: map<nat, Slot>, flight: seq<Note>, svc: Service, id: nat, psm: nat, l: bool)
    requires Outlook(t, [], flight, svc)
    requires id !in Settle(t, flight) && NoneAbout(flight, id) && (l ==> !HasServer(t, psm))
    ensures Outlook(t, [AddNote(svc, id, psm, l)], flight, HandOut(svc, id, psm, l))
  {
    AddCovered(t, flight, svc, id, psm, l);
    AddFresh(t, flight, svc, id, psm, l);
    AddAwaits(t, flight, svc, id, psm, l);
  }

  lemma {:induction false} AddFresh(t: map<nat, Slot>, flight: seq<Note>, svc: Service, id: nat, psm: nat, l: bool)
    requires AllKnown(t, [], flight, svc) && Fresh(t, [], flight)
    ensures Fresh(t, [AddNote(svc, id, psm, l)], flight)
    ensures AllKnown(t, [AddNote(svc, id, psm, l)], flight, HandOut(svc, id, psm, l))
  {
    NewLife(t, [], flight, svc);
    KnownGrows(t, [], flight, svc, Life(id, psm, l));
  }

  lemma {:induction false} AddAwaits(t: map<nat, Slot>, flight: seq<Note>, svc: Service, id: nat, psm: nat, l: bool)
    requires AllKnown(t, [], flight, svc) && Awaits(t, flight, svc.live)
    ensures Awaits(t, flight, HandOut(svc, id, psm, l).live)
  {
    NewLife(t, [], flight, svc);
  }

  lemma {:induction false} AcceptCovered(t: map<nat, Slot>, command: seq<Note>, flight: seq<Note>, svc: Service,
                                         id: nat, cid: nat, next: nat)
    requires Outlook(t, command, flight, svc) && id in svc.live && next !in svc.live
    requires var w := Settle(WithCommand(t, command), flight);
             next !in w && (id in w ==> NoneAbout(flight, next))
    ensures Covered(t, command, flight + [AcceptNote(svc, id, cid, next)],
                    HandOut(Deafen(svc, id), next, svc.live[id].psm, true).live)
  {
    LeastCover(t, command, flight, svc);
    var lives := LifeMap(Settle(WithCommand(t, command), flight));
    var n, live := AcceptNote(svc, id, cid, next), HandOut(Deafen(svc, id), next, svc.live[id].psm, true).live;
    if id in lives {
      AcceptExtends(lives, flight, n);
      AcceptCovers(lives, t, command, flight, svc.live, n, live);
    } else {
      AcceptSkips(lives, t, command, flight, svc.live, n, live);
    }
  }

  lemma {:induction false} AcceptSkips(lives: map<nat, nat>, t: map<nat, Slot>, command: seq<Note>, flight: seq<Note>,
                                       live: map<nat, Use>, n: Note, more: map<nat, Use>)
    requires Covers(lives, t, command, flight, live) && IsAccept(n.msg)
    requires n.msg.id !in lives && n.msg.listenId !in lives
    requires forall x :: x in more && x != n.msg.listenId ==> x in live && more[x].life == live[x].life
    ensures Covered(t, command, flight + [n], more)
  {
    assert Covers(lives, t, command, flight + [n], more);
  }

  lemma {:induction false} AcceptCovers(lives: map<nat, nat>, t: map<nat, Slot>, command: seq<Note>, flight: seq<Note>,
                                        live: map<nat, Use>, n: Note, more: map<nat, Use>)
    requires Covers(lives, t, command, flight, live) && IsAccept(n.msg) && n.msg.listenId !in lives
    requires AllClosed(lives[n.msg.listenId := n.next], flight + [n])
    requires forall x :: x in more && x != n.msg.listenId ==> x in live && more[x].life == live[x].life
    requires n.msg.listenId in more && more[n.msg.listenId].life == n.next
    ensures Covered(t, command, flight + [n], more)
  {
    assert Covers(lives[n.msg.listenId := n.next], t, command, flight + [n], more);
  }

  lemma {:induction false} AcceptExtends(lives: map<nat, nat>, flight: seq<Note>, n: Note)
    requires AllClosed(lives, flight) && IsAccept(n.msg) && n.msg.id in lives && lives[n.msg.id] == n.life
    requires n.msg.listenId !in lives && NoneAbout(flight, n.msg.listenId)
    ensures AllClosed(lives[n.msg.listenId := n.next], flight + [n])
  {
    forall k | 0 <= k < |flight| ensures Closed(lives[n.msg.listenId := n.next], flight[k]) {
      assert Closed(lives, flight[k]) && !IsAbout(flight[k], n.msg.listenId);
    }
  }

  lemma {:induction false} AcceptAwaits(t: map<nat, Slot>, command: seq<Note>, flight: seq<Note>, svc: Service,
                                        id: nat, cid: nat, next: nat)
    requires Outlook(t, command, flight, svc) && id in svc.live && svc.live[id].listening && next !in svc.live
    ensures Awaits(t, flight + [AcceptNote(svc, id, cid, next)],
                   HandOut(Deafen(svc, id), next, svc.live[id].psm, true).live)
  {
    NewLife(t, command, flight, svc);
    var n, live := AcceptNote(svc, id, cid, next), HandOut(Deafen(svc, id), next, svc.live[id].psm, true).live;
    var more := flight + [n];
    forall k, y | 0 <= k < |more| && y in live && live[y].listening ensures !AcceptsLife(more[k], live[y].life) {
      if y != next {
        assert UseKnown(y, svc.live[y], svc.lives) && UseKnown(id, svc.live[id], svc.lives);
      }
    }
  }

  lemma {:induction false} AcceptOutlook(t: map<nat, Slot>, command: seq<Note>, flight: seq<Note>, svc: Service,
                                         id: nat, cid: nat, next: nat)
    requires Outlook(t, command, flight, svc) && id in svc.live && svc.live[id].listening && next !in svc.live
    requires var w := Settle(WithCommand(t, command), flight);
             next !in w && (id in w ==> NoneAbout(flight, next))
    ensures Outlook(t, command, flight + [AcceptNote(svc, id, cid, next)],
                    HandOut(Deafen(svc, id), next, svc.live[id].psm, true))
  {
    AcceptCovered(t, command, flight, svc, id, cid, next);
    AcceptAwaits(t, command, flight, svc, id, cid, next);
    AcceptFresh(t, command, flight, svc, id, cid, next);
    AcceptKnown(t, command, flight, svc, id, cid, next);
  }

  lemma {:induction false} AcceptFresh(t: map<nat, Slot>, command: seq<Note>, flight: seq<Note>, svc: Service,
                                       id: nat, cid: nat, next: nat)
    requires AllKnown(t, command, flight, svc) && Fresh(t, command, flight) && id in svc.live
    ensures Fresh(t, command, flight + [AcceptNote(svc, id, cid, next)])
  {
    NewLife(t, command, flight, svc);
  }

  lemma {:induction false} AcceptKnown(t: map<nat, Slot>, command: seq<Note>, flight: seq<Note>, svc: Service,
                                       id: nat, cid: nat, next: nat)
    requires AllKnown(t, command, flight, svc) && id in svc.live && svc.live[id].listening && next !in svc.live
    ensures AllKnown(t, command, flight + [AcceptNote(svc, id, cid, next)],
                     HandOut(Deafen(svc, id), next, svc.live[id].psm, true))
  {
    KnownGrows(t, command, flight, svc, Life(next, svc.live[id].psm, true));
    assert UseKnown(id, svc.live[id], svc.lives);
  }

  // ----- The other service steps -----

  /** A callback about a life that is in use and not listening. */
  lemma {:induction false} CallbackMade(t: map<nat, Slot>, command: seq<Note>, flight: seq<Note>, svc: Service,
                                        id: nat, n: Note)
    requires Outlook(t, command, flight, svc) && id in svc.live
    requires IsAbout(n, id) && n.life == svc.live[id].life && !IsAccept(n.msg)
    ensures Outlook(t, command, flight + [n], svc)
  {
    CallbackMadeCovered(t, command, flight, svc.live, id, n);
    CallbackMadeKnown(t, command, flight, svc, id, n);
    CallbackMadeFresh(t, command, flight, n);
  }

  lemma {:induction false} CallbackMadeFresh(t: map<nat, Slot>, command: seq<Note>, flight: seq<Note>, n: Note)
    requires Fresh(t, command, flight) && Brings(n) == -1
    ensures Fresh(t, command, flight + [n])
  {
  }

  lemma {:induction false} CallbackMadeCovered(t: map<nat, Slot>, command: seq<Note>, flight: seq<Note>,
                                               live: map<nat, Use>, id: nat, n: Note)
    requires Covered(t, command, flight, live) && id in live
    requires IsAbout(n, id) && n.life == live[id].life && !IsAccept(n.msg)
    ensures Covered(t, command, flight + [n], live)
  {
    var lives :| Covers(lives, t, command, flight, live);
    assert Covers(lives, t, command, flight + [n], live);
  }

  lemma {:induction false} CallbackMadeKnown(t: map<nat, Slot>, command: seq<Note>, flight: seq<Note>, svc: Service,
                                             id: nat, n: Note)
    requires AllKnown(t, command, flight, svc) && id in svc.live && Awaits(t, flight, svc.live)
    requires IsAbout(n, id) && n.life == svc.live[id].life && !IsAccept(n.msg)
    ensures AllKnown(t, command, flight + [n], svc) && Awaits(t, flight + [n], svc.live)
  {
    assert UseKnown(id, svc.live[id], svc.lives);
  }

  /** Ids that are freed or no longer listen ask less of the table. */
  lemma {:induction false} LessUse(t: map<nat, Slot>, command: seq<Note>, flight: seq<Note>, svc: Service,
                                   less: Service)
    requires Outlook(t, command, flight, svc) && less.lives == svc.lives
    requires forall x :: x in less.live ==>
               x in svc.live && (less.live[x] == svc.live[x] || less.live[x] == svc.live[x].(listening := false))
    ensures Outlook(t, command, flight, less)
  {
    var lives :| Covers(lives, t, command, flight, svc.live);
    assert Covers(lives, t, command, flight, less.live);
    forall x | x in less.live ensures UseKnown(x, less.live[x], less.lives) {
      assert UseKnown(x, svc.live[x], svc.lives);
    }
  }

  lemma {:induction false} StopOutlook(t: map<nat, Slot>, flight: seq<Note>, svc: Service, psm: nat)
    requires Outlook(t, [], flight, svc)
    ensures Outlook(t, [Note(StopListen(psm), 0, 0)], flight, svc)
  {
    var lives :| Covers(lives, t, [], flight, svc.live);
    assert Covers(lives, t, [Note(StopListen(psm), 0, 0)], flight, svc.live);
  }

  // ----- Every step keeps it -----

  lemma {:induction false} RunInvStep(s: Sys, readOk: bool, pipe: nat)
    requires Inv(s) && s.queue != []
    ensures Inv(Apply(s, Run(readOk, pipe)))
  {
    var n, u, r := s.queue[0], Slots(s.tool), Apply(s, Run(readOk, pipe));
    HandleSlots(s.tool, n, readOk, pipe);
    SubAfter(Slots(r.tool), Step(u, n), r.queue);
    SubOutlook(Ahead(r), Ahead(s), s.command, s.flight, s.svc);
  }

  lemma {:induction false} PostInv(s: Sys, l: Label)
    requires Inv(s) && Enabled(s, l) && (l.PostCommand? || l.PostCallback?)
    ensures Inv(Apply(s, l))
  {
    var t := Ahead(s);
    if l.PostCommand? {
      assert s.command == [s.command[0]];
      PostCommandOutlook(t, s.command[0], s.flight, s.svc);
      AfterAppend(Slots(s.tool), s.queue, s.command[0]);
    } else {
      PostCallbackOutlook(t, s.command, s.flight, s.svc, l.i);
      AfterAppend(Slots(s.tool), s.queue, s.flight[l.i]);
    }
  }

  lemma {:induction false} ServiceInv(s: Sys, l: Label)
    requires Inv(s) && Enabled(s, l) && (l.Stop? || l.Lapse? || l.Up? || l.Down? || l.Drop?)
    ensures Inv(Apply(s, l))
  {
    var t, r := Ahead(s), Apply(s, l);
    assert Ahead(r) == t;
    match l
    case Stop(id) =>
      StopOutlook(t, s.flight, s.svc, s.svc.live[id].psm);
      LessUse(t, r.command, s.flight, s.svc, r.svc);
    case Lapse(_) => LessUse(t, s.command, s.flight, s.svc, r.svc);
    case Up(id, _) => CallbackMade(t, s.command, s.flight, s.svc, id, r.flight[|s.flight|]);
    case Down(id) =>
      CallbackMade(t, s.command, s.flight, s.svc, id, r.flight[|s.flight|]);
      LessUse(t, s.command, r.flight, s.svc, r.svc);
    case Drop(_) => LessUse(t, s.command, s.flight, s.svc, r.svc);
  }

  lemma {:induction false} HandOutInv(s: Sys, l: Label)
    requires Inv(s) && Enabled(s, l) && Ready(s, l) && (l.Listen? || l.Connect? || l.Accept?)
    ensures Inv(Apply(s, l))
  {
    var t, r := Ahead(s), Apply(s, l);
    assert Ahead(r) == t;
    match l
    case Listen(p, id) => AddOutlook(t, s.flight, s.svc, id, p, true);
    case Connect(p, id) => AddOutlook(t, s.flight, s.svc, id, p, false);
    case Accept(id, cid, next) => AcceptOutlook(t, s.command, s.flight, s.svc, id, cid, next);
  }

  lemma {:induction false} StepInv(s: Sys, l: Label)
    requires Inv(s) && Enabled(s, l) && Ready(s, l)
    ensures Inv(Apply(s, l))
  {
    if l.Run? {
      RunInvStep(s, l.readOk, l.pipe);
    } else if l.PostCommand? || l.PostCallback? {
      PostInv(s, l);
    } else if l.Listen? || l.Connect? || l.Accept? {
      HandOutInv(s, l);
    } else {
      ServiceInv(s, l);
    }
  }

  // ----- Runs whose ids are handed out in time -----

  ghost predicate ReadyRun(s: Sys, ls: seq<Label>)
    requires ValidRun(s, ls)
    decreases |ls|
  {
    ls == [] || (Ready(s, ls[0]) && ReadyRun(Apply(s, ls[0]), ls[1..]))
  }

  lemma {:induction false} RunInv(s: Sys, ls: seq<Label>)
    requires Inv(s) && ValidRun(s, ls) && ReadyRun(s, ls)
    ensures Inv(Final(s, ls)) && GoodThroughout(s, ls)
    decreases |ls|
  {
    if ls == [] {
    } else {
      StepInv(s, ls[0]);
      RunInv(Apply(s, ls[0]), ls[1..]);
    }
  }

  lemma EmptyInv()
    ensures Inv(EMPTY)
  {
    assert Covers(map[], map[], [], [], map[]);
  }

  /** If ids are handed out only when they are ready, then for every interleaving, every order of the
      callbacks, every failing pipe and every reuse the table is sound throughout, no message reaches
      another life of its id, and so every message fits. */
  lemma {:induction false} TableSound(ls: seq<Label>)
    requires ValidRun(EMPTY, ls) && ReadyRun(EMPTY, ls)
    ensures GoodThroughout(EMPTY, ls) && AllFit(EMPTY, ls)
  {
    EmptyInv();
    RunInv(EMPTY, ls);
    SoundIffAllFit(EMPTY, ls);
  }

  /** A state of such a run. */
  ghost predicate Reached(s: Sys) {
    exists ls :: ValidRun(EMPTY, ls) && ReadyRun(EMPTY, ls) && s == Final(EMPTY, ls)
  }

  lemma {:induction false} ReachedInv(s: Sys)
    requires Reached(s)
    ensures Inv(s)
  {
    var ls :| ValidRun(EMPTY, ls) && ReadyRun(EMPTY, ls) && s == Final(EMPTY, ls);
    EmptyInv();
    RunInv(EMPTY, ls);
  }

  // ----- Stopping -----

  /** No listener of the PSM is added by a command of the run. */
  ghost predicate NoListen(s: Sys, ls: seq<Label>, psm: nat)
    requires ValidRun(s, ls)
    decreases |ls|
  {
    ls == [] ||
    ((ls[0].Run? && s.queue[0].msg.Add? && s.queue[0].msg.listening ==> s.queue[0].msg.psm != psm) &&
     NoListen(Apply(s, ls[0]), ls[1..], psm))
  }

  lemma {:induction false} StepServer(u: map<nat, Slot>, n: Note, psm: nat)
    requires StepOk(u, n) && !HasServer(u, psm)
    requires n.msg.Add? && n.msg.listening ==> n.msg.psm != psm
    ensures !HasServer(Step(u, n), psm)
  {
  }

  lemma {:induction false} HandleServer(t: Tool, n: Note, readOk: bool, pipe: nat, psm: nat)
    requires Good(t) && StepOk(Slots(t), n) && !HasListener(t.table, psm)
    requires n.msg.Add? && n.msg.listening ==> n.msg.psm != psm
    ensures !HasListener(Handle(t, n, readOk, pipe).table, psm)
  {
    var r := Handle(t, n, readOk, pipe);
    HandleSlots(t, n, readOk, pipe);
    ServerIff(t, psm);
    ServerIff(r, psm);
    StepServer(Slots(t), n, psm);
    SubServer(Slots(r), Step(Slots(t), n), psm);
  }

  lemma {:induction false} NoListenerStays(s: Sys, ls: seq<Label>, psm: nat)
    requires Inv(s) && ValidRun(s, ls) && ReadyRun(s, ls) && NoListen(s, ls, psm)
    requires !HasListener(s.tool.table, psm)
    ensures !HasListener(Final(s, ls).tool.table, psm)
    decreases |ls|
  {
    if ls == [] {
    } else {
      var l := ls[0];
      if l.Run? {
        HandleServer(s.tool, s.queue[0], l.readOk, l.pipe, psm);
      }
      StepInv(s, l);
      NoListenerStays(Apply(s, l), ls[1..], psm);
    }
  }

  /** A stop-listen message, once processed, leaves the PSM without a listener, and no callback, of
      whatever order or age, brings one back: only a later listen command does. */
  lemma {:induction false} StopIsFinal(s: Sys, more: seq<Label>, pipe: nat)
    requires Reached(s) && s.queue != [] && s.queue[0].msg.StopListen?
    requires var r := Apply(s, Run(true, pipe));
             ValidRun(r, more) && ReadyRun(r, more) && NoListen(r, more, s.queue[0].msg.psm)
    ensures !HasListener(Final(Apply(s, Run(true, pipe)), more).tool.table, s.queue[0].msg.psm)
  {
    ReachedInv(s);
    StepInv(s, Run(true, pipe));
    StopLeavesNone(s.tool.table, s.queue[0].msg.psm);
    NoListenerStays(Apply(s, Run(true, pipe)), more, s.queue[0].msg.psm);
  }

  /** What accepts in flight bring is of a PSM that has a listener. */
  lemma {:induction false} SettleServer(t: map<nat, Slot>, flight: seq<Note>, svc: Service, psm: nat)
    requires Outlook(t, [], flight, svc) && !HasServer(t, psm)
    ensures !HasServer(Settle(t, flight), psm)
    decreases |flight|
  {
    var k := FirstLive(t, flight);
    if k == |flight| {
    } else {
      PostCallbackOutlook(t, [], flight, svc, k);
      CallbackServer(t, flight[k], psm);
      SettleServer(Step(t, flight[k]), Without(flight, k), svc, psm);
    }
  }

  /** What the service listens on is a listener of its PSM, if it comes to the table at all. */
  lemma {:induction false} SettleListens(t: map<nat, Slot>, flight: seq<Note>, svc: Service, id: nat)
    requires Outlook(t, [], flight, svc) && id in svc.live && svc.live[id].listening
    ensures var w := Settle(t, flight);
            id in w ==> w[id] == Slot(svc.live[id].psm, true, svc.live[id].life)
    decreases |flight|
  {
    var k := FirstLive(t, flight);
    if k == |flight| {
      var lives :| Covers(lives, t, [], flight, svc.live);
      assert UseKnown(id, svc.live[id], svc.lives);
      assert id in t ==> SlotKnown(id, t[id], svc.lives);
    } else {
      PostCallbackOutlook(t, [], flight, svc, k);
      SettleListens(Step(t, flight[k]), Without(flight, k), svc, id);
    }
  }

  /** An id reused after its stop is never endangered by that stop: once the stop's message is posted, the
      id is ready for a client unless a callback about a still older life of it is in flight, and for a
      listener if besides its PSM is free. */
  lemma {:induction false} ReusedAfterStop(s: Sys, id: nat, psm: nat)
    requires Reached(s) && Enabled(s, Stop(id))
    ensures var r := Apply(Apply(s, Stop(id)), PostCommand);
            && Enabled(r, Connect(psm, id))
            && (Ready(r, Connect(psm, id)) <==> NoneAbout(s.flight, id))
            && (Ready(r, Listen(psm, id)) <==> NoneAbout(s.flight, id) && !HasServer(Ahead(r), psm))
            && !HasServer(Ahead(r), s.svc.live[id].psm)
  {
    ReachedInv(s);
    var p, t := s.svc.live[id].psm, Ahead(s);
    var n, r := Note(StopListen(p), 0, 0), Apply(Apply(s, Stop(id)), PostCommand);
    assert r.queue == s.queue + [n];
    AfterAppend(Slots(s.tool), s.queue, n);
    SubOutlook(WithoutServer(t, p), t, [], s.flight, s.svc);
    SettleServer(WithoutServer(t, p), s.flight, s.svc, p);
    SettleListens(WithoutServer(t, p), s.flight, s.svc, id);
  }

  // ----- Callbacks posted at once -----

  /** Where the service calls the tool directly, a callback is posted before the service goes on.  Here a
      command, too, is posted before the service's next step. */
  ghost predicate InStep(s: Sys) {
    s.command == [] && s.flight == [] && Matches(Ahead(s), s.svc.live) && OneUse(s.svc.live)
  }

  predicate Direct(l: Label) { l.Listen? || l.Stop? || l.Connect? || l.Accept? || l.Up? || l.Down? || l.Run? }

  /** The step and the post that belongs to it. */
  function Whole(s: Sys, l: Label): Sys
    requires Enabled(s, l) && Direct(l) && s.command == [] && s.flight == []
  {
    var r := Apply(s, l);
    if r.command != [] then Apply(r, PostCommand) else if r.flight != [] then Apply(r, PostCallback(0)) else r
  }

  lemma {:induction false} DirectReady(s: Sys, l: Label)
    requires Inv(s) && InStep(s) && Enabled(s, l)
    ensures Ready(s, l)
  {
    if l.Listen? && HasServer(Ahead(s), l.psm) {
      var x :| x in Ahead(s) && Ahead(s)[x].listening && Ahead(s)[x].psm == l.psm;
      SameUse(s, x);
    }
  }

  lemma {:induction false} SameUse(s: Sys, x: nat)
    requires Inv(s) && x in Ahead(s) && x in s.svc.live
    ensures Ahead(s)[x].life == s.svc.live[x].life && Ahead(s)[x].psm == s.svc.live[x].psm
  {
    var t := Ahead(s);
    var lives :| Covers(lives, t, s.command, s.flight, s.svc.live);
    assert SlotKnown(x, t[x], s.svc.lives) && UseKnown(x, s.svc.live[x], s.svc.lives);
  }

  lemma {:induction false} WholeInv(s: Sys, l: Label)
    requires Inv(s) && InStep(s) && Enabled(s, l) && Direct(l)
    ensures Inv(Whole(s, l))
  {
    DirectReady(s, l);
    StepInv(s, l);
    var r := Apply(s, l);
    if r.command != [] {
      StepInv(r, PostCommand);
    } else if r.flight != [] {
      StepInv(r, PostCallback(0));
    }
  }

  /** The message that the step posts. */
  function Posted(s: Sys, l: Label): Note
    requires Enabled(s, l) && Direct(l) && !l.Run? && s.command == [] && s.flight == []
  {
    var r := Apply(s, l);
    if r.command != [] then r.command[0] else r.flight[0]
  }

  lemma {:induction false} WholeAhead(s: Sys, l: Label)
    requires Inv(s) && s.command == [] && s.flight == [] && Enabled(s, l) && Direct(l) && !l.Run?
    ensures var r := Whole(s, l);
            r.svc == Apply(s, l).svc && r.command == [] && r.flight == [] && Ahead(r) == Step(Ahead(s), Posted(s, l))
  {
    AfterAppend(Slots(s.tool), s.queue, Posted(s, l));
    assert Whole(s, l).queue == s.queue + [Posted(s, l)];
  }

  ghost predicate Matches(t: map<nat, Slot>, live: map<nat, Use>) {
    forall x :: x in t ==> x in live && (t[x].listening ==> live[x].listening)
  }

  ghost predicate OneUse(live: map<nat, Use>) {
    forall x, y :: x in live && y in live && SamePsm(live[x], live[y]) ==> x == y
  }

  predicate SamePsm(a: Use, b: Use) { a.listening && b.listening && a.psm == b.psm }

  lemma {:induction false} DirectUses(s: Sys, l: Label)
    requires Enabled(s, l) && Direct(l) && OneUse(s.svc.live)
    ensures OneUse(Apply(s, l).svc.live)
  {
    var live, more := s.svc.live, Apply(s, l).svc.live;
    forall x, y | x in more && y in more && SamePsm(more[x], more[y]) ensures x == y {
      if l.Listen? {
        assert x != l.id ==> more[x] == live[x];
        assert y != l.id ==> more[y] == live[y];
      } else if l.Accept? {
        assert x != l.next ==> more[x] == live[x] && x != l.id;
        assert y != l.next ==> more[y] == live[y] && y != l.id;
        assert x != l.next ==> SamePsm(live[x], live[l.id]) || x == y;
        assert y != l.next ==> SamePsm(live[y], live[l.id]) || x == y;
      }
    }
  }

  lemma {:induction false} CommandMatches(s: Sys, l: Label)
    requires Inv(s) && InStep(s) && Enabled(s, l) && (l.Listen? || l.Connect? || l.Stop?)
    ensures Matches(Step(Ahead(s), Posted(s, l)), Apply(s, l).svc.live)
  {
    if l.Stop? && l.id in Ahead(s) {
      SameUse(s, l.id);
    }
  }

  lemma {:induction false} AcceptMatches(t: map<nat, Slot>, live: map<nat, Use>, more: map<nat, Use>, n: Note)
    requires Matches(t, live) && IsAccept(n.msg) && StepOk(t, n)
    requires n.msg.id in more && n.msg.listenId in more && more[n.msg.listenId].listening
    requires forall x :: x in live && x != n.msg.id && x != n.msg.listenId ==> x in more && more[x] == live[x]
    ensures Matches(Step(t, n), more)
  {
  }

  lemma {:induction false} CallbackMatches(s: Sys, l: Label)
    requires Inv(s) && InStep(s) && Enabled(s, l) && (l.Up? || l.Down?)
    ensures Matches(Step(Ahead(s), Posted(s, l)), Apply(s, l).svc.live)
  {
  }

  lemma {:induction false} HandOverMatches(s: Sys, l: Label)
    requires Inv(s) && InStep(s) && Enabled(s, l) && l.Accept?
    ensures Matches(Step(Ahead(s), Posted(s, l)), Apply(s, l).svc.live)
  {
    var r := Apply(s, l);
    DirectReady(s, l);
    HandOutInv(s, l);
    assert r.flight[0] == Posted(s, l) && Ahead(r) == Ahead(s);
    CallbackOk(Ahead(s), r.command, r.flight, r.svc, 0);
    AcceptMatches(Ahead(s), s.svc.live, r.svc.live, Posted(s, l));
  }

  lemma {:induction false} DirectStep(s: Sys, l: Label)
    requires Inv(s) && InStep(s) && Enabled(s, l) && Direct(l)
    ensures Ready(s, l) && Inv(Whole(s, l)) && InStep(Whole(s, l))
  {
    DirectReady(s, l);
    WholeInv(s, l);
    DirectUses(s, l);
    if l.Run? {
      HandleSlots(s.tool, s.queue[0], l.readOk, l.pipe);
      SubAfter(Slots(Whole(s, l).tool), Step(Slots(s.tool), s.queue[0]), s.queue[1..]);
    } else {
      WholeAhead(s, l);
      if l.Accept? {
        HandOverMatches(s, l);
      } else if l.Up? || l.Down? {
        CallbackMatches(s, l);
      } else {
        CommandMatches(s, l);
      }
    }
  }

  ghost predicate DirectRun(s: Sys, ls: seq<Label>)
    requires s.command == [] && s.flight == []
    decreases |ls|
  {
    ls == [] || (Direct(ls[0]) && Enabled(s, ls[0]) &&
                 var r := Whole(s, ls[0]); r.command == [] && r.flight == [] && DirectRun(r, ls[1..]))
  }

  ghost predicate DirectGood(s: Sys, ls: seq<Label>)
    requires s.command == [] && s.flight == [] && DirectRun(s, ls)
    decreases |ls|
  {
    Good(s.tool) && (ls == [] || (Ready(s, ls[0]) && DirectGood(Whole(s, ls[0]), ls[1..])))
  }

  /** In the build linked with the service, as long as no data path fails, no accept goes without a
      replacement and no service step comes between a command's call and its post, whatever ids are
      reused: every id handed out is ready and the table is sound throughout. */
  lemma {:induction false} DirectRunSound(s: Sys, ls: seq<Label>)
    requires Inv(s) && InStep(s) && DirectRun(s, ls)
    ensures DirectGood(s, ls)
    decreases |ls|
  {
    if ls == [] {
    } else {
      DirectStep(s, ls[0]);
      DirectRunSound(Whole(s, ls[0]), ls[1..]);
    }
  }

  lemma {:induction false} LinkedBuildSound(ls: seq<Label>)
    requires DirectRun(EMPTY, ls)
    ensures DirectGood(EMPTY, ls)
  {
    EmptyInv();
    DirectRunSound(EMPTY, ls);
  }
}
