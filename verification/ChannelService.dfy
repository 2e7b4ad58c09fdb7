/** The channel table together with the service that numbers the channels (service/src/l2cap_service.c).

    The service hands out any id that is not in use, so a freed id may come back at once.  All messages to
    the table go through the one queue of the tool's loop.  A command first calls the service and then
    posts its message, and there is one command at a time.  A callback of the service is in flight until
    it posts its message; callbacks in flight may be posted in any order. */
module ChannelService {
  import opened ChannelTable
  import opened Seqs

  /** One use of an id, from the hand-out until it is freed. */
  datatype Life = Life(id: nat, psm: nat, server: bool)

  /** A message, the life of the id it is about, and the life of the replacement that it brings. */
  datatype Note = Note(msg: Msg, life: nat, next: nat)

  datatype Use = Use(life: nat, psm: nat, listening: bool)

  /** The table, the life that each id in it was added for, the lives whose data path the tool has connected,
      and whether a message has been applied to a channel of another life of its id. */
  datatype Tool = Tool(table: seq<Channel>, owner: map<nat, nat>, joined: set<nat>, crossed: bool)

  /** The ids in use, and all lives so far. */
  datatype Service = Service(live: map<nat, Use>, lives: seq<Life>)

  datatype Sys = Sys(
    tool: Tool,
    queue: seq<Note>,      // posted to the loop, not yet processed
    command: seq<Note>,    // at most one: between the service call and the post
    flight: seq<Note>,     // callbacks made by the service, not yet posted
    svc: Service)

  const EMPTY := Sys(Tool([], map[], {}, false), [], [], [], Service(map[], []))

  datatype Label =
    | Listen(psm: nat, id: nat)              // listen_cmd
    | Stop(id: nat)                          // stop_listen_cmd on the PSM of a listener
    | Connect(psm: nat, id: nat)             // connect_cmd
    | PostCommand
    | Accept(id: nat, cid: nat, next: nat)   // a peer connects to a listener; `next` replaces it
    | Lapse(id: nat)                         // the same when no replacement can be made: no callback
    | Up(id: nat, cid: nat)                  // a connected callback of a client channel
    | Down(id: nat)                          // a disconnected callback; the id is freed
    | Drop(id: nat)                          // the data path failed: the id is freed, no callback
    | PostCallback(i: nat)
    | Run(readOk: bool, pipe: nat)           // the loop processes the head of its queue

  predicate IsAccept(m: Msg) { m.Connected? && m.listenId >= 0 }

  predicate IsCallback(m: Msg) { m.Connected? || m.Disconnected? }

  function LifeOf(owner: map<nat, nat>, id: nat): nat { if id in owner then owner[id] else 0 }

  /** The message finds a channel of its id, but of another life. */
  predicate Crosses(t: Tool, n: Note) {
    IsCallback(n.msg) && Find(t.table, n.msg.id) < |t.table| && LifeOf(t.owner, n.msg.id) != n.life
  }

  /** The accept turns a listener into a channel and adds the replacement. */
  predicate Replaces(t: Tool, n: Note, readOk: bool, pipe: nat) {
    IsAccept(n.msg) && Find(t.table, n.msg.id) < |t.table| && readOk && pipe != 0
  }

  function Owners(t: Tool, n: Note, readOk: bool, pipe: nat): map<nat, nat> {
    if n.msg.Add? && pipe != 0 then t.owner[n.msg.id := n.life]
    else if Replaces(t, n, readOk, pipe) then t.owner[n.msg.listenId := n.next]
    else t.owner
  }

  function Joined(t: Tool, n: Note, readOk: bool, pipe: nat): set<nat> {
    if n.msg.Add? && pipe != 0 then t.joined + {n.life}
    else if Replaces(t, n, readOk, pipe) then t.joined + {n.next}
    else t.joined
  }

  function Handle(t: Tool, n: Note, readOk: bool, pipe: nat): Tool {
    Tool(Process(t.table, n.msg, readOk, pipe), Owners(t, n, readOk, pipe), Joined(t, n, readOk, pipe),
         t.crossed || Crosses(t, n))
  }

  predicate Listens(s: Sys, id: nat) { id in s.svc.live && s.svc.live[id].listening }

  predicate Connects(s: Sys, id: nat) { id in s.svc.live && !s.svc.live[id].listening }

  /** The service hears of a peer only on a channel whose data path is connected. */
  predicate HasPath(s: Sys, id: nat) { id in s.svc.live && s.svc.live[id].life in s.tool.joined }

  predicate PsmFree(live: map<nat, Use>, psm: nat) {
    forall i :: i in live ==> !(live[i].listening && live[i].psm == psm)
  }

  predicate Enabled(s: Sys, l: Label) {
    match l
    case Listen(p, id) => s.command == [] && id !in s.svc.live && PsmFree(s.svc.live, p)
    case Stop(id) => s.command == [] && Listens(s, id)
    case Connect(_, id) => s.command == [] && id !in s.svc.live
    case PostCommand => s.command != []
    case Accept(id, _, next) => Listens(s, id) && HasPath(s, id) && next !in s.svc.live
    case Lapse(id) => Listens(s, id) && HasPath(s, id)
    case Up(id, _) => Connects(s, id) && HasPath(s, id)
    case Down(id) => Connects(s, id)
    case Drop(id) => id in s.svc.live
    case PostCallback(i) => i < |s.flight|
    case Run(_, _) => s.queue != []
  }

  /** A new life of an id. */
  function HandOut(svc: Service, id: nat, psm: nat, listening: bool): Service {
    Service(svc.live[id := Use(|svc.lives|, psm, listening)], svc.lives + [Life(id, psm, listening)])
  }

  function Deafen(svc: Service, id: nat): Service
    requires id in svc.live
  {
    svc.(live := svc.live[id := svc.live[id].(listening := false)])
  }

  function Freed(svc: Service, id: nat): Service { svc.(live := svc.live - {id}) }

  function AcceptNote(svc: Service, id: nat, cid: nat, next: nat): Note
    requires id in svc.live
  {
    Note(Connected(id, svc.live[id].psm, cid, next), svc.live[id].life, |svc.lives|)
  }

  function AddNote(svc: Service, id: nat, psm: nat, listening: bool): Note {
    Note(Add(id, psm, listening), |svc.lives|, 0)
  }

  function Apply(s: Sys, l: Label): Sys
    requires Enabled(s, l)
  {
    match l
    case Listen(p, id) => s.(svc := HandOut(s.svc, id, p, true), command := [AddNote(s.svc, id, p, true)])
    case Stop(id) => s.(svc := Freed(s.svc, id), command := [Note(StopListen(s.svc.live[id].psm), 0, 0)])
    case Connect(p, id) => s.(svc := HandOut(s.svc, id, p, false), command := [AddNote(s.svc, id, p, false)])
    case PostCommand => s.(queue := s.queue + [s.command[0]], command := s.command[1..])
    case Accept(id, cid, next) =>
      s.(svc := HandOut(Deafen(s.svc, id), next, s.svc.live[id].psm, true),
         flight := s.flight + [AcceptNote(s.svc, id, cid, next)])
    case Lapse(id) => s.(svc := Deafen(s.svc, id))
    case Up(id, cid) =>
      var u := s.svc.live[id];
      s.(flight := s.flight + [Note(Connected(id, u.psm, cid, -1), u.life, 0)])
    case Down(id) =>
      s.(svc := Freed(s.svc, id), flight := s.flight + [Note(Disconnected(id), s.svc.live[id].life, 0)])
    case Drop(id) => s.(svc := Freed(s.svc, id))
    case PostCallback(i) => s.(queue := s.queue + [s.flight[i]], flight := Without(s.flight, i))
    case Run(readOk, pipe) => s.(queue := s.queue[1..], tool := Handle(s.tool, s.queue[0], readOk, pipe))
  }

  // ----- Every run: sound if and only if every message fits -----

  ghost predicate ValidRun(s: Sys, ls: seq<Label>)
    decreases |ls|
  {
    ls == [] || (Enabled(s, ls[0]) && ValidRun(Apply(s, ls[0]), ls[1..]))
  }

  ghost function Final(s: Sys, ls: seq<Label>): Sys
    requires ValidRun(s, ls)
    decreases |ls|
  {
    if ls == [] then s else Final(Apply(s, ls[0]), ls[1..])
  }

  /** Ids are unique, PSMs have at most one listener, and no message was applied to another life. */
  ghost predicate Good(t: Tool) { Sound(t.table) && !t.crossed }

  ghost predicate GoodThroughout(s: Sys, ls: seq<Label>)
    requires ValidRun(s, ls)
    decreases |ls|
  {
    Good(s.tool) && (ls == [] || GoodThroughout(Apply(s, ls[0]), ls[1..]))
  }

  ghost predicate StepFits(s: Sys, l: Label)
    requires Enabled(s, l)
  {
    l.Run? ==> Fits(s.tool.table, s.queue[0].msg, l.readOk, l.pipe) && !Crosses(s.tool, s.queue[0])
  }

  /** Every message of the run finds its new id gone, its PSM without another listener, and no channel of
      another life. */
  ghost predicate AllFit(s: Sys, ls: seq<Label>)
    requires ValidRun(s, ls)
    decreases |ls|
  {
    ls == [] || (StepFits(s, ls[0]) && AllFit(Apply(s, ls[0]), ls[1..]))
  }

  lemma {:induction false} HandleGoodIff(t: Tool, n: Note, readOk: bool, pipe: nat)
    requires Good(t)
    ensures Good(Handle(t, n, readOk, pipe)) <==> Fits(t.table, n.msg, readOk, pipe) && !Crosses(t, n)
  {
    ProcessSoundIff(t.table, n.msg, readOk, pipe);
  }

  /** For every run, whatever ids the service reuses: the table is sound and no message reaches another
      life in all its states if and only if every message fits when it is processed. */
  lemma {:induction false} SoundIffAllFit(s: Sys, ls: seq<Label>)
    requires Good(s.tool) && ValidRun(s, ls)
    ensures GoodThroughout(s, ls) <==> AllFit(s, ls)
    decreases |ls|
  {
    if ls == [] {
    } else {
      var l, r := ls[0], Apply(s, ls[0]);
      if l.Run? {
        HandleGoodIff(s.tool, s.queue[0], l.readOk, l.pipe);
      }
      if Good(r.tool) {
        SoundIffAllFit(r, ls[1..]);
      } else {
        assert !GoodThroughout(r, ls[1..]);
      }
    }
  }

  // ----- The table as a map -----

  datatype Slot = Slot(psm: nat, listening: bool, life: nat)

  function SlotOf(c: Channel, owner: map<nat, nat>): Slot { Slot(c.psm, c.listening, LifeOf(owner, c.id)) }

  /** What the table has for each id. */
  function SlotsOf(t: seq<Channel>, owner: map<nat, nat>): map<nat, Slot> {
    if t == [] then map[]
    else SlotsOf(t[..|t| - 1], owner)[t[|t| - 1].id := SlotOf(t[|t| - 1], owner)]
  }

  function Slots(t: Tool): map<nat, Slot> { SlotsOf(t.table, t.owner) }

  ghost predicate HasServer(u: map<nat, Slot>, psm: nat) {
    exists x :: x in u && u[x].listening && u[x].psm == psm
  }

  function WithoutServer(u: map<nat, Slot>, psm: nat): map<nat, Slot> {
    map x | x in u && !(u[x].listening && u[x].psm == psm) :: u[x]
  }

  /** What a message does when reads start and pipes connect. */
  function Step(u: map<nat, Slot>, n: Note): map<nat, Slot> {
    match n.msg
    case Add(id, psm, listening) => u[id := Slot(psm, listening, n.life)]
    case Connected(id, psm, _, listenId) =>
      if listenId >= 0 && id in u then u[id := u[id].(listening := false)][listenId := Slot(psm, true, n.next)]
      else u
    case Disconnected(id) => u - {id}
    case StopListen(psm) => WithoutServer(u, psm)
  }

  /** The message meets what it is about, and brings nothing that is there already. */
  ghost predicate StepOk(u: map<nat, Slot>, n: Note) {
    match n.msg
    case Add(id, psm, listening) => id !in u && (listening ==> !HasServer(u, psm))
    case Connected(id, psm, _, listenId) =>
      id in u ==> u[id].life == n.life &&
                  (listenId >= 0 ==> u[id].listening && u[id].psm == psm && listenId !in u)
    case Disconnected(id) => id in u ==> u[id].life == n.life
    case StopListen(_) => true
  }

  function After(u: map<nat, Slot>, notes: seq<Note>): map<nat, Slot>
    decreases |notes|
  {
    if notes == [] then u else After(Step(u, notes[0]), notes[1..])
  }

  ghost predicate AllOk(u: map<nat, Slot>, notes: seq<Note>)
    decreases |notes|
  {
    notes == [] || (StepOk(u, notes[0]) && AllOk(Step(u, notes[0]), notes[1..]))
  }

  ghost predicate Sub(v: map<nat, Slot>, u: map<nat, Slot>) {
    forall x :: x in v ==> x in u && v[x] == u[x]
  }

  lemma {:induction false} SubStep(v: map<nat, Slot>, u: map<nat, Slot>, n: Note)
    requires Sub(v, u) && StepOk(u, n)
    ensures StepOk(v, n) && Sub(Step(v, n), Step(u, n))
  {
    match n.msg
    case Add(id, psm, listening) =>
      if HasServer(v, psm) {
        var x :| x in v && v[x].listening && v[x].psm == psm;
        assert x in u && u[x] == v[x];
      }
    case _ =>
  }

  lemma {:induction false} SubAfter(v: map<nat, Slot>, u: map<nat, Slot>, notes: seq<Note>)
    requires Sub(v, u) && AllOk(u, notes)
    ensures AllOk(v, notes) && Sub(After(v, notes), After(u, notes))
    decreases |notes|
  {
    if notes == [] {
    } else {
      SubStep(v, u, notes[0]);
      SubAfter(Step(v, notes[0]), Step(u, notes[0]), notes[1..]);
    }
  }

  lemma {:induction false} AfterAppend(u: map<nat, Slot>, notes: seq<Note>, n: Note)
    requires AllOk(u, notes)
    ensures AllOk(u, notes + [n]) <==> StepOk(After(u, notes), n)
    ensures After(u, notes + [n]) == Step(After(u, notes), n)
    decreases |notes|
  {
    if notes == [] {
      assert [n][1..] == [];
    } else {
      AfterAppend(Step(u, notes[0]), notes[1..], n);
      assert (notes + [n])[1..] == notes[1..] + [n];
    }
  }

  // ----- Table and map -----

  lemma {:induction false} SlotsHas(t: seq<Channel>, owner: map<nat, nat>, id: nat)
    ensures id in SlotsOf(t, owner) <==> HasId(t, id)
    ensures HasId(t, id) <==> Find(t, id) < |t|
  {
    if t == [] {
    } else {
      var u := t[..|t| - 1];
      SlotsHas(u, owner, id);
      if HasId(u, id) {
        var i :| 0 <= i < |u| && u[i].id == id;
        assert t[i].id == id;
      }
      if HasId(t, id) {
        var i :| 0 <= i < |t| && t[i].id == id;
        assert i < |u| ==> u[i].id == id;
      }
    }
  }

  lemma {:induction false} SlotsAt(t: seq<Channel>, owner: map<nat, nat>, i: nat)
    requires UniqueIds(t) && i < |t|
    ensures t[i].id in SlotsOf(t, owner) && SlotsOf(t, owner)[t[i].id] == SlotOf(t[i], owner)
  {
    if i < |t| - 1 {
      SlotsAt(t[..|t| - 1], owner, i);
    }
  }

  lemma {:induction false} SlotsAppend(t: seq<Channel>, owner: map<nat, nat>, c: Channel)
    ensures SlotsOf(t + [c], owner) == SlotsOf(t, owner)[c.id := SlotOf(c, owner)]
  {
    assert (t + [c])[..|t|] == t;
  }

  lemma {:induction false} SlotsOwner(t: seq<Channel>, owner: map<nat, nat>, id: nat, life: nat)
    requires !HasId(t, id)
    ensures SlotsOf(t, owner[id := life]) == SlotsOf(t, owner)
  {
    if t == [] {
    } else {
      var u := t[..|t| - 1];
      assert forall i :: 0 <= i < |u| ==> u[i] == t[i];
      assert t[|t| - 1].id != id;
      SlotsOwner(u, owner, id, life);
    }
  }

  lemma {:induction false} RemoveThenPut(u: map<nat, Slot>, x: nat, y: nat, slot: Slot)
    requires x != y
    ensures (u - {x})[y := slot] == u[y := slot] - {x}
  {
  }

  lemma {:induction false} PutTwice(u: map<nat, Slot>, x: nat, a: Slot, y: nat, b: Slot)
    requires x != y
    ensures u[x := a][y := b] == u[y := b][x := a]
  {
  }

  /** Removing a channel removes its id and nothing else. */
  lemma {:induction false} SlotsWithout(t: seq<Channel>, owner: map<nat, nat>, k: nat)
    requires UniqueIds(t) && k < |t|
    ensures SlotsOf(Without(t, k), owner) == SlotsOf(t, owner) - {t[k].id}
  {
    var u, c := t[..|t| - 1], t[|t| - 1];
    if k == |t| - 1 {
      assert Without(t, k) == u;
      SlotsHas(u, owner, c.id);
    } else {
      SlotsWithout(u, owner, k);
      assert Without(t, k) == Without(u, k) + [c];
      SlotsAppend(Without(u, k), owner, c);
      assert t[k].id == u[k].id != c.id;
      RemoveThenPut(SlotsOf(u, owner), t[k].id, c.id, SlotOf(c, owner));
    }
  }

  lemma {:induction false} SlotsUpdate(t: seq<Channel>, owner: map<nat, nat>, k: nat, c: Channel)
    requires UniqueIds(t) && k < |t| && c.id == t[k].id
    ensures SlotsOf(t[k := c], owner) == SlotsOf(t, owner)[c.id := SlotOf(c, owner)]
  {
    var u, d := t[..|t| - 1], t[|t| - 1];
    if k == |t| - 1 {
      assert t[k := c] == u + [c];
      SlotsAppend(u, owner, c);
    } else {
      SlotsUpdate(u, owner, k, c);
      assert t[k := c] == u[k := c] + [d];
      SlotsAppend(u[k := c], owner, d);
      assert t[k].id != d.id;
      PutTwice(SlotsOf(u, owner), c.id, SlotOf(c, owner), d.id, SlotOf(d, owner));
    }
  }

  lemma {:induction false} ServerIff(t: Tool, psm: nat)
    requires UniqueIds(t.table)
    ensures HasServer(Slots(t), psm) <==> HasListener(t.table, psm)
  {
    if HasListener(t.table, psm) {
      var i :| 0 <= i < |t.table| && t.table[i].listening && t.table[i].psm == psm;
      SlotsAt(t.table, t.owner, i);
    }
    if HasServer(Slots(t), psm) {
      var x :| x in Slots(t) && Slots(t)[x].listening && Slots(t)[x].psm == psm;
      SlotsHas(t.table, t.owner, x);
      SlotsAt(t.table, t.owner, Find(t.table, x));
    }
  }

  lemma {:induction false} AddSlots(t: Tool, n: Note, pipe: nat)
    requires UniqueIds(t.table) && n.msg.Add? && pipe != 0 && !HasId(t.table, n.msg.id)
    ensures Slots(Handle(t, n, true, pipe)) == Step(Slots(t), n)
  {
    var m := n.msg;
    SlotsOwner(t.table, t.owner, m.id, n.life);
    SlotsAppend(t.table, t.owner[m.id := n.life], Channel(m.id, m.psm, 0, m.listening, pipe));
  }

  lemma {:induction false} StopSlots(t: Tool, n: Note, readOk: bool, pipe: nat)
    requires Sound(t.table) && n.msg.StopListen?
    ensures Slots(Handle(t, n, readOk, pipe)) == Step(Slots(t), n)
  {
    var k, p := FindListener(t.table, n.msg.psm), n.msg.psm;
    ServerIff(t, p);
    if k == |t.table| {
      assert !HasServer(Slots(t), p);
      assert Step(Slots(t), n) == Slots(t);
    } else {
      SlotsWithout(t.table, t.owner, k);
      SlotsAt(t.table, t.owner, k);
      forall x | x in Slots(t) && x != t.table[k].id
        ensures !(Slots(t)[x].listening && Slots(t)[x].psm == p)
      {
        SlotsHas(t.table, t.owner, x);
        SlotsAt(t.table, t.owner, Find(t.table, x));
      }
      assert Step(Slots(t), n) == Slots(t) - {t.table[k].id};
    }
  }

  /** A callback that does not turn a listener into a channel. */
  lemma {:induction false} RemoveSlots(t: Tool, n: Note, readOk: bool, pipe: nat)
    requires UniqueIds(t.table) && IsCallback(n.msg) && Find(t.table, n.msg.id) < |t.table|
    ensures n.msg.Disconnected? || !readOk ==>
              Slots(Handle(t, n, readOk, pipe)) == Slots(t) - {n.msg.id}
    ensures n.msg.Connected? && readOk && n.msg.listenId < 0 ==> Slots(Handle(t, n, readOk, pipe)) == Slots(t)
  {
    var k := Find(t.table, n.msg.id);
    SlotsWithout(t.table, t.owner, k);
    if n.msg.Connected? {
      SlotsAt(t.table, t.owner, k);
      SlotsUpdate(t.table, t.owner, k, t.table[k].(cid := n.msg.cid));
    }
  }

  lemma {:induction false} AcceptSlots(t: Tool, n: Note, pipe: nat)
    requires Sound(t.table) && IsAccept(n.msg) && Find(t.table, n.msg.id) < |t.table|
    ensures pipe != 0 && !HasId(t.table, n.msg.listenId) ==>
              Slots(Handle(t, n, true, pipe)) == Step(Slots(t), n)
    ensures n.msg.id in Slots(t)
    ensures pipe == 0 ==>
              Slots(Handle(t, n, true, pipe)) == Slots(t)[n.msg.id := Slots(t)[n.msg.id].(listening := false)]
  {
    var m, k := n.msg, Find(t.table, n.msg.id);
    var c := t.table[k].(cid := m.cid, listening := false);
    SlotsAt(t.table, t.owner, k);
    SlotsUpdate(t.table, t.owner, k, c);
    if pipe != 0 && !HasId(t.table, m.listenId) {
      UpdateSound(t.table, k, c);
      SlotsOwner(t.table[k := c], t.owner, m.listenId, n.next);
      SlotsAppend(t.table[k := c], t.owner[m.listenId := n.next], Channel(m.listenId, m.psm, 0, true, pipe));
    }
  }

  /** What fits the map fits the table. */
  lemma {:induction false} OkFits(t: Tool, n: Note, readOk: bool, pipe: nat)
    requires Good(t) && StepOk(Slots(t), n)
    ensures Fits(t.table, n.msg, readOk, pipe) && !Crosses(t, n)
  {
    match n.msg
    case Add(id, psm, listening) =>
      SlotsHas(t.table, t.owner, id);
      ServerIff(t, psm);
    case Connected(id, psm, cid, listenId) =>
      SlotsHas(t.table, t.owner, id);
      if Find(t.table, id) < |t.table| {
        SlotsAt(t.table, t.owner, Find(t.table, id));
        if listenId >= 0 {
          SlotsHas(t.table, t.owner, listenId);
        }
      }
    case Disconnected(id) =>
      SlotsHas(t.table, t.owner, id);
      if Find(t.table, id) < |t.table| {
        SlotsAt(t.table, t.owner, Find(t.table, id));
      }
    case StopListen(_) =>
  }

  /** Processing a message that meets what it is about: failed reads and pipes only take away. */
  lemma {:induction false} HandleSlots(t: Tool, n: Note, readOk: bool, pipe: nat)
    requires Good(t) && StepOk(Slots(t), n)
    ensures Good(Handle(t, n, readOk, pipe)) && Sub(Slots(Handle(t, n, readOk, pipe)), Step(Slots(t), n))
  {
    OkFits(t, n, readOk, pipe);
    HandleGoodIff(t, n, readOk, pipe);
    var m := n.msg;
    if m.StopListen? {
      StopSlots(t, n, readOk, pipe);
    } else {
      SlotsHas(t.table, t.owner, m.id);
      if m.Add? {
        if pipe != 0 {
          AddSlots(t, n, pipe);
        }
      } else if Find(t.table, m.id) < |t.table| {
        if m.Disconnected? || !readOk || m.listenId < 0 {
          RemoveSlots(t, n, readOk, pipe);
        } else {
          SlotsHas(t.table, t.owner, m.listenId);
          AcceptSlots(t, n, pipe);
        }
      }
    }
  }

  /** When reads start, pipes connect and the outcome is sound, the map is exact. */
  lemma {:induction false} HandleExact(t: Tool, n: Note)
    requires Good(t) && Good(Handle(t, n, true, 1))
    ensures Slots(Handle(t, n, true, 1)) == Step(Slots(t), n)
  {
    HandleGoodIff(t, n, true, 1);
    var m := n.msg;
    if m.StopListen? {
      StopSlots(t, n, true, 1);
    } else {
      SlotsHas(t.table, t.owner, m.id);
      if m.Add? {
        AddSlots(t, n, 1);
      } else if Find(t.table, m.id) < |t.table| {
        if m.Disconnected? || m.listenId < 0 {
          RemoveSlots(t, n, true, 1);
        } else {
          AcceptSlots(t, n, 1);
        }
      }
    }
  }
}
