/** The life of one pipe handle (framework/common/euv_pipe.c).

    Up to three libuv pipes live inside one heap handle: the client pipe and, for a
    handle made by `euv_pipe_open`, a local and an RPMSG server pipe.  Each `uv_close`
    runs its callback later; the handle is freed by the callback that clears the last
    status bit.  The model is a transition system whose labels are the calls of the API
    and the callbacks of libuv.  Calls may come from inside the connect, listen and read
    callbacks, so they are enabled while such a callback is active; libuv starts a
    callback only when none is active. */
module Pipe {
  import opened Seqs

  datatype Id = Client | Local | Rpmsg

  /** `handle->mode`. */
  datatype Mode = Unknown | Serving(which: Id)

  /** What `cli_pipe.data` points to. */
  datatype Owner = Nothing | Reader(id: nat) | Handle

  /** `handle->data`: the pending accept request of a server handle. */
  datatype Accept = None | Waiting | Released

  /** A read callback in progress; `buffer` is -1 when the caller's allocator made it. */
  datatype Frame = Idle | InListen | InRead(buffer: int, failed: bool)

  /** libuv's side of the embedded pipes. */
  datatype Uv = Uv(
    inited: set<Id>,          // uv_pipe_init done
    closing: set<Id>,         // uv_close called; uv_is_closing from then on
    pendingClose: set<Id>,    // close callback still to come
    active: bool,             // uv_is_active(cli_pipe): a read is started
    connecting: bool,         // uv_connect callback still to come
    writes: nat,              // uv_write callbacks still to come
    frame: Frame,
    fault: bool)              // uv_close of a pipe that is not initialised or already closing,
                              // or a free of something that is not a live reader

  /** Allocations and frees so far. */
  datatype Ledger = Ledger(
    readers: nat,
    readerFrees: seq<nat>,
    leaked: set<nat>,         // readers overwritten while alive
    buffers: nat,             // framework buffers
    bufferFrees: seq<nat>,
    closeCbs: nat,
    frees: nat)               // of the handle

  datatype State = State(
    server: bool,             // made by euv_pipe_open
    rpmsg: bool,              // built with CONFIG_NET_RPMSG
    status: set<Id>,          // the status bits
    mode: Mode,
    accept: Accept,
    data: Owner,
    ownAlloc: bool,           // the reader has an alloc_cb
    hasCloseCb: bool,
    uv: Uv,
    ledger: Ledger)

  const NO_LEDGER := Ledger(0, [], {}, 0, [], 0, 0)

  /** `euv_pipe_connect`. */
  function Connected(rpmsg: bool): State {
    State(false, rpmsg, {Client}, Serving(Local), None, Nothing, false, false,
          Uv({Client}, {}, {}, false, true, 0, Idle, false), NO_LEDGER)
  }

  /** `euv_pipe_open`. */
  function Opened(rpmsg: bool): State {
    var servers := if rpmsg then {Local, Rpmsg} else {Local};
    State(true, rpmsg, servers, Unknown, Waiting, Nothing, false, false,
          Uv(servers, {}, {}, false, false, 0, Idle, false), NO_LEDGER)
  }

  datatype Label =
    | Listen(which: Id)                     // a connection arrives on a server pipe
    | ListenDone                            // the connect callback of the accept returned
    | ConnectDone
    | ReadStart(ownAlloc: bool, ok: bool)   // ok: uv_read_start succeeds
    | ReadStop
    | Read(eof: bool, failed: bool)         // libuv delivers a buffer
    | ReadDone                              // read_cb returned
    | Write | WriteDone
    | Disconnect | Close(cb: bool) | Close2
    | CloseDone(which: Id)

  predicate Freed(s: State) { s.ledger.frees > 0 }

  /** API calls need a live handle; callbacks follow libuv's rules. */
  predicate Enabled(s: State, l: Label) {
    match l
    case Listen(p) => !p.Client? && s.uv.frame.Idle? && p in s.uv.inited && p !in s.uv.closing
    case ListenDone => s.uv.frame.InListen?
    case ConnectDone => s.uv.frame.Idle? && s.uv.connecting
    case Read(eof, failed) => s.uv.frame.Idle? && s.uv.active && Client !in s.uv.closing && !(eof && failed)
    case ReadDone => s.uv.frame.InRead?
    case WriteDone => s.uv.frame.Idle? && s.uv.writes > 0
    case CloseDone(p) =>
      s.uv.frame.Idle? && p in s.uv.pendingClose && (p.Client? ==> !s.uv.connecting && s.uv.writes == 0)
    case Close2 => !Freed(s) && s.rpmsg
    case _ => !Freed(s)
  }

  function Other(p: Id): Id { if p.Local? then Rpmsg else Local }

  function UvClose(s: State, p: Id): State {
    s.(uv := s.uv.(closing := s.uv.closing + {p}, pendingClose := s.uv.pendingClose + {p},
                   fault := s.uv.fault || p !in s.uv.inited || p in s.uv.closing))
  }

  /** `euv_pipe_listen_callback` behind the local or the RPMSG entry, up to the connect callback. */
  function OnListen(s: State, p: Id): State {
    var r := s.(mode := Serving(p));
    if !s.accept.Waiting? then r
    else r.(status := s.status + {Client}, uv := s.uv.(inited := s.uv.inited + {Client}, frame := InListen))
  }

  /** `euv_pipe_read_start`. */
  function StartRead(s: State, ownAlloc: bool, ok: bool): State {
    if Client in s.uv.closing || s.uv.active then s
    else
      var id := s.ledger.readers;
      var lost := if s.data.Reader? then {s.data.id} else {};
      var ledger := s.ledger.(readers := id + 1, leaked := s.ledger.leaked + lost);
      if ok && Client in s.uv.inited then
        s.(data := Reader(id), ownAlloc := ownAlloc, uv := s.uv.(active := true), ledger := ledger)
      else s.(data := Nothing, ledger := ledger.(readerFrees := s.ledger.readerFrees + [id]))
  }

  /** `euv_pipe_read_stop`. */
  function StopRead(s: State): State {
    if Client in s.uv.closing then s
    else
      var r := s.(data := Nothing, uv := s.uv.(active := false));
      match s.data
      case Nothing => r
      case Reader(id) => r.(ledger := s.ledger.(readerFrees := s.ledger.readerFrees + [id]))
      case Handle => r.(uv := s.uv.(active := false, fault := true))
  }

  /** `euv_alloc_callback` and `euv_read_callback` up to read_cb. */
  function OnRead(s: State, eof: bool, failed: bool): State {
    if !s.data.Reader? then s.(uv := s.uv.(active := !eof, fault := s.uv.fault || s.data.Handle?))
    else if s.ownAlloc then s.(uv := s.uv.(active := !eof, frame := InRead(-1, failed)))
    else
      s.(uv := s.uv.(active := !eof, frame := InRead(s.ledger.buffers, failed)),
         ledger := s.ledger.(buffers := s.ledger.buffers + 1))
  }

  /** `euv_read_callback` after read_cb; libuv stops reading after an error. */
  function EndRead(s: State): State
    requires s.uv.frame.InRead?
  {
    var frame := s.uv.frame;
    s.(uv := s.uv.(frame := Idle, active := s.uv.active && !frame.failed),
       ledger := if frame.buffer < 0 then s.ledger
                 else s.ledger.(bufferFrees := s.ledger.bufferFrees + [frame.buffer]))
  }

  /** `euv_pipe_disconnect`. */
  function DoDisconnect(s: State): State {
    if Client in s.uv.closing then s
    else UvClose(StopRead(s).(data := Handle), Client)
  }

  /** `euv_pipe_close_with_cb`. */
  function DoClose(s: State, cb: bool): State {
    var r := s.(hasCloseCb := cb);
    match s.mode
    case Unknown =>
      var c := UvClose(r, Local);
      if s.rpmsg then UvClose(c, Rpmsg) else c
    case Serving(p) =>
      if p in s.uv.closing then r else UvClose(DoDisconnect(r), p)
  }

  /** `euv_pipe_close2`: closes the server pipe that is not in use. */
  function DoClose2(s: State): State {
    match s.mode
    case Unknown => s
    case Serving(p) =>
      if Other(p) in s.uv.closing then s else UvClose(s, Other(p))
  }

  /** `euv_close_callback`. */
  function OnClosed(s: State, p: Id): State {
    var uv := s.uv.(pendingClose := s.uv.pendingClose - {p});
    if p.Client? && !s.data.Handle? then s.(uv := uv.(fault := s.uv.fault || s.data.Reader?))
    else
      var r := s.(status := s.status - {p}, uv := uv);
      if r.status == {} then
        var cbs := if s.hasCloseCb then 1 else 0;
        r.(ledger := s.ledger.(closeCbs := s.ledger.closeCbs + cbs, frees := s.ledger.frees + 1))
      else r
  }

  function Apply(s: State, l: Label): State
    requires Enabled(s, l)
  {
    match l
    case Listen(p) => OnListen(s, p)
    case ListenDone => s.(accept := Released, uv := s.uv.(frame := Idle))
    case ConnectDone => s.(uv := s.uv.(connecting := false))
    case ReadStart(own, ok) => StartRead(s, own, ok)
    case ReadStop => StopRead(s)
    case Read(eof, failed) => OnRead(s, eof, failed)
    case ReadDone => EndRead(s)
    case Write =>
      if Client in s.uv.inited && Client !in s.uv.closing then s.(uv := s.uv.(writes := s.uv.writes + 1)) else s
    case WriteDone => s.(uv := s.uv.(writes := s.uv.writes - 1))
    case Disconnect => DoDisconnect(s)
    case Close(cb) => DoClose(s, cb)
    case Close2 => DoClose2(s)
    case CloseDone(p) => OnClosed(s, p)
  }

  /** Calls that the file does not defend against: disconnecting before there is a client pipe,
      closing a handle made by `euv_pipe_connect`, and closing twice before the first connection. */
  predicate Misuse(s: State, l: Label) {
    || (l.Disconnect? && Client !in s.uv.inited)
    || ((l.Close? || l.Close2?) && !s.server)
    || (l.Close? && s.server && s.mode.Unknown? && Local in s.uv.closing)
  }

  // ----- The invariant -----

  /** Status bit = initialised and close callback not yet run; a pending callback's bit is set;
      freed exactly when no bit is left. */
  ghost predicate Bits(inited: set<Id>, status: set<Id>, closing: set<Id>, pending: set<Id>, frees: nat) {
    && inited != {}
    && pending <= closing <= inited
    && status == inited - (closing - pending)
    && frees == (if status == {} then 1 else 0)
  }

  /** Which pipes a handle has, by how it was made and how far it got. */
  ghost predicate Shape(s: State) {
    && (s.server ==> Local in s.uv.inited && (Rpmsg in s.uv.inited <==> s.rpmsg))
    && (!s.server ==> s.uv.inited == {Client} && s.accept.None? && s.mode == Serving(Local))
    && (s.server ==> !s.accept.None? && !s.uv.connecting)
    && (s.server ==> (Client in s.uv.inited <==> s.accept.Released? || s.uv.frame.InListen?))
    && (s.uv.frame.InListen? ==> s.server && s.accept.Waiting?)
    && (s.server && s.mode.Serving? ==> Client in s.uv.inited && s.mode.which in s.uv.inited && !s.mode.which.Client?)
    && (s.server && s.accept.Released? ==> s.mode.Serving?)
    && (s.server && s.uv.frame.InListen? ==> s.mode.Serving?)
    && (s.server && s.mode.Serving? && s.mode.which in s.uv.closing ==> Client in s.uv.closing)
    && (s.server && s.mode.Unknown? ==> s.uv.closing == {} || s.uv.closing == s.uv.inited)
  }

  /** Who owns `cli_pipe.data`: the handle exactly while the client pipe is closing. */
  ghost predicate Ownership(s: State) {
    && (s.data.Handle? <==> Client in s.uv.closing)
    && (s.uv.active ==> s.data.Reader?)
    && (!s.data.Nothing? ==> Client in s.uv.inited)
  }

  /** Each reader is the one in `cli_pipe.data`, freed once, or leaked. */
  ghost predicate Readers(readers: nat, frees: seq<nat>, leaked: set<nat>, data: Owner) {
    && Distinct(frees)
    && (forall id: nat :: id in frees || id in leaked || data == Reader(id) ==> id < readers)
    && (forall id :: 0 <= id < readers ==> id in frees || id in leaked || data == Reader(id))
    && (forall id :: id in leaked ==> id !in frees)
    && (data.Reader? ==> data.id !in frees && data.id !in leaked)
  }

  /** Each framework buffer is in the read in progress or freed once. */
  ghost predicate Buffers(buffers: nat, frees: seq<nat>, frame: Frame) {
    && |frees| == (if frame.InRead? && frame.buffer >= 0 then buffers - 1 else buffers)
    && (forall i :: 0 <= i < |frees| ==> frees[i] == i)
    && (frame.InRead? && frame.buffer >= 0 ==> frame.buffer == buffers - 1)
  }

  /** Everything that still refers to the handle keeps a status bit set. */
  ghost predicate Held(s: State) {
    && (s.uv.connecting || s.uv.writes > 0 ==> Client in s.status)
    && (s.uv.frame.InListen? || s.uv.frame.InRead? ==> s.ledger.frees == 0)
    && (s.uv.frame.InRead? ==> Client in s.status)
    && s.ledger.closeCbs == (if s.ledger.frees > 0 && s.hasCloseCb then 1 else 0)
  }

  ghost predicate Inv(s: State) {
    && !s.uv.fault
    && Bits(s.uv.inited, s.status, s.uv.closing, s.uv.pendingClose, s.ledger.frees)
    && Shape(s) && Ownership(s) && Held(s)
    && Readers(s.ledger.readers, s.ledger.readerFrees, s.ledger.leaked, s.data)
    && Buffers(s.ledger.buffers, s.ledger.bufferFrees, s.uv.frame)
  }

  lemma {:induction false} OpenedInv(rpmsg: bool)
    ensures Inv(Opened(rpmsg)) && Inv(Connected(rpmsg))
  {
  }

  lemma {:induction false} FaultIffMisuse(s: State, l: Label)
    requires Inv(s) && Enabled(s, l)
    ensures Apply(s, l).uv.fault <==> Misuse(s, l)
  {
    if l.Close? {
      CloseFaults(s, l.cb);
    } else if l.Close2? && s.mode.Serving? {
      assert s.server ==> s.mode.which in s.uv.inited && Other(s.mode.which) in s.uv.inited;
    }
  }

  lemma {:induction false} CloseFaults(s: State, cb: bool)
    requires Inv(s) && !Freed(s)
    ensures DoClose(s, cb).uv.fault <==> Misuse(s, Close(cb))
  {
    if s.server {
      assert s.mode.Unknown? ==> Local in s.uv.inited && (s.rpmsg ==> Rpmsg in s.uv.inited);
    }
  }

  /** A new pipe with its bit. */
  lemma {:induction false} ClientBits(s: State)
    requires Bits(s.uv.inited, s.status, s.uv.closing, s.uv.pendingClose, s.ledger.frees) && Client !in s.uv.inited
    requires s.ledger.frees == 0
    ensures Bits(s.uv.inited + {Client}, s.status + {Client}, s.uv.closing, s.uv.pendingClose, s.ledger.frees)
  {
  }

  lemma {:induction false} StepListen(s: State, l: Label)
    requires l.Listen? && Inv(s) && Enabled(s, l) && !Misuse(s, l)
    ensures Inv(Apply(s, l))
  {
    if s.accept.Waiting? {
      assert Client !in s.uv.inited;
      assert l.which in s.status && s.ledger.frees == 0;
      ClientBits(s);
    }
  }

  lemma {:induction false} StepListenDone(s: State, l: Label)
    requires l.ListenDone? && Inv(s) && Enabled(s, l) && !Misuse(s, l)
    ensures Inv(Apply(s, l))
  {
  }

  lemma {:induction false} StepConnectDone(s: State, l: Label)
    requires l.ConnectDone? && Inv(s) && Enabled(s, l) && !Misuse(s, l)
    ensures Inv(Apply(s, l))
  {
  }

  lemma {:induction false} NewReader(readers: nat, frees: seq<nat>, leaked: set<nat>, data: Owner)
    requires Readers(readers, frees, leaked, data) && !data.Handle?
    ensures var lost := if data.Reader? then {data.id} else {};
            && Readers(readers + 1, frees, leaked + lost, Reader(readers))
            && Readers(readers + 1, frees + [readers], leaked + lost, Nothing)
  {
  }

  lemma {:induction false} StartReadRest(s: State, ownAlloc: bool, ok: bool)
    requires Inv(s) && Client !in s.uv.closing && !s.uv.active
    ensures var r := StartRead(s, ownAlloc, ok); Shape(r) && Ownership(r) && Held(r)
  {
  }

  lemma {:induction false} StepReadStart(s: State, l: Label)
    requires l.ReadStart? && Inv(s) && Enabled(s, l) && !Misuse(s, l)
    ensures Inv(Apply(s, l))
  {
    if Client !in s.uv.closing && !s.uv.active {
      NewReader(s.ledger.readers, s.ledger.readerFrees, s.ledger.leaked, s.data);
      StartReadRest(s, l.ownAlloc, l.ok);
    }
  }

  lemma {:induction false} FreeReader(readers: nat, frees: seq<nat>, leaked: set<nat>, id: nat)
    requires Readers(readers, frees, leaked, Reader(id))
    ensures Readers(readers, frees + [id], leaked, Nothing)
  {
  }

  lemma {:induction false} StepReadStop(s: State, l: Label)
    requires l.ReadStop? && Inv(s) && Enabled(s, l) && !Misuse(s, l)
    ensures Inv(Apply(s, l))
  {
    if Client !in s.uv.closing && s.data.Reader? {
      FreeReader(s.ledger.readers, s.ledger.readerFrees, s.ledger.leaked, s.data.id);
    }
  }

  lemma {:induction false} NewBuffer(buffers: nat, frees: seq<nat>, failed: bool)
    requires Buffers(buffers, frees, Idle)
    ensures Buffers(buffers + 1, frees, InRead(buffers, failed)) && Buffers(buffers, frees, InRead(-1, failed))
  {
  }

  lemma {:induction false} StepRead(s: State, l: Label)
    requires l.Read? && Inv(s) && Enabled(s, l) && !Misuse(s, l)
    ensures Inv(Apply(s, l))
  {
    NewBuffer(s.ledger.buffers, s.ledger.bufferFrees, l.failed);
    assert s.data.Reader? && Client in s.status;
    var r := Apply(s, l);
    assert r.ledger == if s.ownAlloc then s.ledger else s.ledger.(buffers := s.ledger.buffers + 1);
  }

  lemma {:induction false} StepReadDone(s: State, l: Label)
    requires l.ReadDone? && Inv(s) && Enabled(s, l) && !Misuse(s, l)
    ensures Inv(Apply(s, l))
  {
  }

  lemma {:induction false} StepWrite(s: State, l: Label)
    requires l.Write? && Inv(s) && Enabled(s, l) && !Misuse(s, l)
    ensures Inv(Apply(s, l))
  {
  }

  lemma {:induction false} StepWriteDone(s: State, l: Label)
    requires l.WriteDone? && Inv(s) && Enabled(s, l) && !Misuse(s, l)
    ensures Inv(Apply(s, l))
  {
  }

  lemma {:induction false} CloseClient(s: State)
    requires Inv(s) && !Freed(s) && s.data.Nothing? && Client in s.uv.inited
    ensures Inv(UvClose(s.(data := Handle), Client))
  {
  }

  lemma {:induction false} StepDisconnect(s: State, l: Label)
    requires l.Disconnect? && Inv(s) && Enabled(s, l) && !Misuse(s, l)
    ensures Inv(Apply(s, l))
  {
    if Client !in s.uv.closing {
      StepReadStop(s, ReadStop);
      CloseClient(StopRead(s));
    }
  }

  lemma {:induction false} CloseServer(s: State, p: Id)
    requires Inv(s) && !Freed(s) && s.server && s.mode.Serving?
    requires p in s.uv.inited && !p.Client? && p !in s.uv.closing
    requires p == s.mode.which ==> Client in s.uv.closing
    ensures Inv(UvClose(s, p))
  {
  }

  /** Before the first connection both server pipes are closed at once. */
  lemma {:induction false} CloseBeforeAccept(s: State)
    requires Inv(s) && !Freed(s) && s.server && s.mode.Unknown? && Local !in s.uv.closing
    ensures var c := UvClose(s, Local); Inv(if s.rpmsg then UvClose(c, Rpmsg) else c)
  {
    assert Local in s.uv.inited && Client !in s.uv.inited && s.uv.closing == {};
    forall p | p in s.uv.inited ensures p == Local || (s.rpmsg && p == Rpmsg) {
    }
    if s.rpmsg {
      assert UvClose(UvClose(s, Local), Rpmsg).uv.closing == s.uv.inited;
    } else {
      assert UvClose(s, Local).uv.closing == s.uv.inited;
    }
  }

  lemma {:induction false} CloseServing(s: State)
    requires Inv(s) && !Freed(s) && s.server && s.mode.Serving? && s.mode.which !in s.uv.closing
    ensures Inv(UvClose(DoDisconnect(s), s.mode.which))
  {
    StepDisconnect(s, Disconnect);
    DisconnectKeeps(s);
    CloseServer(DoDisconnect(s), s.mode.which);
  }

  /** What stopping a read leaves alone. */
  lemma {:induction false} StopKeeps(s: State)
    ensures var r := StopRead(s);
            && r.server == s.server && r.mode == s.mode && r.uv.inited == s.uv.inited && r.uv.closing == s.uv.closing
            && r.ledger.frees == s.ledger.frees && r.ledger.leaked == s.ledger.leaked
  {
  }

  lemma {:induction false} DisconnectKeeps(s: State)
    ensures var r := DoDisconnect(s);
            && r.server == s.server && r.mode == s.mode && r.uv.inited == s.uv.inited
            && r.uv.closing == s.uv.closing + {Client}
            && r.ledger.frees == s.ledger.frees && r.ledger.leaked == s.ledger.leaked
  {
    StopKeeps(s);
    if Client in s.uv.closing {
      assert s.uv.closing + {Client} == s.uv.closing;
    }
  }

  lemma {:induction false} StepClose(s: State, l: Label)
    requires l.Close? && Inv(s) && Enabled(s, l) && !Misuse(s, l)
    ensures Inv(Apply(s, l))
  {
    var r := s.(hasCloseCb := l.cb);
    assert Inv(r);
    if s.mode.Unknown? {
      CloseBeforeAccept(r);
    } else if s.mode.which !in s.uv.closing {
      CloseServing(r);
    }
  }

  lemma {:induction false} StepClose2(s: State, l: Label)
    requires l.Close2? && Inv(s) && Enabled(s, l) && !Misuse(s, l)
    ensures Inv(Apply(s, l))
  {
    if s.mode.Serving? && Other(s.mode.which) !in s.uv.closing {
      CloseServer(s, Other(s.mode.which));
    }
  }

  /** A close callback clears a bit that is set, and frees exactly with the last. */
  lemma {:induction false} ClosedBits(s: State, p: Id)
    requires Bits(s.uv.inited, s.status, s.uv.closing, s.uv.pendingClose, s.ledger.frees) && p in s.uv.pendingClose
    requires p.Client? ==> s.data.Handle?
    ensures var r := OnClosed(s, p); Bits(r.uv.inited, r.status, r.uv.closing, r.uv.pendingClose, r.ledger.frees)
  {
    var closing, pending := s.uv.closing, s.uv.pendingClose;
    assert p in s.status;
    assert s.status - {p} == s.uv.inited - (closing - (pending - {p}));
  }

  lemma {:induction false} StepCloseDone(s: State, l: Label)
    requires l.CloseDone? && Inv(s) && Enabled(s, l) && !Misuse(s, l)
    ensures Inv(Apply(s, l))
  {
    ClosedBits(s, l.which);
  }

  lemma {:induction false} StepInv(s: State, l: Label)
    requires Inv(s) && Enabled(s, l) && !Misuse(s, l)
    ensures Inv(Apply(s, l))
  {
    match l
    case Listen(_) => StepListen(s, l);
    case ListenDone => StepListenDone(s, l);
    case ConnectDone => StepConnectDone(s, l);
    case ReadStart(_, _) => StepReadStart(s, l);
    case ReadStop => StepReadStop(s, l);
    case Read(_, _) => StepRead(s, l);
    case ReadDone => StepReadDone(s, l);
    case Write => StepWrite(s, l);
    case WriteDone => StepWriteDone(s, l);
    case Disconnect => StepDisconnect(s, l);
    case Close(_) => StepClose(s, l);
    case Close2 => StepClose2(s, l);
    case CloseDone(_) => StepCloseDone(s, l);
  }
}
