/** The pipe handle itself: fields updated in place by the functions of
    framework/common/euv_pipe.c, each a step of Pipe. */
module EuvPipe {
  import opened Pipe

  function Mask(p: Id): bv8 {
    match p
    case Client => 1
    case Local => 2
    case Rpmsg => 4
  }

  function PipesOf(status: bv8): set<Id> {
    set p: Id | status & Mask(p) != 0
  }

  lemma {:induction false} SetBit(status: bv8, p: Id)
    ensures PipesOf(status | Mask(p)) == PipesOf(status) + {p}
  {
    forall q: Id ensures (status | Mask(p)) & Mask(q) != 0 <==> status & Mask(q) != 0 || q == p {
    }
  }

  lemma {:induction false} ClearBit(status: bv8, p: Id)
    ensures PipesOf(status & !Mask(p)) == PipesOf(status) - {p}
  {
    forall q: Id ensures (status & !Mask(p)) & Mask(q) != 0 <==> status & Mask(q) != 0 && q != p {
    }
  }

  class PipeHandle {
    const server: bool
    const rpmsg: bool
    var status: bv8
    var mode: Mode
    var accept: Accept
    var data: Owner
    var ownAlloc: bool
    var hasCloseCb: bool
    var uv: Uv
    var ledger: Ledger

    ghost predicate Valid()
      reads this
    {
      status < 8
    }

    ghost function View(): State
      reads this
    {
      State(server, rpmsg, PipesOf(status), mode, accept, data, ownAlloc, hasCloseCb, uv, ledger)
    }

    /** `euv_pipe_open`. */
    constructor Open(rpmsg: bool)
      ensures Valid() && View() == Opened(rpmsg)
    {
      this.server, this.rpmsg := true, rpmsg;
      status := if rpmsg then 6 else 2;
      mode, accept, data, ownAlloc, hasCloseCb := Unknown, Waiting, Nothing, false, false;
      uv := Uv(if rpmsg then {Local, Rpmsg} else {Local}, {}, {}, false, false, 0, Idle, false);
      ledger := NO_LEDGER;
    }

    /** `euv_pipe_connect`. */
    constructor Connect(rpmsg: bool)
      ensures Valid() && View() == Connected(rpmsg)
    {
      this.server, this.rpmsg := false, rpmsg;
      status := 1;
      mode, accept, data, ownAlloc, hasCloseCb := Serving(Local), None, Nothing, false, false;
      uv := Uv({Client}, {}, {}, false, true, 0, Idle, false);
      ledger := NO_LEDGER;
    }

    /** `uv_close` of one of the embedded pipes. */
    method UvClosePipe(p: Id)
      modifies this`uv
      ensures View() == UvClose(old(View()), p)
    {
      uv := uv.(closing := uv.closing + {p}, pendingClose := uv.pendingClose + {p},
                fault := uv.fault || p !in uv.inited || p in uv.closing);
    }

    /** `euv_local_listen_callback` and `euv_rpmsg_listen_callback` up to the connect callback. */
    method ListenCallback(p: Id)
      requires Valid()
      modifies this`mode, this`uv, this`status
      ensures Valid() && View() == OnListen(old(View()), p)
    {
      mode := Serving(p);
      if accept.Waiting? {
        SetBit(status, Client);
        uv := uv.(inited := uv.inited + {Client}, frame := InListen);
        status := status | Mask(Client);
      }
    }

    /** `euv_pipe_read_start`. */
    method ReadStart(own: bool, ok: bool)
      modifies this`data, this`ownAlloc, this`uv, this`ledger
      ensures View() == StartRead(old(View()), own, ok)
    {
      if Client in uv.closing || uv.active {
        return;
      }
      var reader := ledger.readers;
      var lost := if data.Reader? then {data.id} else {};
      ledger := ledger.(readers := reader + 1, leaked := ledger.leaked + lost);
      if ok && Client in uv.inited {
        data := Reader(reader);
        ownAlloc := own;
        uv := uv.(active := true);
      } else {
        data := Nothing;
        ledger := ledger.(readerFrees := ledger.readerFrees + [reader]);
      }
    }

    /** `euv_pipe_read_stop`. */
    method ReadStop()
      modifies this`data, this`uv, this`ledger
      ensures View() == StopRead(old(View()))
    {
      if Client in uv.closing {
        return;
      }
      match data {
        case Nothing =>
        case Reader(id) => ledger := ledger.(readerFrees := ledger.readerFrees + [id]);
        case Handle => uv := uv.(fault := true);
      }
      data := Nothing;
      uv := uv.(active := false);
    }

    /** `euv_pipe_disconnect`. */
    method Disconnect()
      modifies this`data, this`uv, this`ledger
      ensures View() == DoDisconnect(old(View()))
    {
      if Client in uv.closing {
        return;
      }
      ReadStop();
      data := Handle;
      UvClosePipe(Client);
    }

    /** `euv_pipe_close_with_cb`. */
    method CloseWithCb(cb: bool)
      modifies this`hasCloseCb, this`data, this`uv, this`ledger
      ensures View() == DoClose(old(View()), cb)
    {
      hasCloseCb := cb;
      if mode.Unknown? {
        UvClosePipe(Local);
        if rpmsg {
          UvClosePipe(Rpmsg);
        }
        return;
      }
      if mode.which in uv.closing {
        return;
      }
      Disconnect();
      UvClosePipe(mode.which);
    }

    /** `euv_pipe_close2`. */
    method Close2()
      modifies this`uv
      ensures View() == DoClose2(old(View()))
    {
      if mode.Unknown? || Other(mode.which) in uv.closing {
        return;
      }
      UvClosePipe(Other(mode.which));
    }

    /** `euv_close_callback`: clears the pipe's bit and frees the handle with the last one. */
    method CloseCallback(p: Id)
      requires Valid()
      modifies this`status, this`uv, this`ledger
      ensures Valid() && View() == OnClosed(old(View()), p)
      ensures ledger.frees == old(ledger).frees || ledger.frees == old(ledger).frees + 1
      ensures ledger.closeCbs ==
              old(ledger).closeCbs + (if hasCloseCb && ledger.frees > old(ledger).frees then 1 else 0)
    {
      uv := uv.(pendingClose := uv.pendingClose - {p});
      if p.Client? && !data.Handle? {
        uv := uv.(fault := uv.fault || data.Reader?);
        return;
      }
      ClearBit(status, p);
      status := status & !Mask(p);
      NoBits(status);
      if status == 0 {
        ledger := ledger.(closeCbs := ledger.closeCbs + (if hasCloseCb then 1 else 0), frees := ledger.frees + 1);
      }
    }
  }

  /** The status word is zero exactly when no pipe bit is set. */
  lemma {:induction false} NoBits(status: bv8)
    requires status < 8
    ensures status == 0 <==> PipesOf(status) == {}
  {
    if status != 0 {
      var p := if status & 1 != 0 then Client else if status & 2 != 0 then Local else Rpmsg;
      assert p in PipesOf(status);
    }
  }
}
