/** What a pipe handle promises over every run without misuse, and when it does not. */
module PipeTheorems {
  import opened Pipe
  import opened Seqs

  ghost predicate ValidRun(s: State, ls: seq<Label>)
    decreases |ls|
  {
    ls == [] || (Enabled(s, ls[0]) && !Misuse(s, ls[0]) && ValidRun(Apply(s, ls[0]), ls[1..]))
  }

  ghost function Final(s: State, ls: seq<Label>): State
    requires ValidRun(s, ls)
    decreases |ls|
  {
    if ls == [] then s else Final(Apply(s, ls[0]), ls[1..])
  }

  /** Reached from `euv_pipe_open` or `euv_pipe_connect` by calls and callbacks. */
  ghost predicate Reachable(s: State) { exists first, ls :: Leads(first, ls, s) }

  ghost predicate Leads(first: State, ls: seq<Label>, s: State) {
    && (exists rpmsg :: first == Opened(rpmsg) || first == Connected(rpmsg))
    && ValidRun(first, ls) && s == Final(first, ls)
  }

  lemma {:induction false} RunInv(s: State, ls: seq<Label>)
    requires Inv(s) && ValidRun(s, ls)
    ensures Inv(Final(s, ls))
    decreases |ls|
  {
    if ls == [] {
    } else {
      StepInv(s, ls[0]);
      RunInv(Apply(s, ls[0]), ls[1..]);
    }
  }

  lemma {:induction false} ReachableInv(s: State)
    requires Reachable(s)
    ensures Inv(s)
  {
    var first, ls :| Leads(first, ls, s);
    var rpmsg :| first == Opened(rpmsg) || first == Connected(rpmsg);
    OpenedInv(rpmsg);
    RunInv(first, ls);
  }

  lemma {:induction false} RunAppend(s: State, ls: seq<Label>, l: Label)
    requires ValidRun(s, ls) && Enabled(Final(s, ls), l) && !Misuse(Final(s, ls), l)
    ensures ValidRun(s, ls + [l]) && Final(s, ls + [l]) == Apply(Final(s, ls), l)
    decreases |ls|
  {
    if ls == [] {
      assert [l][1..] == [];
    } else {
      RunAppend(Apply(s, ls[0]), ls[1..], l);
      assert (ls + [l])[1..] == ls[1..] + [l];
    }
  }

  lemma {:induction false} Go(s: State, l: Label) returns (r: State)
    requires Reachable(s) && Enabled(s, l) && !Misuse(s, l)
    ensures Reachable(r) && r == Apply(s, l)
  {
    r := Apply(s, l);
    var first, ls :| Leads(first, ls, s);
    RunAppend(first, ls, l);
    assert Leads(first, ls + [l], r);
  }

  lemma {:induction false} Begin(rpmsg: bool)
    ensures Reachable(Opened(rpmsg)) && Reachable(Connected(rpmsg))
  {
    assert Leads(Opened(rpmsg), [], Opened(rpmsg)) && Leads(Connected(rpmsg), [], Connected(rpmsg));
  }

  /** The handle is freed at most once, exactly when every initialised pipe has been closed and
      called back; a pending close callback belongs to a pipe whose bit is still set. */
  lemma {:induction false} FreedOnceWithLastBit(s: State)
    requires Reachable(s)
    ensures s.ledger.frees <= 1 && s.ledger.closeCbs <= s.ledger.frees && !s.uv.fault
    ensures Freed(s) <==> s.status == {}
    ensures Freed(s) <==> s.uv.closing == s.uv.inited && s.uv.pendingClose == {}
    ensures s.uv.pendingClose <= s.status
  {
    ReachableInv(s);
    NoBitsLeft(s.uv.inited, s.status, s.uv.closing, s.uv.pendingClose, s.ledger.frees);
  }

  lemma {:induction false} NoBitsLeft(inited: set<Id>, status: set<Id>, closing: set<Id>, pending: set<Id>, frees: nat)
    requires Bits(inited, status, closing, pending, frees)
    ensures frees > 0 <==> closing == inited && pending == {}
    ensures pending <= status
  {
    if status == {} {
      forall p | p in inited ensures p in closing && p !in pending {
        assert p !in status;
      }
    }
  }

  // ----- The caller's close callback -----

  /** The last close of a run carried a callback. */
  function LastCloseHasCb(ls: seq<Label>): bool {
    if ls == [] then false
    else if ls[|ls| - 1].Close? then ls[|ls| - 1].cb
    else LastCloseHasCb(ls[..|ls| - 1])
  }

  lemma {:induction false} RunSplit(s: State, ls: seq<Label>)
    requires ls != [] && ValidRun(s, ls)
    ensures var init, l := ls[..|ls| - 1], ls[|ls| - 1];
            && ValidRun(s, init) && Enabled(Final(s, init), l) && !Misuse(Final(s, init), l)
            && Final(s, ls) == Apply(Final(s, init), l)
    decreases |ls|
  {
    var init := ls[..|ls| - 1];
    if |ls| == 1 {
      assert init == [] && ls[1..] == [];
    } else {
      RunSplit(Apply(s, ls[0]), ls[1..]);
      assert init[0] == ls[0] && init[1..] == ls[1..][..|ls| - 2];
      assert ls[1..][|ls| - 2] == ls[|ls| - 1];
    }
  }

  lemma {:induction false} OnlyCloseSetsCb(s: State, l: Label)
    requires Enabled(s, l)
    ensures Apply(s, l).hasCloseCb == if l.Close? then l.cb else s.hasCloseCb
  {
    match l
    case Disconnect => DisconnectKeepsCb(s);
    case Close(cb) =>
      DisconnectKeepsCb(s.(hasCloseCb := cb));
    case CloseDone(p) => ClosedKeepsCb(s, p);
    case _ =>
  }

  lemma {:induction false} DisconnectKeepsCb(s: State)
    ensures DoDisconnect(s).hasCloseCb == s.hasCloseCb
  {
  }

  lemma {:induction false} ClosedKeepsCb(s: State, p: Id)
    ensures OnClosed(s, p).hasCloseCb == s.hasCloseCb
  {
  }

  lemma {:induction false} CbIsLast(first: State, ls: seq<Label>)
    requires ValidRun(first, ls) && !first.hasCloseCb
    ensures Final(first, ls).hasCloseCb == LastCloseHasCb(ls)
    decreases |ls|
  {
    if ls == [] {
    } else {
      RunSplit(first, ls);
      CbIsLast(first, ls[..|ls| - 1]);
      OnlyCloseSetsCb(Final(first, ls[..|ls| - 1]), ls[|ls| - 1]);
    }
  }

  /** Over every run: the close callback has run if and only if the handle is freed and the last close of the
      run carried one; it has then run exactly once. */
  lemma {:induction false} CloseCallbackRunsIff(first: State, ls: seq<Label>, s: State)
    requires Leads(first, ls, s)
    ensures s.ledger.closeCbs == if Freed(s) && LastCloseHasCb(ls) then 1 else 0
  {
    var rpmsg :| first == Opened(rpmsg) || first == Connected(rpmsg);
    OpenedInv(rpmsg);
    RunInv(first, ls);
    CbIsLast(first, ls);
  }

  /** A freed handle has nothing outstanding. */
  lemma {:induction false} FreedIsQuiet(s: State)
    requires Inv(s) && Freed(s)
    ensures s.status == {} && s.uv.pendingClose == {} && s.uv.closing == s.uv.inited
    ensures s.uv.frame.Idle? && !s.uv.connecting && s.uv.writes == 0 && !s.uv.active
  {
    NoBitsLeft(s.uv.inited, s.status, s.uv.closing, s.uv.pendingClose, s.ledger.frees);
  }

  /** After the free nothing refers to the handle: no callback of any kind is still to come. */
  lemma {:induction false} NothingAfterFree(s: State, l: Label)
    requires Reachable(s) && Freed(s)
    ensures !Enabled(s, l)
  {
    ReachableInv(s);
    FreedIsQuiet(s);
  }

  /** Callbacks that libuv still owes. */
  predicate IsCallback(l: Label) {
    l.ListenDone? || l.ConnectDone? || l.ReadDone? || l.WriteDone? || l.CloseDone?
  }

  /** Once libuv has run everything it owes, the handle is freed if and only if every pipe was
      closed. */
  lemma {:induction false} QuiescentFreedIffAllClosed(s: State)
    requires Reachable(s) && forall l :: IsCallback(l) ==> !Enabled(s, l)
    ensures Freed(s) <==> s.uv.closing == s.uv.inited
  {
    ReachableInv(s);
    NothingOwed(s);
    NoBitsLeft(s.uv.inited, s.status, s.uv.closing, s.uv.pendingClose, s.ledger.frees);
  }

  lemma {:induction false} NothingOwed(s: State)
    requires forall l :: IsCallback(l) ==> !Enabled(s, l)
    ensures s.uv.pendingClose == {}
  {
    assert IsCallback(ListenDone) && IsCallback(ReadDone) && IsCallback(WriteDone) && IsCallback(ConnectDone);
    assert !Enabled(s, ListenDone) && !Enabled(s, ReadDone);
    assert s.uv.frame.Idle?;
    assert !Enabled(s, WriteDone) && !Enabled(s, ConnectDone);
    forall p ensures p !in s.uv.pendingClose {
      assert IsCallback(CloseDone(p));
    }
  }

  /** `euv_pipe_close` closes every pipe of a server handle unless the build has RPMSG, a
      connection has been accepted and `euv_pipe_close2` has not closed the unused server. */
  lemma {:induction false} CloseIsCompleteIff(s: State, cb: bool)
    requires Reachable(s) && s.server && !Freed(s) && !Misuse(s, Close(cb))
    ensures var r := Apply(s, Close(cb));
            r.uv.closing == r.uv.inited <==> s.mode.Unknown? || !s.rpmsg || Other(s.mode.which) in s.uv.closing
  {
    ReachableInv(s);
    if s.mode.Unknown? {
      CloseUnknown(s, cb);
    } else {
      CloseServingIff(s, cb);
    }
  }

  lemma {:induction false} CloseUnknown(s: State, cb: bool)
    requires Inv(s) && s.server && s.mode.Unknown?
    ensures DoClose(s, cb).uv.closing == DoClose(s, cb).uv.inited
  {
    var r := DoClose(s, cb);
    assert Client !in s.uv.inited;
    forall p | p in r.uv.inited ensures p in r.uv.closing {
      assert p == Local || p == Rpmsg;
    }
  }

  lemma {:induction false} CloseServingIff(s: State, cb: bool)
    requires Inv(s) && s.server && s.mode.Serving?
    ensures var r := DoClose(s, cb);
            r.uv.closing == r.uv.inited <==> !s.rpmsg || Other(s.mode.which) in s.uv.closing
  {
    var r := DoClose(s, cb);
    CloseServingSets(s, cb);
    ThreePipes(s.uv.inited, s.uv.closing, s.mode.which, s.rpmsg);
  }

  lemma {:induction false} CloseServingSets(s: State, cb: bool)
    requires Inv(s) && s.server && s.mode.Serving?
    ensures var r := DoClose(s, cb);
            r.uv.inited == s.uv.inited && r.uv.closing == s.uv.closing + {Client, s.mode.which}
  {
    if s.mode.which in s.uv.closing {
      assert Client in s.uv.closing;
    } else {
      DisconnectKeeps(s.(hasCloseCb := cb));
    }
  }

  lemma {:induction false} ThreePipes(inited: set<Id>, closing: set<Id>, p: Id, rpmsg: bool)
    requires !p.Client? && {Client, p, Local} <= inited && closing <= inited && (Rpmsg in inited <==> rpmsg)
    ensures closing + {Client, p} == inited <==> !rpmsg || Other(p) in closing
  {
    if closing + {Client, p} != inited {
      var q :| q in inited && q !in closing + {Client, p};
      assert q == Other(p);
    }
  }

  // ----- What each close closes -----

  /** The last connection of a run came in on `p`. */
  predicate LastListenOn(ls: seq<Label>, p: Id) {
    ls != [] &&
    (if ls[|ls| - 1].Listen? then ls[|ls| - 1].which == p else LastListenOn(ls[..|ls| - 1], p))
  }

  lemma {:induction false} OnlyListenSetsMode(s: State, l: Label)
    requires Enabled(s, l)
    ensures Apply(s, l).mode == (if l.Listen? then Serving(l.which) else s.mode) && Apply(s, l).server == s.server
  {
    match l
    case ReadStop => StopKeeps(s);
    case Disconnect => DisconnectKeeps(s);
    case Close(cb) => CloseKeepsMode(s, cb);
    case CloseDone(p) => assert OnClosed(s, p).mode == s.mode && OnClosed(s, p).server == s.server;
    case _ =>
  }

  lemma {:induction false} CloseKeepsMode(s: State, cb: bool)
    ensures DoClose(s, cb).mode == s.mode && DoClose(s, cb).server == s.server
  {
    DisconnectKeeps(s.(hasCloseCb := cb));
  }

  lemma {:induction false} ModeIsLastListen(rpmsg: bool, ls: seq<Label>)
    requires ValidRun(Opened(rpmsg), ls)
    ensures Final(Opened(rpmsg), ls).server
    ensures forall p :: Final(Opened(rpmsg), ls).mode == Serving(p) <==> LastListenOn(ls, p)
    decreases |ls|
  {
    if ls == [] {
    } else {
      RunSplit(Opened(rpmsg), ls);
      ModeIsLastListen(rpmsg, ls[..|ls| - 1]);
      OnlyListenSetsMode(Final(Opened(rpmsg), ls[..|ls| - 1]), ls[|ls| - 1]);
    }
  }

  /** What a close of a server handle closes is decided by the connections of the run: the client pipe and the
      server that took the last one, and before any connection every server. */
  lemma {:induction false} CloseClosesWhatServed(rpmsg: bool, ls: seq<Label>, cb: bool)
    requires ValidRun(Opened(rpmsg), ls)
    requires var s := Final(Opened(rpmsg), ls); !Freed(s) && !Misuse(s, Close(cb))
    ensures var s := Final(Opened(rpmsg), ls);
            var r := Apply(s, Close(cb));
            && (forall p :: LastListenOn(ls, p) ==> r.uv.closing == s.uv.closing + {Client, p})
            && ((forall p :: !LastListenOn(ls, p)) ==> r.uv.closing == s.uv.inited)
  {
    var s := Final(Opened(rpmsg), ls);
    OpenedInv(rpmsg);
    RunInv(Opened(rpmsg), ls);
    ModeIsLastListen(rpmsg, ls);
    if s.mode.Serving? {
      assert LastListenOn(ls, s.mode.which);
      CloseServingSets(s, cb);
    } else {
      CloseUnknown(s, cb);
      assert DoClose(s, cb).uv.inited == s.uv.inited;
    }
  }

  /** `euv_pipe_close2` closes the server that did not take the last connection, and only that; a close after
      it is complete.  Before any connection it closes nothing. */
  lemma {:induction false} Close2ClosesUnused(rpmsg: bool, ls: seq<Label>, cb: bool)
    requires ValidRun(Opened(rpmsg), ls) && Enabled(Final(Opened(rpmsg), ls), Close2)
    ensures var s := Final(Opened(rpmsg), ls);
            var r := Apply(s, Close2);
            && (LastListenOn(ls, Local) ==> r.uv.closing == s.uv.closing + {Rpmsg})
            && (LastListenOn(ls, Rpmsg) ==> r.uv.closing == s.uv.closing + {Local})
            && ((forall p :: !LastListenOn(ls, p)) ==> r == s)
            && (LastListenOn(ls, Local) || LastListenOn(ls, Rpmsg) ==> DoClose(r, cb).uv.closing == r.uv.inited)
  {
    var s := Final(Opened(rpmsg), ls);
    OpenedInv(rpmsg);
    RunInv(Opened(rpmsg), ls);
    ModeIsLastListen(rpmsg, ls);
    if s.mode.Serving? {
      assert LastListenOn(ls, s.mode.which);
      CompleteAfterClose2(s, cb);
    }
  }

  lemma {:induction false} CompleteAfterClose2(s: State, cb: bool)
    requires Inv(s) && Enabled(s, Close2) && s.server && s.mode.Serving?
    ensures var r := DoClose2(s);
            r.uv.closing == s.uv.closing + {Other(s.mode.which)} && DoClose(r, cb).uv.closing == r.uv.inited
  {
    var r := DoClose2(s);
    StepInv(s, Close2);
    assert r.mode == s.mode && r.server == s.server && r.rpmsg == s.rpmsg;
    CloseServingIff(r, cb);
    CloseServingSets(r, cb);
  }

  /** A disconnect closes the client pipe and no other, and the handle is left to its servers. */
  lemma {:induction false} DisconnectClosesClient(s: State)
    requires Reachable(s) && !Freed(s) && !Misuse(s, Disconnect)
    ensures var r := Apply(s, Disconnect);
            r.uv.closing == s.uv.closing + {Client} && !r.uv.active && r.status == s.status && r.data.Handle?
  {
    ReachableInv(s);
    StepInv(s, Disconnect);
    DisconnectKeeps(s);
    DisconnectKeepsBits(s);
  }

  lemma {:induction false} DisconnectKeepsBits(s: State)
    ensures DoDisconnect(s).status == s.status
  {
  }

  // ----- cli_pipe.data, readers and buffers -----

  /** `cli_pipe.data` is null, a live reader while the pipe is not closing, or the handle while it
      is closing; so `read_stop` frees readers only, and each of them once. */
  lemma {:induction false} DataOwner(s: State)
    requires Reachable(s)
    ensures match s.data
            case Nothing => Client !in s.uv.closing
            case Reader(id) =>
              && Client !in s.uv.closing && id < s.ledger.readers
              && id !in s.ledger.readerFrees && id !in s.ledger.leaked
            case Handle => Client in s.uv.closing
    ensures Distinct(s.ledger.readerFrees)
    ensures Freed(s) ==> forall id :: 0 <= id < s.ledger.readers ==> id in s.ledger.readerFrees || id in s.ledger.leaked
  {
    ReachableInv(s);
  }

  /** Stopping a read on an open client pipe frees its reader, if any, and ends the read; on a closing one it
      does nothing. */
  lemma {:induction false} StopFreesReader(s: State)
    requires Reachable(s) && !Freed(s)
    ensures var r := Apply(s, ReadStop);
            && (Client in s.uv.closing ==> r == s)
            && (Client !in s.uv.closing ==> r.data.Nothing? && !r.uv.active)
            && (s.data.Reader? ==> r.ledger.readerFrees == s.ledger.readerFrees + [s.data.id])
            && (!s.data.Reader? ==> r.ledger.readerFrees == s.ledger.readerFrees)
  {
    ReachableInv(s);
  }

  /** Starting a read on an open, idle client pipe puts a new reader in place and the pipe reads, if libuv
      accepts; otherwise the new reader is freed. */
  lemma {:induction false} StartReads(s: State, own: bool, ok: bool)
    requires Reachable(s) && !Freed(s) && Client in s.uv.inited && Client !in s.uv.closing && !s.uv.active
    ensures var r := Apply(s, ReadStart(own, ok));
            && r.ledger.readers == s.ledger.readers + 1
            && (ok ==> r.data == Reader(s.ledger.readers) && r.uv.active)
            && (!ok ==> r.data.Nothing? && !r.uv.active && s.ledger.readers in r.ledger.readerFrees)
  {
    ReachableInv(s);
  }

  /** A reader is lost exactly when reading is restarted after libuv stopped it by itself (end of
      file or error) and nobody called `euv_pipe_read_stop`. */
  lemma {:induction false} ReaderLeaksIff(s: State, l: Label)
    requires Reachable(s) && Enabled(s, l)
    ensures Apply(s, l).ledger.leaked != s.ledger.leaked <==> l.ReadStart? && s.data.Reader? && !s.uv.active
  {
    ReachableInv(s);
    if l.ReadStart? {
      StartLeaksIff(s, l.ownAlloc, l.ok);
    } else {
      OnlyStartLeaks(s, l);
    }
  }

  lemma {:induction false} OnlyStartLeaks(s: State, l: Label)
    requires Enabled(s, l) && !l.ReadStart?
    ensures Apply(s, l).ledger.leaked == s.ledger.leaked
  {
    match l
    case ReadStop => StopKeeps(s);
    case Disconnect => DisconnectKeeps(s);
    case Close(cb) => CloseLeaksNothing(s, cb);
    case _ =>
  }

  lemma {:induction false} CloseLeaksNothing(s: State, cb: bool)
    ensures DoClose(s, cb).ledger.leaked == s.ledger.leaked
  {
    DisconnectKeeps(s.(hasCloseCb := cb));
  }

  lemma {:induction false} StartLeaksIff(s: State, ownAlloc: bool, ok: bool)
    requires Ownership(s) && Readers(s.ledger.readers, s.ledger.readerFrees, s.ledger.leaked, s.data)
    ensures StartRead(s, ownAlloc, ok).ledger.leaked != s.ledger.leaked <==> s.data.Reader? && !s.uv.active
  {
    if s.data.Reader? && !s.uv.active {
      assert s.data.id in StartRead(s, ownAlloc, ok).ledger.leaked;
    }
  }

  /** Outside a read callback every buffer the framework allocated has been freed, once, in
      order, whatever read_cb did to the pipe. */
  lemma {:induction false} BuffersFreedOnce(s: State)
    requires Reachable(s)
    ensures !s.uv.frame.InRead? ==> s.ledger.bufferFrees == seq(s.ledger.buffers, i => i)
    ensures s.uv.frame.InRead? && s.uv.frame.buffer >= 0 ==>
              s.ledger.bufferFrees + [s.uv.frame.buffer] == seq(s.ledger.buffers, i => i)
  {
    ReachableInv(s);
  }

  lemma {:induction false} ReaderStays(s: State, l: Label, id: nat, own: bool)
    requires Enabled(s, l) && id < s.ledger.readers && (s.data == Reader(id) ==> s.ownAlloc == own)
    ensures var r := Apply(s, l); id < r.ledger.readers && (r.data == Reader(id) ==> r.ownAlloc == own)
  {
    match l
    case ReadStart(_, _) =>
    case ReadStop => StopReader(s);
    case Read(eof, failed) => OnReadReader(s, eof, failed);
    case ReadDone => assert EndRead(s).data == s.data && EndRead(s).ledger.readers == s.ledger.readers;
    case Disconnect => DisconnectReader(s);
    case Close(cb) => CloseReader(s, cb);
    case CloseDone(p) => ClosedReader(s, p);
    case _ =>
  }

  /** What becomes of a reader when it is not replaced. */
  ghost predicate SameReader(s: State, r: State) {
    r.ledger.readers == s.ledger.readers && r.ownAlloc == s.ownAlloc && (r.data == s.data || !r.data.Reader?)
  }

  lemma {:induction false} StopReader(s: State)
    ensures SameReader(s, StopRead(s))
  {
  }

  lemma {:induction false} OnReadReader(s: State, eof: bool, failed: bool)
    ensures SameReader(s, OnRead(s, eof, failed))
  {
  }

  lemma {:induction false} DisconnectReader(s: State)
    ensures SameReader(s, DoDisconnect(s))
  {
    StopReader(s);
  }

  lemma {:induction false} CloseReader(s: State, cb: bool)
    ensures SameReader(s, DoClose(s, cb))
  {
    DisconnectReader(s.(hasCloseCb := cb));
  }

  lemma {:induction false} ClosedReader(s: State, p: Id)
    ensures SameReader(s, OnClosed(s, p))
  {
  }

  lemma {:induction false} ReaderKeepsAlloc(s: State, ls: seq<Label>, id: nat, own: bool)
    requires ValidRun(s, ls) && id < s.ledger.readers && (s.data == Reader(id) ==> s.ownAlloc == own)
    ensures Final(s, ls).data == Reader(id) ==> Final(s, ls).ownAlloc == own
    decreases |ls|
  {
    if ls == [] {
    } else {
      ReaderStays(s, ls[0], id, own);
      ReaderKeepsAlloc(Apply(s, ls[0]), ls[1..], id, own);
    }
  }

  /** Whose buffers a reader gets is decided by the call that started it: whatever happens in between, as
      long as that reader is in place a delivered buffer is the framework's, and so freed by it, if and
      only if the read was started without an allocator. */
  lemma {:induction false} BufferOwnerIff(s: State, own: bool, ls: seq<Label>, eof: bool, failed: bool)
    requires Reachable(s) && !Freed(s) && !s.uv.active && Client in s.uv.inited && Client !in s.uv.closing
    requires var r := Apply(s, ReadStart(own, true));
             ValidRun(r, ls) && Final(r, ls).data == r.data && Enabled(Final(r, ls), Read(eof, failed))
    ensures var r := Final(Apply(s, ReadStart(own, true)), ls);
            var t := Apply(r, Read(eof, failed));
            && t.uv.frame.InRead? && (t.uv.frame.buffer >= 0 <==> !own)
            && t.ledger.buffers == if own then r.ledger.buffers else r.ledger.buffers + 1
  {
    var r := Apply(s, ReadStart(own, true));
    ReachableInv(s);
    StepInv(s, ReadStart(own, true));
    RunInv(r, ls);
    ReaderKeepsAlloc(r, ls, s.ledger.readers, own);
  }

  /** A buffer always reaches a live reader. */
  lemma {:induction false} ReadFindsLiveReader(s: State, eof: bool, failed: bool)
    requires Reachable(s) && Enabled(s, Read(eof, failed))
    ensures s.data.Reader? && s.data.id !in s.ledger.readerFrees
    ensures Apply(s, Read(eof, failed)).uv.frame.InRead?
  {
    ReachableInv(s);
  }

  // ----- The connect request -----

  /** The request allocated by `euv_pipe_open` is freed by the first accept.  A freed server handle has
      lost it if and only if it never had a connection. */
  lemma {:induction false} RequestLeaksIff(s: State)
    requires Reachable(s) && Freed(s) && s.server
    ensures s.accept.Waiting? <==> s.mode.Unknown?
    ensures s.accept.Waiting? <==> Client !in s.uv.inited
  {
    ReachableInv(s);
    FreedIsQuiet(s);
  }

  // ----- The shortfalls happen -----

  /** Closing before the first connection frees the handle and loses the request. */
  lemma RequestLeakHappens() returns (s: State)
    ensures Reachable(s) && Freed(s) && s.server && s.accept.Waiting?
  {
    Begin(false);
    s := Go(Opened(false), Close(false));
    s := Go(s, CloseDone(Local));
    assert s.status == {};
  }

  /** A read restarted after end of file loses its reader. */
  lemma ReaderLeakHappens() returns (s: State)
    ensures Reachable(s) && s.ledger.leaked == {0}
  {
    Begin(false);
    s := Go(Connected(false), ConnectDone);
    s := Go(s, ReadStart(false, true));
    s := Go(s, Read(true, false));
    s := Go(s, ReadDone);
    s := Go(s, ReadStart(false, true));
  }

  /** Callbacks close nothing, so a handle with an open pipe is not freed until somebody closes it. */
  lemma {:induction false} UnclosedNeverFreed(s: State, ls: seq<Label>)
    requires Inv(s) && ValidRun(s, ls) && s.uv.closing != s.uv.inited
    requires forall i :: 0 <= i < |ls| ==> IsCallback(ls[i])
    ensures !Freed(Final(s, ls))
    decreases |ls|
  {
    if ls == [] {
      NoBitsLeft(s.uv.inited, s.status, s.uv.closing, s.uv.pendingClose, s.ledger.frees);
    } else {
      StepInv(s, ls[0]);
      CallbackClosesNothing(s, ls[0]);
      assert forall i :: 0 <= i < |ls[1..]| ==> ls[1..][i] == ls[i + 1];
      UnclosedNeverFreed(Apply(s, ls[0]), ls[1..]);
    }
  }

  lemma {:induction false} CallbackClosesNothing(s: State, l: Label)
    requires Enabled(s, l) && IsCallback(l)
    ensures Apply(s, l).uv.closing == s.uv.closing && Apply(s, l).uv.inited == s.uv.inited
  {
    match l
    case CloseDone(p) => ClosedKeeps(s, p);
    case ReadDone => assert EndRead(s).uv == s.uv.(frame := Idle, active := s.uv.active && !s.uv.frame.failed);
    case _ =>
  }

  lemma {:induction false} ClosedKeeps(s: State, p: Id)
    ensures OnClosed(s, p).uv.closing == s.uv.closing && OnClosed(s, p).uv.inited == s.uv.inited
  {
  }

  /** With RPMSG, closing after a connection leaves such a handle. */
  lemma {:induction false} IncompleteCloseHappens(cb: bool) returns (s: State)
    ensures Reachable(s) && s.uv.closing != s.uv.inited
  {
    Begin(true);
    s := Go(Opened(true), Listen(Local));
    s := Go(s, ListenDone);
    CloseIsCompleteIff(s, cb);
    s := Go(s, Close(cb));
  }

  /** Each misuse can come up in a reachable state, and faults there. */
  lemma {:induction false} MisusesHappen(rpmsg: bool, cb: bool)
    ensures Reachable(Opened(rpmsg)) && Apply(Opened(rpmsg), Disconnect).uv.fault
    ensures Reachable(Connected(rpmsg)) && Apply(Connected(rpmsg), Close(cb)).uv.fault
    ensures Reachable(Connected(true)) && Apply(Connected(true), Close2).uv.fault
  {
    Begin(rpmsg);
    Begin(true);
    OpenedInv(rpmsg);
    OpenedInv(true);
    FaultIffMisuse(Opened(rpmsg), Disconnect);
    FaultIffMisuse(Connected(rpmsg), Close(cb));
    FaultIffMisuse(Connected(true), Close2);
  }

  lemma {:induction false} DoubleCloseHappens(rpmsg: bool, cb: bool) returns (s: State)
    ensures Reachable(s) && Enabled(s, Close(cb)) && Apply(s, Close(cb)).uv.fault
  {
    Begin(rpmsg);
    s := Go(Opened(rpmsg), Close(cb));
    ReachableInv(s);
    FaultIffMisuse(s, Close(cb));
  }
}
