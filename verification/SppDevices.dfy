/** The SPP device table (tools/spp.c) over pseudo-terminal handles (framework/common/euv_pty.c).

    Each device owns one pty; the pty owns at most one reader.  A read error or a disconnect
    event closes the pty; libuv runs the close callback later and delivers no read after
    `uv_close`.  One label is one message or callback of the loop thread. */
module SppDevices {
  import opened Seqs

  datatype Device = Device(pty: nat, port: int)

  datatype State = State(
    devices: seq<Device>,
    ptys: nat,                // handles allocated so far: 0..ptys
    reading: set<nat>,        // uv_tty.data holds a reader (a reader is named by its pty)
    active: set<nat>,         // uv_is_active
    pendingClose: set<nat>,   // uv_close called, callback still to come
    closes: seq<nat>,         // calls of uv_close
    readers: set<nat>,        // ptys for which a reader was allocated
    readerFrees: seq<nat>,
    ptyFrees: seq<nat>,
    missed: bool)             // a read error found no device

  const INIT := State([], 0, {}, {}, {}, [], {}, [], [], false)

  datatype Label =
    | Open(port: int, ok: bool)       // pty_open_process; ok: uv_read_start succeeds
    | ReadError(pty: nat)             // pty_read_cb with size < 0
    | Disconnected(port: int)         // connection_state_process, state DISCONNECTED
    | Closed(pty: nat)                // uv_close_callback

  predicate Enabled(s: State, l: Label) {
    match l
    case Open(_, _) => true
    case ReadError(p) => p in s.active && p !in s.closes
    case Disconnected(_) => true
    case Closed(p) => p in s.pendingClose
  }

  /** `find_pty_by_handle`: the first device whose pty is `p`, else the length. */
  function IndexOfPty(ds: seq<Device>, p: nat): (k: nat)
    ensures k <= |ds|
    ensures k < |ds| ==> ds[k].pty == p
    ensures forall i :: 0 <= i < k ==> ds[i].pty != p
  {
    if ds == [] || ds[0].pty == p then 0
    else
      var k := IndexOfPty(ds[1..], p);
      assert forall i :: 0 < i < k + 1 ==> ds[i] == ds[1..][i - 1];
      k + 1
  }

  /** `find_pty_by_port`. */
  function IndexOfPort(ds: seq<Device>, port: int): (k: nat)
    ensures k <= |ds|
    ensures k < |ds| ==> ds[k].port == port
    ensures forall i :: 0 <= i < k ==> ds[i].port != port
  {
    if ds == [] || ds[0].port == port then 0
    else
      var k := IndexOfPort(ds[1..], port);
      assert forall i :: 0 < i < k + 1 ==> ds[i] == ds[1..][i - 1];
      k + 1
  }

  /** `euv_pty_close` of the device at `k`, then `list_delete` and `free`. */
  function CloseDevice(s: State, k: nat): State
    requires k < |s.devices|
  {
    var p := s.devices[k].pty;
    s.(devices := Without(s.devices, k), closes := s.closes + [p], pendingClose := s.pendingClose + {p},
       active := s.active - {p})
  }

  function OpenDevice(s: State, port: int, ok: bool): State {
    var p := s.ptys;
    var r := s.(devices := s.devices + [Device(p, port)], ptys := p + 1, readers := s.readers + {p});
    if ok then r.(reading := s.reading + {p}, active := s.active + {p})
    else r.(readerFrees := s.readerFrees + [p])
  }

  /** `euv_pty_read_start_`. */
  function StartRead(s: State, p: nat, ok: bool): State {
    if p in s.active then s
    else if ok then s.(reading := s.reading + {p}, active := s.active + {p})
    else s.(reading := s.reading - {p}, readerFrees := s.readerFrees + [p])
  }

  /** `euv_pty_read_stop`. */
  function StopRead(s: State, p: nat): State {
    var r := s.(reading := s.reading - {p}, active := s.active - {p});
    if p in s.reading then r.(readerFrees := s.readerFrees + [p]) else r
  }

  function OnReadError(s: State, p: nat): State {
    var r := StopRead(s, p);
    var k := IndexOfPty(r.devices, p);
    if k == |r.devices| then r.(missed := true) else CloseDevice(r, k)
  }

  function OnDisconnected(s: State, port: int): State {
    var k := IndexOfPort(s.devices, port);
    if k == |s.devices| then s else CloseDevice(s, k)
  }

  /** `uv_close_callback` of the pty. */
  function OnClosed(s: State, p: nat): State {
    var r := s.(pendingClose := s.pendingClose - {p}, ptyFrees := s.ptyFrees + [p], reading := s.reading - {p});
    if p in s.reading then r.(readerFrees := s.readerFrees + [p]) else r
  }

  function Apply(s: State, l: Label): State
    requires Enabled(s, l)
  {
    match l
    case Open(port, ok) => OpenDevice(s, port, ok)
    case ReadError(p) => OnReadError(s, p)
    case Disconnected(port) => OnDisconnected(s, port)
    case Closed(p) => OnClosed(s, p)
  }

  // ----- The invariant -----

  /** The table holds exactly the handles that are allocated and not closed, each once. */
  ghost predicate Table(ds: seq<Device>, ptys: nat, closes: seq<nat>) {
    && (forall i, j :: 0 <= i < j < |ds| ==> ds[i].pty != ds[j].pty)
    && (forall i :: 0 <= i < |ds| ==> ds[i].pty < ptys && ds[i].pty !in closes)
    && (forall p :: 0 <= p < ptys && p !in closes ==> exists i :: 0 <= i < |ds| && ds[i].pty == p)
    && Distinct(closes)
    && (forall p :: p in closes ==> p < ptys)
  }

  /** A closed handle is waiting for its callback or freed, never both. */
  ghost predicate Handles(closes: seq<nat>, pending: set<nat>, frees: seq<nat>) {
    && Distinct(frees)
    && (forall p :: p in closes <==> p in pending || p in frees)
    && (forall p :: p in pending ==> p !in frees)
  }

  /** A reader is held by its handle or freed, never both; a freed handle holds none. */
  ghost predicate Readers(readers: set<nat>, reading: set<nat>, frees: seq<nat>, ptyFrees: seq<nat>, ptys: nat) {
    && Distinct(frees)
    && (forall p :: p in readers <==> p in reading || p in frees)
    && (forall p :: p in reading ==> p !in frees && p !in ptyFrees)
    && (forall p: nat :: p in readers <==> p < ptys)
  }

  ghost predicate Inv(s: State) {
    && !s.missed
    && Table(s.devices, s.ptys, s.closes)
    && Handles(s.closes, s.pendingClose, s.ptyFrees)
    && Readers(s.readers, s.reading, s.readerFrees, s.ptyFrees, s.ptys)
    && (forall p :: p in s.active ==> p in s.reading && p !in s.closes)
  }

  lemma {:induction false} TableWithout(ds: seq<Device>, ptys: nat, closes: seq<nat>, k: nat)
    requires Table(ds, ptys, closes) && k < |ds|
    ensures Table(Without(ds, k), ptys, closes + [ds[k].pty])
  {
    var p, r := ds[k].pty, Without(ds, k);
    WithoutAt(ds, k);
    forall i, j | 0 <= i < j < |r| ensures r[i].pty != r[j].pty {
      assert r[i] == ds[Skip(i, k)] && r[j] == ds[Skip(j, k)];
    }
    forall q | 0 <= q < ptys && q !in closes + [p] ensures exists i :: 0 <= i < |r| && r[i].pty == q {
      StillListed(ds, k, q);
    }
  }

  lemma {:induction false} StillListed(ds: seq<Device>, k: nat, q: nat)
    requires k < |ds| && ds[k].pty != q && exists i :: 0 <= i < |ds| && ds[i].pty == q
    ensures exists i :: 0 <= i < |Without(ds, k)| && Without(ds, k)[i].pty == q
  {
    var i :| 0 <= i < |ds| && ds[i].pty == q;
    assert Without(ds, k)[if i < k then i else i - 1] == ds[i];
  }

  lemma {:induction false} CloseDeviceInv(s: State, k: nat)
    requires Inv(s) && k < |s.devices|
    ensures Inv(CloseDevice(s, k))
  {
    TableWithout(s.devices, s.ptys, s.closes, k);
    var p := s.devices[k].pty;
    assert p !in s.closes && p !in s.ptyFrees;
  }

  lemma {:induction false} OpenInv(s: State, port: int, ok: bool)
    requires Inv(s)
    ensures Inv(OpenDevice(s, port, ok))
  {
    var ds, r := s.devices, s.devices + [Device(s.ptys, port)];
    forall q | 0 <= q < s.ptys + 1 && q !in s.closes ensures exists i :: 0 <= i < |r| && r[i].pty == q {
      if q == s.ptys {
        assert r[|ds|].pty == q;
      } else {
        var i :| 0 <= i < |ds| && ds[i].pty == q;
        assert r[i].pty == q;
      }
    }
  }

  lemma {:induction false} StopInv(s: State, p: nat)
    requires Inv(s)
    ensures Inv(StopRead(s, p))
  {
  }

  lemma {:induction false} ClosedInv(s: State, p: nat)
    requires Inv(s) && p in s.pendingClose
    ensures Inv(OnClosed(s, p))
  {
  }

  lemma {:induction false} StepInv(s: State, l: Label)
    requires Inv(s) && Enabled(s, l)
    ensures Inv(Apply(s, l))
  {
    match l
    case Open(port, ok) => OpenInv(s, port, ok);
    case ReadError(p) =>
      StopInv(s, p);
      var r := StopRead(s, p);
      assert p < r.ptys && p !in r.closes;
      CloseDeviceInv(r, IndexOfPty(r.devices, p));
    case Disconnected(port) =>
      var k := IndexOfPort(s.devices, port);
      if k < |s.devices| {
        CloseDeviceInv(s, k);
      }
    case Closed(p) => ClosedInv(s, p);
  }

  // ----- Every run -----

  ghost predicate ValidRun(s: State, ls: seq<Label>)
    decreases |ls|
  {
    ls == [] || (Enabled(s, ls[0]) && ValidRun(Apply(s, ls[0]), ls[1..]))
  }

  ghost function Final(s: State, ls: seq<Label>): State
    requires ValidRun(s, ls)
    decreases |ls|
  {
    if ls == [] then s else Final(Apply(s, ls[0]), ls[1..])
  }

  lemma {:induction false} RunInv(s: State, ls: seq<Label>)
    requires Inv(s) && ValidRun(s, ls)
    ensures Inv(Final(s, ls))
    decreases |ls|
  {
    if ls == [] {
    } else {
      StepInv(s, ls[0]);
      RunInv(Apply(s, ls[0]), ls[1..]);
    }
  }

  /** For every order of opens, read errors and disconnects: each pty is closed at most once and
      freed at most once, after it was closed; each reader is freed at most once, and before or
      together with its pty; the error path always finds its device. */
  lemma {:induction false} ClosedOnceFreedOnce(ls: seq<Label>)
    requires ValidRun(INIT, ls)
    ensures var s := Final(INIT, ls);
            && Distinct(s.closes) && Distinct(s.ptyFrees) && Distinct(s.readerFrees)
            && (forall p :: p in s.ptyFrees ==> p in s.closes && p in s.readerFrees)
            && (forall p :: p in s.closes ==> forall i :: 0 <= i < |s.devices| ==> s.devices[i].pty != p)
            && !s.missed
  {
    RunInv(INIT, ls);
  }

  /** Once libuv owes no callback, exactly the handles in the table are still allocated. */
  lemma {:induction false} NothingLeaks(ls: seq<Label>)
    requires ValidRun(INIT, ls) && Final(INIT, ls).pendingClose == {}
    ensures var s := Final(INIT, ls);
            forall p :: 0 <= p < s.ptys ==>
              (p !in s.ptyFrees <==> exists i :: 0 <= i < |s.devices| && s.devices[i].pty == p)
  {
    RunInv(INIT, ls);
  }

  // ----- Which device an event closes -----

  /** The ports of the opens of a run, in order: the pty of the `p`-th open is `p`. */
  function Opens(ls: seq<Label>): seq<int> {
    if ls == [] then []
    else if ls[|ls| - 1].Open? then Opens(ls[..|ls| - 1]) + [ls[|ls| - 1].port]
    else Opens(ls[..|ls| - 1])
  }

  /** Devices are listed in the order of their opens, each with the port of its open. */
  ghost predicate Ordered(ds: seq<Device>, ports: seq<int>) {
    && (forall i :: 0 <= i < |ds| ==> ds[i].pty < |ports| && ds[i].port == ports[ds[i].pty])
    && (forall i, j :: 0 <= i < j < |ds| ==> ds[i].pty < ds[j].pty)
  }

  lemma {:induction false} OrderedWithout(ds: seq<Device>, ports: seq<int>, k: nat)
    requires Ordered(ds, ports) && k < |ds|
    ensures Ordered(Without(ds, k), ports)
  {
    WithoutAt(ds, k);
    var r := Without(ds, k);
    forall i, j | 0 <= i < j < |r| ensures r[i].pty < r[j].pty {
      assert r[i] == ds[Skip(i, k)] && r[j] == ds[Skip(j, k)];
    }
  }

  lemma {:induction false} RunSplit(s: State, ls: seq<Label>)
    requires ls != [] && ValidRun(s, ls)
    ensures var init, l := ls[..|ls| - 1], ls[|ls| - 1];
            ValidRun(s, init) && Enabled(Final(s, init), l) && Final(s, ls) == Apply(Final(s, init), l)
    decreases |ls|
  {
    var init := ls[..|ls| - 1];
    if |ls| == 1 {
      assert init == [] && ls[1..] == [];
    } else {
      RunSplit(Apply(s, ls[0]), ls[1..]);
      assert init[0] == ls[0] && init[1..] == ls[1..][..|ls| - 2];
      assert ls[1..][|ls| - 2] == ls[|ls| - 1];
    }
  }

  lemma {:induction false} CloseOrdered(s: State, ports: seq<int>, k: nat)
    requires Ordered(s.devices, ports) && k < |s.devices|
    ensures Ordered(CloseDevice(s, k).devices, ports) && CloseDevice(s, k).ptys == s.ptys
  {
    OrderedWithout(s.devices, ports, k);
  }

  lemma {:induction false} OpenOrdered(s: State, ports: seq<int>, port: int, ok: bool)
    requires Ordered(s.devices, ports) && s.ptys == |ports|
    ensures var r := OpenDevice(s, port, ok); r.ptys == |ports| + 1 && Ordered(r.devices, ports + [port])
  {
    var ds := s.devices + [Device(s.ptys, port)];
    assert OpenDevice(s, port, ok).devices == ds;
    assert forall i :: 0 <= i < |s.devices| ==> ds[i] == s.devices[i];
  }

  lemma {:induction false} StopKeepsTable(s: State, p: nat)
    ensures StopRead(s, p).devices == s.devices && StopRead(s, p).ptys == s.ptys
  {
  }

  lemma {:induction false} OtherOrdered(s: State, ports: seq<int>, l: Label)
    requires Ordered(s.devices, ports) && Enabled(s, l) && !l.Open?
    ensures Ordered(Apply(s, l).devices, ports) && Apply(s, l).ptys == s.ptys
  {
    match l
    case ReadError(p) =>
      StopKeepsTable(s, p);
      var r := StopRead(s, p);
      var k := IndexOfPty(r.devices, p);
      if k < |r.devices| {
        CloseOrdered(r, ports, k);
      }
    case Disconnected(port) =>
      var k := IndexOfPort(s.devices, port);
      if k < |s.devices| {
        CloseOrdered(s, ports, k);
      }
    case Closed(p) =>
  }

  lemma {:induction false} RunOrdered(ls: seq<Label>)
    requires ValidRun(INIT, ls)
    ensures var s := Final(INIT, ls); s.ptys == |Opens(ls)| && Ordered(s.devices, Opens(ls))
    decreases |ls|
  {
    if ls == [] {
    } else {
      var init, l := ls[..|ls| - 1], ls[|ls| - 1];
      RunSplit(INIT, ls);
      RunOrdered(init);
      if l.Open? {
        OpenOrdered(Final(INIT, init), Opens(init), l.port, l.ok);
      } else {
        OtherOrdered(Final(INIT, init), Opens(init), l);
      }
    }
  }

  /** Exactly the device of pty `p` leaves, and `p` is closed. */
  ghost predicate ClosesOnly(s: State, r: State, p: nat) {
    && r.closes == s.closes + [p] && r.ptys == s.ptys
    && (exists d :: d in s.devices && d.pty == p)
    && (forall d :: d in r.devices <==> d in s.devices && d.pty != p)
  }

  lemma {:induction false} CloseDeviceOnly(s: State, k: nat)
    requires Inv(s) && k < |s.devices|
    ensures ClosesOnly(s, CloseDevice(s, k), s.devices[k].pty)
  {
    var ds, r, p := s.devices, Without(s.devices, k), s.devices[k].pty;
    WithoutAt(ds, k);
    forall d ensures d in r <==> d in ds && d.pty != p {
      if d in r {
        var i :| 0 <= i < |r| && r[i] == d;
        assert r[i] == ds[Skip(i, k)];
        assert if i < k then ds[i].pty != ds[k].pty else ds[k].pty != ds[i + 1].pty;
      }
      if d in ds && d.pty != p {
        var i :| 0 <= i < |ds| && ds[i] == d;
        assert r[if i < k then i else i - 1] == d;
      }
    }
    assert ds[k] in ds;
  }

  /** A listed device whose open was for the port. */
  ghost predicate OpenedFor(ls: seq<Label>, s: State, d: Device, port: int) {
    d in s.devices && d.pty < |Opens(ls)| && Opens(ls)[d.pty] == port
  }

  /** And no other such device was opened before it. */
  ghost predicate Earliest(ls: seq<Label>, s: State, d: Device, port: int) {
    OpenedFor(ls, s, d, port) && forall e :: OpenedFor(ls, s, e, port) ==> d.pty <= e.pty
  }

  lemma {:induction false} FirstIsEarliest(ls: seq<Label>, s: State, k: nat, port: int)
    requires Ordered(s.devices, Opens(ls)) && k < |s.devices| && s.devices[k].port == port
    requires forall i :: 0 <= i < k ==> s.devices[i].port != port
    ensures Earliest(ls, s, s.devices[k], port)
  {
    var ds := s.devices;
    assert ds[k] in ds;
    forall e | OpenedFor(ls, s, e, port) ensures ds[k].pty <= e.pty {
      var i :| 0 <= i < |ds| && ds[i] == e;
      assert i >= k;
    }
  }

  lemma {:induction false} NoneOpenedFor(ls: seq<Label>, s: State, port: int)
    requires Ordered(s.devices, Opens(ls)) && forall i :: 0 <= i < |s.devices| ==> s.devices[i].port != port
    ensures forall d :: !OpenedFor(ls, s, d, port)
  {
    forall d | d in s.devices ensures !OpenedFor(ls, s, d, port) {
      var i :| 0 <= i < |s.devices| && s.devices[i] == d;
    }
  }

  /** After every run, a disconnect of a port closes the earliest opened of the listed devices that were
      opened for that port, and nothing else; without one it changes nothing. */
  lemma {:induction false} DisconnectClosesItsPort(ls: seq<Label>, port: int)
    requires ValidRun(INIT, ls)
    ensures var s := Final(INIT, ls);
            var r := Apply(s, Disconnected(port));
            && ((forall d :: !OpenedFor(ls, s, d, port)) ==> r == s)
            && ((exists d :: OpenedFor(ls, s, d, port)) ==>
                  exists d :: Earliest(ls, s, d, port) && ClosesOnly(s, r, d.pty))
  {
    RunInv(INIT, ls);
    RunOrdered(ls);
    var s := Final(INIT, ls);
    var k := IndexOfPort(s.devices, port);
    if k < |s.devices| {
      FirstIsEarliest(ls, s, k, port);
      CloseDeviceOnly(s, k);
    } else {
      NoneOpenedFor(ls, s, port);
    }
  }

  /** A read error closes exactly the pty it came from, and frees its reader. */
  lemma {:induction false} ReadErrorClosesItsPty(ls: seq<Label>, p: nat)
    requires ValidRun(INIT, ls) && Enabled(Final(INIT, ls), ReadError(p))
    ensures var s := Final(INIT, ls);
            var r := Apply(s, ReadError(p));
            ClosesOnly(s, r, p) && r.readerFrees == s.readerFrees + [p] && p !in r.reading
  {
    RunInv(INIT, ls);
    var s := Final(INIT, ls);
    StopInv(s, p);
    var t := StopRead(s, p);
    assert p < t.ptys && p !in t.closes;
    CloseDeviceOnly(t, IndexOfPty(t.devices, p));
  }

  /** An open lists one more device, of its port, which is read exactly if libuv starts the read. */
  lemma {:induction false} OpenListsItsPort(ls: seq<Label>, port: int, ok: bool)
    requires ValidRun(INIT, ls)
    ensures var s := Final(INIT, ls);
            var r := Apply(s, Open(port, ok));
            && r.devices == s.devices + [Device(|Opens(ls)|, port)] && r.closes == s.closes
            && (|Opens(ls)| in r.active <==> ok) && (|Opens(ls)| in r.reading <==> ok)
  {
    RunInv(INIT, ls);
    RunOrdered(ls);
  }

  // ----- The program: handles, readers and the table -----

  /** An `euv_pty_t`: whether `uv_tty.data` holds a reader, whether it is read, closing and freed. */
  datatype Pty = Pty(data: bool, active: bool, closing: bool, freed: bool)

  ghost function Where(heap: seq<Pty>, f: Pty -> bool): set<nat> {
    set p | 0 <= p < |heap| && f(heap[p])
  }

  lemma {:induction false} WhereUpdate(heap: seq<Pty>, p: nat, x: Pty, f: Pty -> bool)
    requires p < |heap|
    ensures Where(heap[p := x], f) == if f(x) then Where(heap, f) + {p} else Where(heap, f) - {p}
  {
  }

  lemma {:induction false} WhereAppend(heap: seq<Pty>, x: Pty, f: Pty -> bool)
    ensures Where(heap + [x], f) == if f(x) then Where(heap, f) + {|heap|} else Where(heap, f)
  {
  }

  predicate HasReader(x: Pty) { x.data }

  predicate IsActive(x: Pty) { x.active }

  predicate AwaitsClose(x: Pty) { x.closing && !x.freed }

  predicate Any(x: Pty) { true }

  /** The sets of the protocol after one handle has changed. */
  lemma {:induction false} HeapUpdate(heap: seq<Pty>, p: nat, x: Pty)
    requires p < |heap|
    ensures var h := heap[p := x];
            && Where(h, HasReader) == (if x.data then Where(heap, HasReader) + {p} else Where(heap, HasReader) - {p})
            && Where(h, IsActive) == (if x.active then Where(heap, IsActive) + {p} else Where(heap, IsActive) - {p})
            && Where(h, AwaitsClose) ==
               (if AwaitsClose(x) then Where(heap, AwaitsClose) + {p} else Where(heap, AwaitsClose) - {p})
            && Where(h, Any) == Where(heap, Any)
  {
    WhereUpdate(heap, p, x, HasReader);
    WhereUpdate(heap, p, x, IsActive);
    WhereUpdate(heap, p, x, AwaitsClose);
    WhereUpdate(heap, p, x, Any);
    assert p in Where(heap, Any);
  }

  ghost predicate NoPort(ds: seq<Device>, port: int) { forall i :: 0 <= i < |ds| ==> ds[i].port != port }

  ghost predicate FirstOfPort(ds: seq<Device>, k: int, port: int) {
    0 <= k < |ds| && ds[k].port == port && NoPort(ds[..k], port)
  }

  lemma {:induction false} FirstUnique(ds: seq<Device>, k: int, port: int)
    requires FirstOfPort(ds, k, port)
    ensures k == IndexOfPort(ds, port)
  {
    assert forall i :: 0 <= i < k ==> ds[..k][i] == ds[i];
  }

  class SppTable {
    var devices: seq<Device>
    var heap: seq<Pty>                 // the handles, by address
    ghost var closes: seq<nat>         // calls of uv_close
    ghost var readerFrees: seq<nat>    // free of a reader
    ghost var ptyFrees: seq<nat>       // free of a handle
    ghost var missed: bool
    ghost var overwritten: seq<nat>    // handles whose reader was overwritten and so never freed

    ghost function View(): State
      reads this
    {
      State(devices, |heap|, Where(heap, HasReader), Where(heap, IsActive), Where(heap, AwaitsClose), closes,
            Where(heap, Any), readerFrees, ptyFrees, missed)
    }

    /** A device's handle is allocated. */
    ghost predicate Valid()
      reads this
    {
      forall i :: 0 <= i < |devices| ==> devices[i].pty < |heap| && !heap[devices[i].pty].freed
    }

    constructor ()
      ensures Valid() && View() == INIT && overwritten == []
    {
      devices, heap, closes, readerFrees, ptyFrees, missed, overwritten := [], [], [], [], [], false, [];
    }

    /** `find_pty_by_handle`. */
    method FindByPty(p: nat) returns (k: nat)
      ensures k == IndexOfPty(devices, p)
    {
      k := 0;
      while k < |devices| && devices[k].pty != p
        invariant k <= |devices|
        invariant forall i :: 0 <= i < k ==> devices[i].pty != p
      {
        k := k + 1;
      }
      IndexOfPtyUnique(devices, p, k);
    }

    /** `find_pty_by_port`. */
    method FindByPort(port: int) returns (k: nat)
      ensures k == IndexOfPort(devices, port)
    {
      k := 0;
      while k < |devices| && devices[k].port != port
        invariant k <= |devices|
        invariant forall i :: 0 <= i < k ==> devices[i].port != port
      {
        k := k + 1;
      }
      IndexOfPortUnique(devices, port, k);
    }

    method SetHandle(p: nat, x: Pty)
      requires p < |heap|
      modifies this`heap
      ensures heap == old(heap)[p := x]
      ensures View().reading == if x.data then old(View()).reading + {p} else old(View()).reading - {p}
      ensures View().active == if x.active then old(View()).active + {p} else old(View()).active - {p}
      ensures View().pendingClose ==
              if AwaitsClose(x) then old(View()).pendingClose + {p} else old(View()).pendingClose - {p}
      ensures View().readers == old(View()).readers
    {
      HeapUpdate(heap, p, x);
      heap := heap[p := x];
    }

    /** `euv_pty_init`. */
    method Init() returns (p: nat)
      modifies this`heap
      ensures p == |old(heap)| && heap == old(heap) + [Pty(false, false, false, false)]
      ensures View() == old(View()).(ptys := p + 1, readers := old(View()).readers + {p})
    {
      var x := Pty(false, false, false, false);
      WhereAppend(heap, x, HasReader);
      WhereAppend(heap, x, IsActive);
      WhereAppend(heap, x, AwaitsClose);
      WhereAppend(heap, x, Any);
      p := |heap|;
      heap := heap + [x];
    }

    /** `euv_pty_read_start_`: nothing on an active handle; else a reader is allocated, and freed again when
        libuv refuses.  A reader left by a read that stopped by itself is overwritten. */
    method ReadStart(p: nat, ok: bool)
      requires p < |heap|
      modifies this`heap, this`readerFrees, this`overwritten
      ensures heap == if old(heap)[p].active then old(heap) else old(heap)[p := old(heap)[p].(data := ok, active := ok)]
      ensures View() == StartRead(old(View()), p, ok)
      ensures overwritten ==
              if old(heap)[p].data && !old(heap)[p].active then old(overwritten) + [p] else old(overwritten)
    {
      if heap[p].active {
        return;
      }
      if heap[p].data {
        overwritten := overwritten + [p];
      }
      SetHandle(p, heap[p].(data := ok, active := ok));
      if !ok {
        readerFrees := readerFrees + [p];
      }
    }

    /** `euv_pty_read_stop`. */
    method ReadStop(p: nat)
      requires p < |heap|
      modifies this`heap, this`readerFrees
      ensures heap == old(heap)[p := old(heap)[p].(data := false, active := false)]
      ensures View() == StopRead(old(View()), p)
    {
      if heap[p].data {
        readerFrees := readerFrees + [p];
      }
      SetHandle(p, heap[p].(data := false, active := false));
    }

    /** `euv_pty_close`. */
    method Close(p: nat)
      requires p < |heap| && !heap[p].freed
      modifies this`heap, this`closes
      ensures heap == old(heap)[p := old(heap)[p].(closing := true, active := false)]
      ensures View() == old(View()).(closes := old(closes) + [p], pendingClose := old(View()).pendingClose + {p},
                                     active := old(View()).active - {p})
    {
      SetHandle(p, heap[p].(closing := true, active := false));
      closes := closes + [p];
    }

    /** `uv_close_callback`. */
    method CloseCallback(p: nat)
      requires Valid() && Inv(View()) && Enabled(View(), Closed(p))
      modifies this`heap, this`readerFrees, this`ptyFrees
      ensures Valid() && View() == OnClosed(old(View()), p)
      ensures heap == old(heap)[p := old(heap)[p].(data := false, freed := true)]
    {
      assert p in closes;
      if heap[p].data {
        readerFrees := readerFrees + [p];
      }
      SetHandle(p, heap[p].(data := false, freed := true));
      ptyFrees := ptyFrees + [p];
    }

    /** Closes a device's handle, unlinks and frees the device. */
    method Release(k: nat)
      requires Valid() && k < |devices|
      modifies this`heap, this`closes, this`devices
      ensures Valid() && View() == CloseDevice(old(View()), k)
      ensures devices == old(devices)[..k] + old(devices)[k + 1..] && closes == old(closes) + [old(devices)[k].pty]
      ensures var p := old(devices)[k].pty;
              heap == old(heap)[p := old(heap)[p].(closing := true, active := false)]
    {
      Close(devices[k].pty);
      WithoutAt(devices, k);
      devices := devices[..k] + devices[k + 1..];
    }

    /** The error branch of `pty_read_cb`. */
    method PtyReadError(p: nat)
      requires Valid() && p < |heap|
      modifies this
      ensures Valid() && View() == OnReadError(old(View()), p) && overwritten == old(overwritten)
      ensures !heap[p].data && !heap[p].active
      ensures |devices| < |old(devices)| ==> closes == old(closes) + [p] && heap[p].closing
      ensures |devices| < |old(devices)| <==> exists i :: 0 <= i < |old(devices)| && old(devices)[i].pty == p
    {
      ReadStop(p);
      var k := FindByPty(p);
      if k == |devices| {
        missed := true;
        return;
      }
      Release(k);
    }

    /** `check_resource_release`. */
    method CheckResourceRelease(port: int)
      requires Valid()
      modifies this
      ensures Valid() && View() == OnDisconnected(old(View()), port) && overwritten == old(overwritten)
      ensures NoPort(old(devices), port) ==>
                devices == old(devices) && heap == old(heap) && closes == old(closes)
      ensures forall k :: FirstOfPort(old(devices), k, port) ==>
                devices == old(devices)[..k] + old(devices)[k + 1..] &&
                closes == old(closes) + [old(devices)[k].pty] && heap[old(devices)[k].pty].closing
    {
      var k := FindByPort(port);
      forall i | FirstOfPort(devices, i, port) ensures i == k {
        FirstUnique(devices, i, port);
      }
      if k < |devices| {
        Release(k);
      }
    }

    /** `pty_open_process`; nothing happens when the pty cannot be initialised. */
    method PtyOpenProcess(port: int, initOk: bool, ok: bool)
      requires Valid()
      modifies this
      ensures Valid() && View() == if initOk then OpenDevice(old(View()), port, ok) else old(View())
      ensures initOk ==> devices == old(devices) + [Device(|old(heap)|, port)]
      ensures initOk ==> heap == old(heap) + [Pty(ok, ok, false, false)]
      ensures overwritten == old(overwritten)
    {
      if !initOk {
        return;
      }
      var p := Init();
      devices := devices + [Device(p, port)];
      assert p !in old(View()).reading && p !in old(View()).active;
      ReadStart(p, ok);
    }
  }

  lemma {:induction false} IndexOfPtyUnique(ds: seq<Device>, p: nat, k: nat)
    requires k <= |ds| && (k < |ds| ==> ds[k].pty == p) && forall i :: 0 <= i < k ==> ds[i].pty != p
    ensures k == IndexOfPty(ds, p)
  {
  }

  lemma {:induction false} IndexOfPortUnique(ds: seq<Device>, port: int, k: nat)
    requires k <= |ds| && (k < |ds| ==> ds[k].port == port) && forall i :: 0 <= i < k ==> ds[i].port != port
    ensures k == IndexOfPort(ds, port)
  {
  }
}
