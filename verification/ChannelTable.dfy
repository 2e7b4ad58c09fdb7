/** The L2CAP channel table of tools/l2cap.c and the messages that change it. */
module ChannelTable {
  import opened Seqs

  /** `pipe` is the data path of the channel. */
  datatype Channel = Channel(id: nat, psm: nat, cid: nat, listening: bool, pipe: nat)

  /** Messages to the loop; `listenId` is -1 for INVALID_L2CAP_LISTEN_ID. */
  datatype Msg =
    | Add(id: nat, psm: nat, listening: bool)
    | Connected(id: nat, psm: nat, cid: nat, listenId: int)
    | Disconnected(id: nat)
    | StopListen(psm: nat)

  // ----- The four functions -----

  /** `find_channel_by_id`: the first channel with that id, else the length. */
  function Find(t: seq<Channel>, id: nat): (k: nat)
    ensures k <= |t|
    ensures k < |t| ==> t[k].id == id
    ensures forall i :: 0 <= i < k ==> t[i].id != id
  {
    if t == [] || t[0].id == id then 0
    else
      var k := Find(t[1..], id);
      assert forall i :: 0 < i < k + 1 ==> t[i] == t[1..][i - 1];
      k + 1
  }

  /** The first listening channel of a PSM, else the length. */
  function FindListener(t: seq<Channel>, psm: nat): (k: nat)
    ensures k <= |t|
    ensures k < |t| ==> t[k].listening && t[k].psm == psm
    ensures forall i :: 0 <= i < k ==> !(t[i].listening && t[i].psm == psm)
  {
    if t == [] || (t[0].listening && t[0].psm == psm) then 0
    else
      var k := FindListener(t[1..], psm);
      assert forall i :: 0 < i < k + 1 ==> t[i] == t[1..][i - 1];
      k + 1
  }

  /** `add_l2cap_channel`; `pipe` is what `euv_pipe_connect` returned, and 0 adds nothing. */
  function AddChannel(t: seq<Channel>, id: nat, psm: nat, listening: bool, pipe: nat): seq<Channel> {
    if pipe == 0 then t else t + [Channel(id, psm, 0, listening, pipe)]
  }

  /** `l2cap_channel_connected_process`. */
  function OnConnected(t: seq<Channel>, m: Msg, readOk: bool, pipe: nat): seq<Channel>
    requires m.Connected?
  {
    var k := Find(t, m.id);
    if k == |t| then t
    else if !readOk then Without(t, k)
    else if m.listenId < 0 then t[k := t[k].(cid := m.cid)]
    else AddChannel(t[k := t[k].(cid := m.cid, listening := false)], m.listenId, m.psm, true, pipe)
  }

  /** `l2cap_channel_disconnected_process`. */
  function OnDisconnected(t: seq<Channel>, id: nat): seq<Channel> {
    var k := Find(t, id);
    if k == |t| then t else Without(t, k)
  }

  /** `do_l2cap_stop_listen`. */
  function OnStopListen(t: seq<Channel>, psm: nat): seq<Channel> {
    var k := FindListener(t, psm);
    if k == |t| then t else Without(t, k)
  }

  function Process(t: seq<Channel>, m: Msg, readOk: bool, pipe: nat): seq<Channel> {
    match m
    case Add(id, psm, listening) => AddChannel(t, id, psm, listening, pipe)
    case Connected(_, _, _, _) => OnConnected(t, m, readOk, pipe)
    case Disconnected(id) => OnDisconnected(t, id)
    case StopListen(psm) => OnStopListen(t, psm)
  }

  // ----- Soundness, and the exact condition of each message -----

  ghost predicate UniqueIds(t: seq<Channel>) {
    forall i, j :: 0 <= i < j < |t| ==> t[i].id != t[j].id
  }

  /** Each PSM has at most one listening channel. */
  ghost predicate OneListener(t: seq<Channel>) {
    forall i, j :: 0 <= i < j < |t| ==> !(t[i].listening && t[j].listening && t[i].psm == t[j].psm)
  }

  ghost predicate Sound(t: seq<Channel>) { UniqueIds(t) && OneListener(t) }

  ghost predicate HasId(t: seq<Channel>, id: int) {
    exists i :: 0 <= i < |t| && t[i].id == id
  }

  ghost predicate HasListener(t: seq<Channel>, psm: nat) {
    exists i :: 0 <= i < |t| && t[i].listening && t[i].psm == psm
  }

  ghost predicate OtherListener(t: seq<Channel>, psm: nat, id: nat) {
    exists i :: 0 <= i < |t| && t[i].listening && t[i].psm == psm && t[i].id != id
  }

  /** The test that no code makes: a message that brings a new id finds that id gone from the table,
      and, for a listener, finds no other listener of its PSM. */
  ghost predicate Fits(t: seq<Channel>, m: Msg, readOk: bool, pipe: nat) {
    match m
    case Add(id, psm, listening) => pipe == 0 || (!HasId(t, id) && (listening ==> !HasListener(t, psm)))
    case Connected(id, psm, _, listenId) =>
      !HasId(t, id) || !readOk || listenId < 0 || pipe == 0 || (!HasId(t, listenId) && !OtherListener(t, psm, id))
    case _ => true
  }

  lemma {:induction false} RemoveSound(t: seq<Channel>, k: nat)
    requires Sound(t) && k < |t|
    ensures Sound(Without(t, k))
  {
    WithoutAt(t, k);
    var r := Without(t, k);
    forall i, j | 0 <= i < j < |r|
      ensures r[i].id != r[j].id && !(r[i].listening && r[j].listening && r[i].psm == r[j].psm)
    {
      assert r[i] == t[Skip(i, k)] && r[j] == t[Skip(j, k)];
    }
  }

  lemma {:induction false} AppendSoundIff(t: seq<Channel>, c: Channel)
    requires Sound(t)
    ensures Sound(t + [c]) <==> !HasId(t, c.id) && (c.listening ==> !HasListener(t, c.psm))
  {
    var r := t + [c];
    if HasId(t, c.id) {
      var i :| 0 <= i < |t| && t[i].id == c.id;
      assert r[i].id == r[|t|].id;
    }
    if c.listening && HasListener(t, c.psm) {
      var i :| 0 <= i < |t| && t[i].listening && t[i].psm == c.psm;
      assert r[i].listening && r[|t|].listening && r[i].psm == r[|t|].psm;
    }
  }

  /** Turning a listener into an accepted channel. */
  lemma {:induction false} UpdateSound(t: seq<Channel>, k: nat, c: Channel)
    requires Sound(t) && k < |t| && c.id == t[k].id && c.psm == t[k].psm && (c.listening ==> t[k].listening)
    ensures Sound(t[k := c])
    ensures forall id :: HasId(t[k := c], id) <==> HasId(t, id)
    ensures !c.listening ==> forall p :: HasListener(t[k := c], p) <==> OtherListener(t, p, c.id)
  {
    var r := t[k := c];
    forall id ensures HasId(r, id) <==> HasId(t, id) {
      if HasId(t, id) {
        var i :| 0 <= i < |t| && t[i].id == id;
        assert r[i].id == id;
      }
      if HasId(r, id) {
        var i :| 0 <= i < |r| && r[i].id == id;
        assert t[i].id == id;
      }
    }
    if !c.listening {
      forall p ensures HasListener(r, p) <==> OtherListener(t, p, c.id) {
        if HasListener(r, p) {
          var i :| 0 <= i < |r| && r[i].listening && r[i].psm == p;
          assert i != k && t[i] == r[i];
        }
        if OtherListener(t, p, c.id) {
          var i :| 0 <= i < |t| && t[i].listening && t[i].psm == p && t[i].id != c.id;
          assert i != k && r[i] == t[i];
        }
      }
    }
  }

  /** From a sound table, a message leads to a sound table if and only if it fits. */
  lemma {:induction false} ProcessSoundIff(t: seq<Channel>, m: Msg, readOk: bool, pipe: nat)
    requires Sound(t)
    ensures Sound(Process(t, m, readOk, pipe)) <==> Fits(t, m, readOk, pipe)
  {
    match m
    case Add(id, psm, listening) => AppendSoundIff(t, Channel(id, psm, 0, listening, pipe));
    case Connected(id, psm, cid, listenId) =>
      var k := Find(t, id);
      if k < |t| {
        assert HasId(t, id);
        RemoveSound(t, k);
        if listenId < 0 {
          UpdateSound(t, k, t[k].(cid := cid));
        } else {
          var c := t[k].(cid := cid, listening := false);
          UpdateSound(t, k, c);
          AppendSoundIff(t[k := c], Channel(listenId, psm, 0, true, pipe));
        }
      }
    case Disconnected(id) =>
      if Find(t, id) < |t| {
        RemoveSound(t, Find(t, id));
      }
    case StopListen(psm) =>
      if FindListener(t, psm) < |t| {
        RemoveSound(t, FindListener(t, psm));
      }
  }

  /** `k` is the first channel with the id. */
  ghost predicate FirstWithId(t: seq<Channel>, k: int, id: nat) {
    0 <= k < |t| && t[k].id == id && forall i :: 0 <= i < k ==> t[i].id != id
  }

  /** `k` is the first listening channel of the PSM. */
  ghost predicate FirstListening(t: seq<Channel>, k: int, psm: nat) {
    && 0 <= k < |t| && t[k].listening && t[k].psm == psm
    && forall i :: 0 <= i < k ==> !(t[i].listening && t[i].psm == psm)
  }

  /** A connected message of a client channel stores the cid in the first channel of its id and changes nothing
      else; if the read cannot be started that channel is removed instead; without one nothing changes. */
  lemma {:induction false} ClientConnected(t: seq<Channel>, m: Msg, readOk: bool, pipe: nat, k: nat)
    requires m.Connected?
    ensures !HasId(t, m.id) ==> OnConnected(t, m, readOk, pipe) == t
    ensures FirstWithId(t, k, m.id) && !readOk ==> OnConnected(t, m, readOk, pipe) == t[..k] + t[k + 1..]
    ensures FirstWithId(t, k, m.id) && readOk && m.listenId < 0 ==>
              var r := OnConnected(t, m, readOk, pipe);
              && |r| == |t| && r[k] == Channel(t[k].id, t[k].psm, m.cid, t[k].listening, t[k].pipe)
              && forall i :: 0 <= i < |t| && i != k ==> r[i] == t[i]
  {
    if FirstWithId(t, k, m.id) {
      assert Find(t, m.id) == k;
    }
  }

  /** After a stop-listen message the PSM has no listening channel. */
  lemma {:induction false} StopLeavesNone(t: seq<Channel>, psm: nat)
    requires OneListener(t)
    ensures !HasListener(OnStopListen(t, psm), psm)
    ensures forall p :: p != psm ==> (HasListener(OnStopListen(t, psm), p) <==> HasListener(t, p))
  {
    var k := FindListener(t, psm);
    if k < |t| {
      WithoutAt(t, k);
      var r := Without(t, k);
      forall p | p != psm ensures HasListener(r, p) <==> HasListener(t, p) {
        if HasListener(t, p) {
          var i :| 0 <= i < |t| && t[i].listening && t[i].psm == p;
          assert r[if i < k then i else i - 1] == t[i];
        }
        if HasListener(r, p) {
          var i :| 0 <= i < |r| && r[i].listening && r[i].psm == p;
          assert t[Skip(i, k)] == r[i];
        }
      }
    }
  }

  /** An accept makes the PSM's listener a connected channel and puts exactly the new one in its
      place. */
  lemma {:induction false} AcceptReplacesListener(t: seq<Channel>, m: Msg, pipe: nat, k: nat)
    requires Sound(t) && m.Connected? && m.listenId >= 0 && pipe != 0 && Fits(t, m, true, pipe)
    requires k < |t| && t[k].id == m.id
    ensures var r := OnConnected(t, m, true, pipe);
            && |r| == |t| + 1 && r[k] == t[k].(cid := m.cid, listening := false)
            && r[|t|] == Channel(m.listenId, m.psm, 0, true, pipe)
            && (forall i :: 0 <= i < |t| && i != k ==> r[i] == t[i])
            && (forall i :: 0 <= i < |r| && r[i].listening && r[i].psm == m.psm ==> i == |t|)
  {
    assert HasId(t, m.id) && Find(t, m.id) == k;
  }
}
