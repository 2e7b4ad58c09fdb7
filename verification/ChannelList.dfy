/** The channel list as tools/l2cap.c keeps it: channels, their pipes and the transfer context. */
module ChannelList {
  import opened ChannelTable
  import opened Seqs
  import Transfer

  function Pipes(t: seq<Channel>): multiset<nat> {
    if t == [] then multiset{} else Pipes(t[..|t| - 1]) + multiset{t[|t| - 1].pipe}
  }

  lemma {:induction false} PipesAppend(t: seq<Channel>, c: Channel)
    ensures Pipes(t + [c]) == Pipes(t) + multiset{c.pipe}
  {
    assert (t + [c])[..|t|] == t;
  }

  lemma {:induction false} Commute(p: multiset<nat>, x: nat, y: nat)
    ensures p + multiset{x} + multiset{y} == p + multiset{y} + multiset{x}
  {
  }

  lemma {:induction false} PipesWithout(t: seq<Channel>, k: nat)
    requires k < |t|
    ensures Pipes(t) == Pipes(Without(t, k)) + multiset{t[k].pipe}
  {
    var u, c := t[..|t| - 1], t[|t| - 1];
    if k == |t| - 1 {
      assert Without(t, k) == u;
    } else {
      PipesWithout(u, k);
      assert u[k] == t[k];
      assert Without(t, k) == Without(u, k) + [c];
      PipesAppend(Without(u, k), c);
      Commute(Pipes(Without(u, k)), u[k].pipe, c.pipe);
    }
  }

  lemma {:induction false} PipesUpdate(t: seq<Channel>, k: nat, c: Channel)
    requires k < |t| && c.pipe == t[k].pipe
    ensures Pipes(t[k := c]) == Pipes(t)
  {
    var u, d := t[..|t| - 1], t[|t| - 1];
    if k == |t| - 1 {
      assert t[k := c] == u + [c];
      PipesAppend(u, c);
    } else {
      PipesUpdate(u, k, c);
      assert t[k := c] == u[k := c] + [d];
      PipesAppend(u[k := c], d);
    }
  }

  lemma {:induction false} UpdateTwice(t: seq<Channel>, k: nat, c: Channel, d: Channel)
    requires k < |t|
    ensures t[k := c][k := d] == t[k := d]
  {
  }

  lemma {:induction false} FirstIsFound(t: seq<Channel>, k: int, id: nat)
    requires FirstWithId(t, k, id)
    ensures k == Find(t, id)
  {
  }

  class List {
    var channels: seq<Channel>
    var ctx: Transfer.Ctx
    ghost var connects: multiset<nat>         // pipes that euv_pipe_connect returned
    ghost var disconnected: multiset<nat>   // arguments of euv_pipe_disconnect

    /** Each pipe ever connected is the pipe of a channel or has been disconnected, exactly once. */
    ghost predicate Valid()
      reads this
    {
      connects == Pipes(channels) + disconnected
    }

    constructor ()
      ensures Valid() && channels == [] && ctx == Transfer.RESET
    {
      channels, ctx := [], Transfer.RESET;
      connects, disconnected := multiset{}, multiset{};
    }

    /** `find_channel_by_id`. */
    method FindById(id: nat) returns (k: nat)
      ensures k == Find(channels, id)
    {
      k := 0;
      while k < |channels| && channels[k].id != id
        invariant k <= |channels|
        invariant forall i :: 0 <= i < k ==> channels[i].id != id
      {
        k := k + 1;
      }
      var spec := Find(channels, id);
      assert k == spec;
    }

    /** `add_l2cap_channel`. */
    method AddChannelTo(id: nat, psm: nat, listening: bool, pipe: nat)
      requires Valid()
      modifies this`channels, this`connects
      ensures Valid() && channels == AddChannel(old(channels), id, psm, listening, pipe)
      ensures pipe == 0 ==> channels == old(channels)
      ensures pipe != 0 ==> channels == old(channels) + [Channel(id, psm, 0, listening, pipe)]
      ensures connects == old(connects) + (if pipe == 0 then multiset{} else multiset{pipe})
    {
      if pipe == 0 {
        return;
      }
      var c := Channel(id, psm, 0, listening, pipe);
      PipesAppend(channels, c);
      connects := connects + multiset{pipe};
      channels := channels + [c];
    }

    /** `euv_pipe_disconnect` of a channel's pipe, `list_delete` and `free`. */
    method Release(k: nat)
      requires Valid() && k < |channels|
      modifies this`channels, this`disconnected
      ensures Valid() && channels == Without(old(channels), k)
      ensures disconnected == old(disconnected) + multiset{old(channels)[k].pipe}
    {
      PipesWithout(channels, k);
      disconnected := disconnected + multiset{channels[k].pipe};
      channels := channels[..k] + channels[k + 1..];
    }

    /** A channel's fields are updated in place. */
    method Update(k: nat, c: Channel)
      requires Valid() && k < |channels| && c.pipe == channels[k].pipe
      modifies this`channels
      ensures Valid() && channels == old(channels)[k := c]
    {
      PipesUpdate(channels, k, c);
      channels := channels[k := c];
    }

    /** The listener becomes the accepted channel, and its replacement is added. */
    method Replace(k: nat, m: Msg, pipe: nat)
      requires Valid() && m.Connected? && m.listenId >= 0 && k < |channels|
      modifies this`channels, this`connects
      ensures Valid()
      ensures var was := old(channels);
              channels == AddChannel(was[k := was[k].(listening := false)], m.listenId, m.psm, true, pipe)
    {
      Update(k, channels[k].(listening := false));
      AddChannelTo(m.listenId, m.psm, true, pipe);
    }

    /** `l2cap_channel_connected_process`. */
    method ConnectedProcess(m: Msg, readOk: bool, pipe: nat)
      requires Valid() && m.Connected?
      modifies this`channels, this`connects, this`disconnected
      ensures Valid() && channels == OnConnected(old(channels), m, readOk, pipe)
      ensures forall k: nat :: FirstWithId(old(channels), k, m.id) ==>
                if readOk then k < |channels| && channels[k].cid == m.cid
                else channels == old(channels)[..k] + old(channels)[k + 1..]
    {
      var k := FindById(m.id);
      forall i | FirstWithId(channels, i, m.id) ensures i == k {
        FirstIsFound(channels, i, m.id);
      }
      if k == |channels| {
        return;
      }
      if !readOk {
        Release(k);
        return;
      }
      Update(k, channels[k].(cid := m.cid));
      if m.listenId >= 0 {
        Replace(k, m, pipe);
        ghost var was := old(channels);
        UpdateTwice(was, k, was[k].(cid := m.cid), was[k].(cid := m.cid, listening := false));
      }
    }

    /** `l2cap_channel_disconnected_process`: a transfer on the channel is reset first. */
    method DisconnectedProcess(id: nat)
      requires Valid()
      modifies this`channels, this`disconnected, this`ctx
      ensures Valid() && channels == OnDisconnected(old(channels), id)
      ensures !HasId(old(channels), id) ==> channels == old(channels) && disconnected == old(disconnected)
      ensures forall k: nat :: FirstWithId(old(channels), k, id) ==>
                && channels == old(channels)[..k] + old(channels)[k + 1..]
                && disconnected == old(disconnected) + multiset{old(channels)[k].pipe}
      ensures var k := Find(old(channels), id);
              ctx == if k < |old(channels)| && old(ctx).handle == old(channels)[k].pipe then Transfer.RESET
                     else old(ctx)
    {
      var k := FindById(id);
      forall i | FirstWithId(channels, i, id) ensures i == k {
        FirstIsFound(channels, i, id);
      }
      if k == |channels| {
        return;
      }
      if ctx.handle == channels[k].pipe {
        ctx := Transfer.RESET;
      }
      Release(k);
    }

    /** `do_l2cap_stop_listen`: a pass over the list that stops at the first match. */
    method StopListenProcess(psm: nat)
      requires Valid()
      modifies this`channels, this`disconnected
      ensures Valid() && channels == OnStopListen(old(channels), psm)
      ensures !HasListener(old(channels), psm) ==> channels == old(channels) && disconnected == old(disconnected)
      ensures forall k: nat :: FirstListening(old(channels), k, psm) ==>
                && channels == old(channels)[..k] + old(channels)[k + 1..]
                && disconnected == old(disconnected) + multiset{old(channels)[k].pipe}
    {
      var k := 0;
      while k < |channels|
        invariant k <= |channels| && channels == old(channels) && disconnected == old(disconnected)
        invariant forall i :: 0 <= i < k ==> !(channels[i].listening && channels[i].psm == psm)
      {
        if channels[k].listening && channels[k].psm == psm {
          assert k == FindListener(channels, psm);
          Release(k);
          return;
        }
        k := k + 1;
      }
      assert k == FindListener(channels, psm);
    }
  }
}
