/** The bounded callback registry of framework/common/callbacks_list.c. */
module Registry {
  /** A `remote_callback_t`: its address, which is the cookie handed to the caller, the remote that
      registered (0 for NULL) and its callback table. */
  datatype Entry = Entry(cookie: nat, remote: nat, callbacks: nat)

  const UINT8 := 256

  datatype State = State(list: seq<Entry>, registed: nat, max: nat)

  function New(max: nat): State { State([], 0, max) }

  // ----- Operations -----

  /** What `remote_is_found` or `callback_is_found` looks for. */
  predicate Matches(e: Entry, remote: nat, callbacks: nat) {
    if remote != 0 then e.remote == remote else e.callbacks == callbacks
  }

  predicate Taken(list: seq<Entry>, remote: nat, callbacks: nat) {
    exists i :: 0 <= i < |list| && Matches(list[i], remote, callbacks)
  }

  predicate Live(list: seq<Entry>, cookie: nat) { exists i :: 0 <= i < |list| && list[i].cookie == cookie }

  /** `bt_remote_callbacks_register` when `malloc` would return `cookie`. */
  function Register(s: State, remote: nat, callbacks: nat, cookie: nat): State {
    if s.registed == s.max || Taken(s.list, remote, callbacks) then s
    else s.(list := s.list + [Entry(cookie, remote, callbacks)], registed := (s.registed + 1) % UINT8)
  }

  function IndexOf(list: seq<Entry>, cookie: nat): (i: nat)
    ensures i <= |list| && (i < |list| ==> list[i].cookie == cookie)
    ensures forall j :: 0 <= j < i ==> list[j].cookie != cookie
  {
    if list == [] || list[0].cookie == cookie then 0
    else
      var i := IndexOf(list[1..], cookie);
      assert forall j :: 0 < j < i + 1 ==> list[j] == list[1..][j - 1];
      i + 1
  }

  /** `bt_remote_callbacks_unregister`. */
  function Unregister(s: State, cookie: nat): State {
    var i := IndexOf(s.list, cookie);
    if i == |s.list| then s
    else s.(list := s.list[..i] + s.list[i + 1..], registed := (s.registed - 1) % UINT8)
  }

  // ----- What every history keeps -----

  /** Of two entries, the later one was accepted beside the earlier. */
  predicate Beside(e: Entry, later: Entry) {
    e.cookie != later.cookie && !Matches(e, later.remote, later.callbacks)
  }

  predicate AllBeside(list: seq<Entry>) { forall i, j :: 0 <= i < j < |list| ==> Beside(list[i], list[j]) }

  predicate Inv(s: State) {
    s.registed == |s.list| <= s.max < UINT8 && AllBeside(s.list)
  }

  lemma {:induction false} RegisterInv(s: State, remote: nat, callbacks: nat, cookie: nat)
    requires Inv(s) && !Live(s.list, cookie)
    ensures Inv(Register(s, remote, callbacks, cookie))
  {
  }

  lemma {:induction false} UnregisterInv(s: State, cookie: nat)
    requires Inv(s)
    ensures Inv(Unregister(s, cookie))
  {
    var i := IndexOf(s.list, cookie);
    if i < |s.list| {
      var t := s.list[..i] + s.list[i + 1..];
      assert forall j :: 0 <= j < |t| ==> t[j] == s.list[if j < i then j else j + 1];
    }
  }

  /** Entries of the same registry never share a cookie; no two have the same remote, and no two local
      ones the same callbacks. */
  lemma {:induction false} DistinctKeys(s: State, i: nat, j: nat)
    requires Inv(s) && i < j < |s.list|
    ensures s.list[i].cookie != s.list[j].cookie
    ensures s.list[i].remote != 0 ==> s.list[i].remote != s.list[j].remote
    ensures s.list[i].remote == 0 == s.list[j].remote ==> s.list[i].callbacks != s.list[j].callbacks
  {
    assert Beside(s.list[i], s.list[j]);
  }

  /** No registration of the same client: for a remote, none with that remote, whatever its callbacks; for a
      local client, none with those callbacks, whoever made it. */
  ghost predicate Newcomer(list: seq<Entry>, remote: nat, callbacks: nat) {
    && (remote != 0 ==> forall e :: e in list ==> e.remote != remote)
    && (remote == 0 ==> forall e :: e in list ==> e.callbacks != callbacks)
  }

  lemma {:induction false} TakenIff(list: seq<Entry>, remote: nat, callbacks: nat)
    ensures Taken(list, remote, callbacks) <==> !Newcomer(list, remote, callbacks)
  {
    if !Newcomer(list, remote, callbacks) {
      var e :| e in list && (if remote != 0 then e.remote == remote else e.callbacks == callbacks);
      var i :| 0 <= i < |list| && list[i] == e;
      assert Matches(list[i], remote, callbacks);
    }
  }

  /** A registration is accepted exactly when there is room and the client is new, however many clients use
      the same callbacks from other remotes; it is then last in the list, and unregistering restores the
      registry. */
  lemma {:induction false} RegisterThenUnregister(s: State, remote: nat, callbacks: nat, cookie: nat)
    requires Inv(s) && !Live(s.list, cookie)
    ensures var t := Register(s, remote, callbacks, cookie);
            && (Live(t.list, cookie) <==> |s.list| < s.max && Newcomer(s.list, remote, callbacks))
            && (Live(t.list, cookie) ==> t.list == s.list + [Entry(cookie, remote, callbacks)])
            && Unregister(t, cookie) == s
  {
    TakenIff(s.list, remote, callbacks);
    if |s.list| < s.max && !Taken(s.list, remote, callbacks) {
      var e := Entry(cookie, remote, callbacks);
      AddThenRemove(s.list, e);
      Restored(s, s.(list := s.list + [e], registed := s.registed + 1), e);
    } else {
      NotRegistered(s, cookie);
    }
  }

  lemma {:induction false} Restored(s: State, t: State, e: Entry)
    requires s.registed == |s.list| < s.max < UINT8 && t == s.(list := s.list + [e], registed := s.registed + 1)
    requires IndexOf(t.list, e.cookie) == |s.list| && t.list[..|s.list|] + t.list[|s.list| + 1..] == s.list
    ensures Unregister(t, e.cookie) == s
  {
  }

  lemma {:induction false} NotRegistered(s: State, cookie: nat)
    requires !Live(s.list, cookie)
    ensures Unregister(s, cookie) == s
  {
    assert IndexOf(s.list, cookie) == |s.list|;
  }

  lemma {:induction false} AddThenRemove(list: seq<Entry>, e: Entry)
    requires !Live(list, e.cookie)
    ensures IndexOf(list + [e], e.cookie) == |list| && Live(list + [e], e.cookie)
    ensures (list + [e])[..|list|] + (list + [e])[|list| + 1..] == list
  {
    var t, n := list + [e], |list|;
    assert t[n].cookie == e.cookie;
    assert forall j :: 0 <= j < n ==> t[j] == list[j];
  }

  // ----- Histories -----

  datatype Op = DoRegister(remote: nat, callbacks: nat, cookie: nat) | DoUnregister(cookie: nat)

  function Step(s: State, op: Op): State {
    match op
    case DoRegister(remote, callbacks, cookie) => Register(s, remote, callbacks, cookie)
    case DoUnregister(cookie) => Unregister(s, cookie)
  }

  /** The state after the first `k` calls. */
  function After(max: nat, ops: seq<Op>, k: nat): State
    requires k <= |ops|
  {
    if k == 0 then New(max) else Step(After(max, ops, k - 1), ops[k - 1])
  }

  /** The allocator never returns memory that is still in the list. */
  ghost predicate Possible(max: nat, ops: seq<Op>) { forall k :: 0 <= k < |ops| ==> PossibleAt(max, ops, k) }

  ghost predicate PossibleAt(max: nat, ops: seq<Op>, k: nat)
    requires k < |ops|
  {
    ops[k].DoRegister? ==> !Live(After(max, ops, k).list, ops[k].cookie)
  }

  /** The registry's promise over every history: the count is the number of entries and within the
      bound, and the keys are distinct. */
  lemma {:induction false} HistoryInv(max: nat, ops: seq<Op>, k: nat)
    requires max < UINT8 && Possible(max, ops) && k <= |ops|
    ensures Inv(After(max, ops, k))
  {
    if k == 0 {
    } else {
      HistoryInv(max, ops, k - 1);
      assert PossibleAt(max, ops, k - 1);
      var s := After(max, ops, k - 1);
      match ops[k - 1]
      case DoRegister(remote, callbacks, cookie) => RegisterInv(s, remote, callbacks, cookie);
      case DoUnregister(cookie) => UnregisterInv(s, cookie);
    }
  }

  /** Call `k` registered exactly this entry. */
  ghost predicate RegisteredAt(max: nat, ops: seq<Op>, k: nat, e: Entry)
    requires k < |ops|
  {
    && ops[k] == DoRegister(e.remote, e.callbacks, e.cookie)
    && |After(max, ops, k).list| < max && Newcomer(After(max, ops, k).list, e.remote, e.callbacks)
  }

  predicate UnregisteredIn(ops: seq<Op>, from: nat, to: nat, cookie: nat)
    requires to <= |ops|
  {
    exists j :: from <= j < to && ops[j] == DoUnregister(cookie)
  }

  /** Call `k` registered the entry and no call from there to `n` unregistered its cookie. */
  ghost predicate Kept(max: nat, ops: seq<Op>, k: nat, n: nat, e: Entry)
    requires n <= |ops|
  {
    k < n && RegisteredAt(max, ops, k, e) && !UnregisteredIn(ops, k, n, e.cookie)
  }

  lemma {:induction false} MaxConstant(max: nat, ops: seq<Op>, k: nat)
    requires k <= |ops|
    ensures After(max, ops, k).max == max
  {
    if k == 0 {
    } else {
      MaxConstant(max, ops, k - 1);
    }
  }

  lemma {:induction false} UnregisterDrops(s: State, cookie: nat, e: Entry)
    requires Inv(s)
    ensures e in Unregister(s, cookie).list <==> e in s.list && e.cookie != cookie
  {
    var i := IndexOf(s.list, cookie);
    if i < |s.list| {
      var t := s.list[..i] + s.list[i + 1..];
      assert forall j :: 0 <= j < |t| ==> t[j] == s.list[if j < i then j else j + 1];
      forall j | 0 <= j < |s.list| && j != i ensures s.list[j].cookie != cookie && s.list[j] in t {
        assert if j < i then Beside(s.list[j], s.list[i]) else Beside(s.list[i], s.list[j]);
        assert t[if j < i then j else j - 1] == s.list[j];
      }
    }
  }

  predicate Held(max: nat, ops: seq<Op>, n: nat, e: Entry)
    requires n <= |ops|
  {
    e in After(max, ops, n).list
  }

  ghost predicate Survives(max: nat, ops: seq<Op>, n: nat, e: Entry)
    requires n <= |ops|
  {
    exists k: nat :: Kept(max, ops, k, n, e)
  }

  /** The registry holds an entry exactly when some earlier call registered it and none since has
      unregistered its cookie: nothing is lost, nothing stays, and no removal hits another entry. */
  lemma {:induction false} HeldIffSurvives(max: nat, ops: seq<Op>, n: nat, e: Entry)
    requires max < UINT8 && Possible(max, ops) && n <= |ops|
    ensures Held(max, ops, n, e) <==> Survives(max, ops, n, e)
  {
    if n == 0 {
      NothingFirst(max, ops, e);
    } else {
      HeldIffSurvives(max, ops, n - 1, e);
      SameStep(max, ops, n - 1, e);
    }
  }

  lemma {:induction false} NothingFirst(max: nat, ops: seq<Op>, e: Entry)
    ensures !Held(max, ops, 0, e) && !Survives(max, ops, 0, e)
  {
  }

  lemma {:induction false} SameStep(max: nat, ops: seq<Op>, n: nat, e: Entry)
    requires max < UINT8 && Possible(max, ops) && n < |ops| && (Held(max, ops, n, e) <==> Survives(max, ops, n, e))
    ensures Held(max, ops, n + 1, e) <==> Survives(max, ops, n + 1, e)
  {
    HeldStep(max, ops, n, e);
    SurvivesStep(max, ops, n, e);
  }

  lemma {:induction false} HeldStep(max: nat, ops: seq<Op>, n: nat, e: Entry)
    requires max < UINT8 && Possible(max, ops) && n < |ops|
    ensures Held(max, ops, n + 1, e) <==>
            RegisteredAt(max, ops, n, e) || (Held(max, ops, n, e) && ops[n] != DoUnregister(e.cookie))
  {
    HistoryInv(max, ops, n);
    MaxConstant(max, ops, n);
    var s := After(max, ops, n);
    if ops[n].DoUnregister? {
      UnregisterDrops(s, ops[n].cookie, e);
    } else {
      TakenIff(s.list, ops[n].remote, ops[n].callbacks);
    }
  }

  lemma {:induction false} SurvivesStep(max: nat, ops: seq<Op>, n: nat, e: Entry)
    requires n < |ops|
    ensures Survives(max, ops, n + 1, e) <==>
            RegisteredAt(max, ops, n, e) || (Survives(max, ops, n, e) && ops[n] != DoUnregister(e.cookie))
  {
    if Survives(max, ops, n + 1, e) {
      var k: nat :| Kept(max, ops, k, n + 1, e);
      assert k < n ==> Kept(max, ops, k, n, e);
    }
    if RegisteredAt(max, ops, n, e) {
      assert Kept(max, ops, n, n + 1, e);
    }
    if Survives(max, ops, n, e) && ops[n] != DoUnregister(e.cookie) {
      var k: nat :| Kept(max, ops, k, n, e);
      assert Kept(max, ops, k, n + 1, e);
    }
  }

  // ----- The registry as it runs -----

  class CallbacksList {
    var list: seq<Entry>
    var maxReg: nat
    var registed: nat

    ghost function View(): State
      reads this
    {
      State(list, registed, maxReg)
    }

    /** `bt_callbacks_list_new`. */
    constructor (max: nat)
      ensures View() == New(max)
    {
      list, maxReg, registed := [], max, 0;
    }

    /** `bt_list_find` with the matcher for the kind of registration. */
    method Find(remote: nat, callbacks: nat) returns (found: bool)
      ensures found == Taken(list, remote, callbacks)
    {
      for i := 0 to |list|
        invariant !Taken(list[..i], remote, callbacks)
      {
        if Matches(list[i], remote, callbacks) {
          return true;
        }
      }
      assert list[..|list|] == list;
      return false;
    }

    /** `bt_remote_callbacks_register`; `block` is what `malloc` returns, and failure is 0. */
    method RegisterRemote(remote: nat, callbacks: nat, block: nat) returns (cookie: nat)
      requires Inv(View()) && block != 0 && !Live(list, block)
      modifies this`list, this`registed
      ensures View() == Register(old(View()), remote, callbacks, block) && Inv(View())
      ensures cookie != 0 <==> |old(list)| < maxReg &&
                               (remote != 0 ==> forall e :: e in old(list) ==> e.remote != remote) &&
                               (remote == 0 ==> forall e :: e in old(list) ==> e.callbacks != callbacks)
      ensures cookie != 0 ==> cookie == block && list == old(list) + [Entry(block, remote, callbacks)]
      ensures cookie == 0 ==> list == old(list)
    {
      RegisterInv(View(), remote, callbacks, block);
      TakenIff(list, remote, callbacks);
      if registed == maxReg {
        return 0;
      }
      var found := Find(remote, callbacks);
      if found {
        return 0;
      }
      list := list + [Entry(block, remote, callbacks)];
      registed := (registed + 1) % UINT8;
      return block;
    }

    /** `bt_remote_callbacks_unregister`. */
    method UnregisterRemote(cookie: nat) returns (done: bool, remote: nat)
      requires Inv(View())
      modifies this`list, this`registed
      ensures View() == Unregister(old(View()), cookie) && Inv(View())
      ensures done <==> Live(old(list), cookie)
      ensures done ==> exists i :: 0 <= i < |old(list)| && old(list)[i].cookie == cookie &&
                                   old(list)[i].remote == remote && list == old(list)[..i] + old(list)[i + 1..]
      ensures !done ==> list == old(list)
      ensures !Live(list, cookie)
    {
      UnregisterInv(View(), cookie);
      done, remote := false, 0;
      ghost var before := View();
      for i := 0 to |list|
        invariant View() == before && forall j :: 0 <= j < i ==> list[j].cookie != cookie
      {
        if list[i].cookie == cookie {
          assert IndexOf(list, cookie) == i;
          registed := (registed - 1) % UINT8;
          remote := list[i].remote;
          RemovedIsGone(list, i);
          list := list[..i] + list[i + 1..];
          return true, remote;
        }
      }
      assert IndexOf(list, cookie) == |list|;
    }

    /** `bt_callbacks_list_count`. */
    method Count() returns (n: nat)
      requires Inv(View())
      ensures n == |list| <= maxReg
    {
      return registed;
    }
  }

  lemma {:induction false} RemovedIsGone(list: seq<Entry>, i: nat)
    requires i < |list| && AllBeside(list)
    ensures !Live(list[..i] + list[i + 1..], list[i].cookie)
  {
    var t := list[..i] + list[i + 1..];
    forall j | 0 <= j < |t| ensures t[j].cookie != list[i].cookie {
      assert t[j] == list[if j < i then j else j + 1];
      assert if j < i then Beside(list[j], list[i]) else Beside(list[i], list[j + 1]);
    }
  }
}
