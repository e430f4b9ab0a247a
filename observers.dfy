/** The observer registry of the UDP socket: the active list, the list of
    observers waiting to join it, the flag that is set while the active list
    is being walked, and the receive-buffer sizes, which an observer hook can
    ask to change while its packet still lives in that buffer.

    Observers are known by identity only. While the active list is being
    walked nothing may be inserted into it or erased from it: a subscription
    goes to the waiting list and joins the active list when the walk is
    over, and an unsubscription only withdraws the observer's slot, which is
    swept away at the same time. */
module Observers {

  /** An observer's identity (in the socket, its address). */
  type ObserverId = nat

  /** An entry of the active list; Withdrawn is an observer that unsubscribed
      while the list was being walked. */
  datatype Slot = Live(id: ObserverId) | Withdrawn

  datatype Registry = Registry(
    observers: seq<Slot>,
    added: seq<ObserverId>,
    locked: bool,
    bufSize: nat,
    newBufSize: nat)

  /** What an observer hook may do to the socket while it runs. */
  datatype HookOp = Subscribe(o: ObserverId) | Unsubscribe(o: ObserverId) | SetBufSize(size: nat)

  /** An observer's answer to one event: whether it handled the packet, and
      what it did to the socket meanwhile, in order. */
  datatype Reaction = Reaction(handled: bool, ops: seq<HookOp>)

  /** The identities of the live entries, in list order. */
  function LiveIds(s: seq<Slot>): (r: seq<ObserverId>)
    ensures |r| <= |s|
  {
    if s == [] then []
    else if s[0].Live? then [s[0].id] + LiveIds(s[1..])
    else LiveIds(s[1..])
  }

  lemma {:induction false} LiveIdsMembers(s: seq<Slot>)
    ensures forall o :: o in LiveIds(s) <==> Live(o) in s
  {
    if s != [] {
      LiveIdsMembers(s[1..]);
      assert s == [s[0]] + s[1..];
    }
  }

  lemma {:induction false} LiveIdsAppend(a: seq<Slot>, b: seq<Slot>)
    ensures LiveIds(a + b) == LiveIds(a) + LiveIds(b)
  {
    if a == [] {
      assert a + b == b;
    } else {
      assert (a + b)[0] == a[0] && (a + b)[1..] == a[1..] + b;
      LiveIdsAppend(a[1..], b);
    }
  }

  /** Where `o` first occurs in `s`. */
  function FirstIndex(s: seq<ObserverId>, o: ObserverId): (i: nat)
    requires o in s
    ensures i < |s| && s[i] == o && o !in s[..i]
  {
    if s[0] == o then 0
    else
      var j := FirstIndex(s[1..], o);
      assert s[..j + 1] == [s[0]] + s[1..][..j];
      j + 1
  }

  function RemoveFirst(s: seq<ObserverId>, o: ObserverId): (r: seq<ObserverId>)
    ensures o !in s ==> r == s
    ensures o in s ==> |r| == |s| - 1
  {
    if s == [] then []
    else if s[0] == o then s[1..]
    else
      assert s == [s[0]] + s[1..];
      [s[0]] + RemoveFirst(s[1..], o)
  }

  /** Removal takes out exactly the first occurrence of `o`: the entries
      before it and after it stay, in their order. */
  lemma {:induction false} RemoveFirstKeepsOrder(s: seq<ObserverId>, o: ObserverId)
    requires o in s
    ensures var i := FirstIndex(s, o); RemoveFirst(s, o) == s[..i] + s[i + 1..]
  {
    if s[0] != o {
      RemoveFirstKeepsOrder(s[1..], o);
      var j := FirstIndex(s[1..], o);
      assert s[..j + 1] == [s[0]] + s[1..][..j];
      assert s[j + 2..] == s[1..][j + 1..];
    }
  }

  /** Exactly one occurrence of `o` goes, when there is one. */
  lemma {:induction false} RemoveFirstCount(s: seq<ObserverId>, o: ObserverId)
    ensures multiset(RemoveFirst(s, o)) == multiset(s) - multiset{o}
  {
    if s != [] {
      assert s == [s[0]] + s[1..];
      if s[0] != o {
        RemoveFirstCount(s[1..], o);
      }
    }
  }

  /** Unsubscription during a walk: the first live entry of `o` is withdrawn
      in place, so no other entry moves. */
  function Withdraw(s: seq<Slot>, o: ObserverId): (r: seq<Slot>)
    ensures |r| == |s|
  {
    if s == [] then []
    else if s[0] == Live(o) then [Withdrawn] + s[1..]
    else
      var t := Withdraw(s[1..], o);
      assert ([s[0]] + t)[1..] == t;
      [s[0]] + t
  }

  /** Withdrawal moves no entry: each one stays or is withdrawn. */
  lemma {:induction false} WithdrawOnly(s: seq<Slot>, o: ObserverId)
    ensures OnlyWithdrawn(s, Withdraw(s, o))
  {
    if s != [] && s[0] != Live(o) {
      WithdrawOnly(s[1..], o);
      var t := Withdraw(s[1..], o);
      assert ([s[0]] + t)[1..] == t;
    }
  }

  /** Withdrawal takes exactly the first live entry of `o` off the list. */
  lemma {:induction false} WithdrawLiveIds(s: seq<Slot>, o: ObserverId)
    ensures LiveIds(Withdraw(s, o)) == RemoveFirst(LiveIds(s), o)
  {
    if s != [] && s[0] != Live(o) {
      WithdrawLiveIds(s[1..], o);
      var t := Withdraw(s[1..], o);
      assert ([s[0]] + t)[1..] == t;
      LiveIdsMembers(s[1..]);
    } else if s != [] {
      assert ([Withdrawn] + s[1..])[1..] == s[1..];
    }
  }

  /** Unsubscription outside a walk: the first live entry of `o` is erased. */
  function Erase(s: seq<Slot>, o: ObserverId): (r: seq<Slot>)
    ensures Withdrawn !in s ==> Withdrawn !in r
  {
    if s == [] then []
    else if s[0] == Live(o) then s[1..]
    else
      var t := Erase(s[1..], o);
      assert ([s[0]] + t)[1..] == t;
      [s[0]] + t
  }

  /** Erasure takes exactly the first live entry of `o` off the list. */
  lemma {:induction false} EraseLiveIds(s: seq<Slot>, o: ObserverId)
    ensures LiveIds(Erase(s, o)) == RemoveFirst(LiveIds(s), o)
  {
    if s != [] && s[0] != Live(o) {
      EraseLiveIds(s[1..], o);
      var t := Erase(s[1..], o);
      assert ([s[0]] + t)[1..] == t;
      LiveIdsMembers(s[1..]);
    }
  }

  /** Sweeps the withdrawn entries away. */
  function Compact(s: seq<Slot>): (r: seq<Slot>)
    ensures Withdrawn !in r
  {
    if s == [] then []
    else if s[0].Live? then
      var t := Compact(s[1..]);
      assert ([s[0]] + t)[1..] == t;
      [s[0]] + t
    else Compact(s[1..])
  }

  lemma {:induction false} CompactLiveIds(s: seq<Slot>)
    ensures LiveIds(Compact(s)) == LiveIds(s)
  {
    if s != [] {
      CompactLiveIds(s[1..]);
      var t := Compact(s[1..]);
      assert ([s[0]] + t)[1..] == t;
    }
  }

  function Lives(ids: seq<ObserverId>): (r: seq<Slot>)
    ensures |r| == |ids| && Withdrawn !in r
  {
    if ids == [] then []
    else
      var t := Lives(ids[1..]);
      assert ([Live(ids[0])] + t)[1..] == t;
      [Live(ids[0])] + t
  }

  lemma {:induction false} LivesLiveIds(ids: seq<ObserverId>)
    ensures LiveIds(Lives(ids)) == ids
  {
    if ids != [] {
      LivesLiveIds(ids[1..]);
      var t := Lives(ids[1..]);
      assert ([Live(ids[0])] + t)[1..] == t;
    }
  }

  /** subscribe: appended to the active list, or to the waiting list while
      the active list is being walked. */
  function AddObserver(r: Registry, o: ObserverId): Registry {
    if r.locked then r.(added := r.added + [o])
    else r.(observers := r.observers + [Live(o)])
  }

  /** unsubscribe: the observer leaves the waiting list, and leaves the active
      list by withdrawal while it is being walked, by erasure otherwise. */
  function RemoveObserver(r: Registry, o: ObserverId): Registry {
    r.(observers := if r.locked then Withdraw(r.observers, o) else Erase(r.observers, o),
       added := RemoveFirst(r.added, o))
  }

  /** set_buf_size: while the buffer is in use, only the request is recorded;
      otherwise the buffer takes the new size at once (a request for the
      current size changes nothing). */
  function ResizeBuffer(r: Registry, size: nat): Registry {
    if r.locked then r.(newBufSize := size)
    else if size == r.bufSize then r
    else r.(bufSize := size, newBufSize := size)
  }

  function Apply(r: Registry, op: HookOp): Registry {
    match op
    case Subscribe(o) => AddObserver(r, o)
    case Unsubscribe(o) => RemoveObserver(r, o)
    case SetBufSize(n) => ResizeBuffer(r, n)
  }

  /** The size named by the last resize request among `ops`, or `current`. */
  function LastRequest(ops: seq<HookOp>, current: nat): nat {
    if ops == [] then current
    else if ops[|ops| - 1].SetBufSize? then ops[|ops| - 1].size
    else LastRequest(ops[..|ops| - 1], current)
  }

  /** Two lists of the same length, where the second only withdrew entries
      of the first. */
  predicate OnlyWithdrawn(a: seq<Slot>, b: seq<Slot>) {
    |a| == |b| && forall k :: 0 <= k < |a| ==> b[k] == a[k] || b[k] == Withdrawn
  }

  /** The hooks' operations, in order. */
  function ApplyAll(r: Registry, ops: seq<HookOp>): (r': Registry)
    ensures r.locked ==> r'.locked && |r'.observers| == |r.observers|
    decreases |ops|
  {
    if ops == [] then r else ApplyAll(Apply(r, ops[0]), ops[1..])
  }

  /** Hooks running during a walk never move an entry of the active list and
      never resize the buffer in use: they only withdraw entries, add to the
      waiting list and record the last resize request. */
  lemma {:induction false} ApplyAllWhileLocked(r: Registry, ops: seq<HookOp>)
    requires r.locked
    ensures var r' := ApplyAll(r, ops);
      OnlyWithdrawn(r.observers, r'.observers) && r'.bufSize == r.bufSize
      && r'.newBufSize == LastRequest(ops, r.newBufSize)
    decreases |ops|
  {
    if ops != [] {
      var r1 := Apply(r, ops[0]);
      ApplyAllWhileLocked(r1, ops[1..]);
      LastRequestCons(ops, r.newBufSize, r1.newBufSize);
      if ops[0].Unsubscribe? {
        WithdrawOnly(r.observers, ops[0].o);
      }
    }
  }

  /** Applying a suffix of the operations one at a time. */
  lemma ApplyAllStep(r: Registry, ops: seq<HookOp>, j: nat)
    requires j < |ops|
    ensures ApplyAll(r, ops[j..]) == ApplyAll(Apply(r, ops[j]), ops[j + 1..])
  {
    assert ops[j..][1..] == ops[j + 1..];
  }

  lemma {:induction false} LastRequestCons(ops: seq<HookOp>, current: nat, afterFirst: nat)
    requires ops != []
    requires afterFirst == if ops[0].SetBufSize? then ops[0].size else current
    ensures LastRequest(ops, current) == LastRequest(ops[1..], afterFirst)
    decreases |ops|
  {
    if |ops| > 1 && !ops[|ops| - 1].SetBufSize? {
      assert ops[..|ops| - 1][1..] == ops[1..][..|ops[1..]| - 1];
      LastRequestCons(ops[..|ops| - 1], current, afterFirst);
    }
  }

  /** The result of walking the active list from some position on. */
  datatype Walked = Walked(reg: Registry, visited: seq<ObserverId>, handled: bool)

  /** Offers the event to the live entries from position `i` on, in list
      order, running each observer's hook; with `stopOnHandled`, the walk ends
      at the first observer that reports the packet handled. */
  function Walk(r: Registry, i: nat, react: ObserverId -> Reaction, stopOnHandled: bool): Walked
    requires r.locked && i <= |r.observers|
    decreases |r.observers| - i
  {
    if i == |r.observers| then Walked(r, [], false)
    else match r.observers[i]
      case Withdrawn => Walk(r, i + 1, react, stopOnHandled)
      case Live(o) =>
        var h := react(o);
        var r' := ApplyAll(r, h.ops);
        if stopOnHandled && h.handled then Walked(r', [o], true)
        else
          var w := Walk(r', i + 1, react, stopOnHandled);
          Walked(w.reg, [o] + w.visited, w.handled)
  }

  /** A walk, like the hooks it runs, only withdraws entries and never
      resizes the buffer in use. */
  lemma {:induction false} WalkWhileLocked(r: Registry, i: nat, react: ObserverId -> Reaction, stop: bool)
    requires r.locked && i <= |r.observers|
    ensures var w := Walk(r, i, react, stop);
      w.reg.locked && OnlyWithdrawn(r.observers, w.reg.observers) && w.reg.bufSize == r.bufSize
    decreases |r.observers| - i
  {
    if i < |r.observers| && r.observers[i].Live? {
      var r' := ApplyAll(r, react(r.observers[i].id).ops);
      ApplyAllWhileLocked(r, react(r.observers[i].id).ops);
      if !(stop && react(r.observers[i].id).handled) {
        WalkWhileLocked(r', i + 1, react, stop);
      }
    } else if i < |r.observers| {
      WalkWhileLocked(r, i + 1, react, stop);
    }
  }

  /** Whatever the hooks do, a walk that is not stopped by a claimer visits
      every observer whose entry is still live when the walk ends: entries
      are only ever withdrawn, so such an entry was live when the walk
      reached it. */
  lemma {:induction false} WalkVisitsSurvivors(r: Registry, i: nat, react: ObserverId -> Reaction, stop: bool)
    requires r.locked && i <= |r.observers|
    ensures var w := Walk(r, i, react, stop);
      !(stop && w.handled) ==>
        forall j :: i <= j < |w.reg.observers| && w.reg.observers[j].Live? ==> w.reg.observers[j].id in w.visited
    decreases |r.observers| - i
  {
    if i < |r.observers| {
      match r.observers[i]
      case Withdrawn =>
        WalkWhileLocked(r, i + 1, react, stop);
        WalkVisitsSurvivors(r, i + 1, react, stop);
      case Live(o) =>
        var r' := ApplyAll(r, react(o).ops);
        if !(stop && react(o).handled) {
          ApplyAllWhileLocked(r, react(o).ops);
          WalkWhileLocked(r', i + 1, react, stop);
          WalkVisitsSurvivors(r', i + 1, react, stop);
        }
    }
  }

  /** One step of a walk: a withdrawn entry is skipped; a live one sees the
      event, its hook runs, and the walk either stops there or goes on. */
  lemma WalkStep(r: Registry, i: nat, react: ObserverId -> Reaction, stop: bool)
    requires r.locked && i < |r.observers|
    ensures r.observers[i].Withdrawn? ==> Walk(r, i, react, stop) == Walk(r, i + 1, react, stop)
    ensures r.observers[i].Live? ==>
      var o := r.observers[i].id;
      var r' := ApplyAll(r, react(o).ops);
      Walk(r, i, react, stop)
        == if stop && react(o).handled then Walked(r', [o], true)
           else Walked(Walk(r', i + 1, react, stop).reg, [o] + Walk(r', i + 1, react, stop).visited,
                       Walk(r', i + 1, react, stop).handled)
  {
  }

  /** The end of a walk: withdrawn entries are swept away, the waiting
      observers join the end of the active list, the flag is cleared and a
      resize requested meanwhile is carried out. */
  function Finish(r: Registry): Registry {
    ResizeBuffer(r.(observers := Compact(r.observers) + Lives(r.added), added := [], locked := false),
                 r.newBufSize)
  }

  /** call_handler (stopOnHandled) and the writable/drained notifications
      (every observer is told). */
  function Dispatch(r: Registry, react: ObserverId -> Reaction, stopOnHandled: bool): Walked
    requires !r.locked
  {
    var w := Walk(r.(locked := true), 0, react, stopOnHandled);
    Walked(Finish(w.reg), w.visited, w.handled)
  }

  /** The observers that see a packet when nobody changes the registry
      meanwhile: every live one in list order, up to and including the first
      that handles it. */
  function FirstClaim(ids: seq<ObserverId>, react: ObserverId -> Reaction): seq<ObserverId> {
    if ids == [] then []
    else if react(ids[0]).handled then [ids[0]]
    else [ids[0]] + FirstClaim(ids[1..], react)
  }

  lemma {:induction false} WalkFirstMatch(r: Registry, i: nat, react: ObserverId -> Reaction)
    requires r.locked && i <= |r.observers|
    ensures var w := Walk(r, i, react, true);
      (w.handled <==> |w.visited| > 0 && react(w.visited[|w.visited| - 1]).handled)
      && (forall k :: 0 <= k < |w.visited| - 1 ==> !react(w.visited[k]).handled)
    decreases |r.observers| - i
  {
    if i < |r.observers| {
      match r.observers[i]
      case Withdrawn => WalkFirstMatch(r, i + 1, react);
      case Live(o) =>
        var r' := ApplyAll(r, react(o).ops);
        if !react(o).handled {
          WalkFirstMatch(r', i + 1, react);
          var w := Walk(r', i + 1, react, true);
          assert Walk(r, i, react, true).visited == [o] + w.visited;
        }
    }
  }

  /** First match wins: the packet is handled exactly when the last observer
      that saw it handled it, and every observer before that one declined it;
      no observer after it sees the packet. */
  lemma DispatchFirstMatch(r: Registry, react: ObserverId -> Reaction)
    requires !r.locked
    ensures var d := Dispatch(r, react, true);
      (d.handled <==> |d.visited| > 0 && react(d.visited[|d.visited| - 1]).handled)
      && (forall k :: 0 <= k < |d.visited| - 1 ==> !react(d.visited[k]).handled)
  {
    WalkFirstMatch(r.(locked := true), 0, react);
  }

  lemma {:induction false} WalkVisitsOnlyListed(r: Registry, i: nat, react: ObserverId -> Reaction, stop: bool)
    requires r.locked && i <= |r.observers|
    ensures forall o :: o in Walk(r, i, react, stop).visited ==> Live(o) in r.observers[i..]
    decreases |r.observers| - i
  {
    if i < |r.observers| {
      var r' := if r.observers[i].Live? then ApplyAll(r, react(r.observers[i].id).ops) else r;
      if r.observers[i].Live? {
        ApplyAllWhileLocked(r, react(r.observers[i].id).ops);
      }
      if !(r.observers[i].Live? && stop && react(r.observers[i].id).handled) {
        WalkVisitsOnlyListed(r', i + 1, react, stop);
        forall o | Live(o) in r'.observers[i + 1..] ensures Live(o) in r.observers[i..] {
          var k :| i + 1 <= k < |r'.observers| && r'.observers[k] == Live(o);
          assert r.observers[k] == Live(o);
        }
      }
    }
  }

  /** Only observers on the active list when the event arrived can see it:
      an observer subscribed by a hook during the walk does not, and joins the
      active list afterwards, behind everyone already on it. */
  lemma DispatchDefersNewObservers(r: Registry, react: ObserverId -> Reaction, stop: bool)
    requires !r.locked
    ensures forall o :: o in Dispatch(r, react, stop).visited ==> o in LiveIds(r.observers)
    ensures var w := Walk(r.(locked := true), 0, react, stop);
      var d := Dispatch(r, react, stop);
      LiveIds(d.reg.observers) == LiveIds(w.reg.observers) + w.reg.added
      && d.reg.added == [] && !d.reg.locked && Withdrawn !in d.reg.observers
  {
    var w := Walk(r.(locked := true), 0, react, stop);
    WalkVisitsOnlyListed(r.(locked := true), 0, react, stop);
    assert r.observers[0..] == r.observers;
    LiveIdsMembers(r.observers);
    LiveIdsAppend(Compact(w.reg.observers), Lives(w.reg.added));
    CompactLiveIds(w.reg.observers);
    LivesLiveIds(w.reg.added);
  }

  /** A resize asked for by a hook while the buffer is in use is only
      recorded; the buffer keeps its size for the whole walk and takes the
      last requested size once the walk is over. */
  lemma DispatchDefersResize(r: Registry, react: ObserverId -> Reaction, stop: bool)
    requires !r.locked
    ensures var w := Walk(r.(locked := true), 0, react, stop);
      var d := Dispatch(r, react, stop);
      w.reg.bufSize == r.bufSize
      && d.reg.bufSize == w.reg.newBufSize == d.reg.newBufSize
  {
    WalkWhileLocked(r.(locked := true), 0, react, stop);
  }

  /** The registry between events: not being walked, nobody waiting to
      join, no withdrawn entry left and no resize pending. */
  predicate Settled(r: Registry) {
    !r.locked && r.added == [] && Withdrawn !in r.observers && r.newBufSize == r.bufSize
  }

  /** Whatever the hooks did during a walk, the registry is settled once the
      event has been dispatched. */
  lemma DispatchSettles(r: Registry, react: ObserverId -> Reaction, stop: bool)
    requires !r.locked
    ensures Settled(Dispatch(r, react, stop).reg)
  {
    DispatchDefersNewObservers(r, react, stop);
  }

  /** subscribe, unsubscribe and set_buf_size called between events leave
      the registry settled. */
  lemma OutsideWalkSettled(r: Registry, op: HookOp)
    requires Settled(r)
    ensures Settled(Apply(r, op))
  {
  }

  lemma {:induction false} WalkWithoutHooks(r: Registry, i: nat, react: ObserverId -> Reaction, stop: bool)
    requires r.locked && i <= |r.observers|
    requires forall o :: react(o).ops == []
    ensures Walk(r, i, react, stop).visited
         == if stop then FirstClaim(LiveIds(r.observers[i..]), react) else LiveIds(r.observers[i..])
    decreases |r.observers| - i
  {
    if i < |r.observers| {
      assert r.observers[i..] == [r.observers[i]] + r.observers[i + 1..];
      WalkWithoutHooks(r, i + 1, react, stop);
      if r.observers[i].Live? && stop && react(r.observers[i].id).handled {
        assert LiveIds(r.observers[i..])[0] == r.observers[i].id;
      }
    }
  }

  /** With hooks that leave the registry alone, the packet goes to the
      observers in subscription order up to the first that handles it, and a
      notification goes to every observer. */
  lemma DispatchWithoutHooks(r: Registry, react: ObserverId -> Reaction, stop: bool)
    requires !r.locked
    requires forall o :: react(o).ops == []
    ensures Dispatch(r, react, stop).visited
         == if stop then FirstClaim(LiveIds(r.observers), react) else LiveIds(r.observers)
  {
    WalkWithoutHooks(r.(locked := true), 0, react, stop);
    assert r.observers[0..] == r.observers;
  }
}
