/**
  The client's queue of server location updates. The queue holds what the open
  state has not absorbed yet; the mirror is what the server last said. Folding
  the queue over the state's confirmed set must always give the mirror.
*/
module LocationQueue {
  import opened Registry
  import opened Sorting
  import opened State
  import opened Locations
  import Repository

  /** The confirmed set after the queued updates, first one first. */
  function Fold(queue: seq<ServerUpdate>, confirmed: set<int>): set<int> {
    if queue == [] then confirmed else Fold(queue[1..], ConfirmedAfter(confirmed, AsEvent(queue[0])))
  }

  lemma {:induction false} FoldAppend(queue: seq<ServerUpdate>, u: ServerUpdate, confirmed: set<int>)
    ensures Fold(queue + [u], confirmed) == ConfirmedAfter(Fold(queue, confirmed), AsEvent(u))
  {
    if queue == [] {
      assert Fold([u][1..], ConfirmedAfter(confirmed, AsEvent(u))) == ConfirmedAfter(confirmed, AsEvent(u));
    } else {
      assert (queue + [u])[1..] == queue[1..] + [u];
      FoldAppend(queue[1..], u, ConfirmedAfter(confirmed, AsEvent(queue[0])));
    }
  }

  lemma FoldOne(u: ServerUpdate, confirmed: set<int>)
    ensures Fold([u], confirmed) == ConfirmedAfter(confirmed, AsEvent(u))
  {
    assert [u][1..] == [];
  }

  predicate HasFull(queue: seq<ServerUpdate>) {
    exists i :: 0 <= i < |queue| && queue[i].full
  }

  /** The locations of the queued updates. */
  function Queued(queue: seq<ServerUpdate>): set<int> {
    if queue == [] then {} else Elements(queue[0].checked) + Queued(queue[1..])
  }

  /** Without a full update, folding only adds. */
  lemma {:induction false} FoldWithoutFull(queue: seq<ServerUpdate>, confirmed: set<int>)
    requires !HasFull(queue)
    ensures Fold(queue, confirmed) == confirmed + Queued(queue)
  {
    if queue != [] {
      assert !queue[0].full;
      assert forall i :: 0 <= i < |queue| - 1 ==> queue[1..][i] == queue[i + 1];
      FoldWithoutFull(queue[1..], ConfirmedAfter(confirmed, AsEvent(queue[0])));
    }
  }

  /** A full update makes the starting set irrelevant. */
  lemma {:induction false} FoldWithFull(queue: seq<ServerUpdate>, a: set<int>, b: set<int>)
    requires HasFull(queue)
    ensures Fold(queue, a) == Fold(queue, b)
  {
    if !queue[0].full {
      var i :| 0 <= i < |queue| && queue[i].full;
      assert queue[1..][i - 1].full;
      FoldWithFull(queue[1..], ConfirmedAfter(a, AsEvent(queue[0])), ConfirmedAfter(b, AsEvent(queue[0])));
    }
  }

  /** Two starting sets are told apart exactly by what no queued update covers. */
  predicate SameBeyond(queue: seq<ServerUpdate>, a: set<int>, b: set<int>) {
    HasFull(queue) || a - Queued(queue) == b - Queued(queue)
  }

  lemma FoldsAgreeExactly(queue: seq<ServerUpdate>, a: set<int>, b: set<int>)
    ensures Fold(queue, a) == Fold(queue, b) <==> SameBeyond(queue, a, b)
  {
    if HasFull(queue) {
      FoldWithFull(queue, a, b);
    } else {
      var q := Queued(queue);
      FoldWithoutFull(queue, a);
      FoldWithoutFull(queue, b);
      assert (a + q) - q == a - q && (b + q) - q == b - q;
      assert (a - q) + q == a + q && (b - q) + q == b + q;
    }
  }

  function Confirmed(s: PersistentState): set<int> {
    Elements(s.confirmed)
  }

  ghost predicate KnownUpdate(u: ServerUpdate) {
    Known(AsEvent(u))
  }

  ghost predicate KnownQueue(queue: seq<ServerUpdate>) {
    forall i :: 0 <= i < |queue| ==> KnownUpdate(queue[i])
  }

  /** What committing one update leaves in the session. */
  function Absorb(s: PersistentState, u: ServerUpdate): PersistentState {
    var r := React(s, AsEvent(u));
    if r.Moved? && r.transition.changed then Repository.AtRevision(r.transition.state, s.revision + 1) else s
  }

  function AbsorbAll(s: PersistentState, queue: seq<ServerUpdate>): PersistentState {
    if queue == [] then s else Absorb(AbsorbAll(s, queue[..|queue| - 1]), queue[|queue| - 1])
  }

  lemma NextRevisionIsValid(s: PersistentState, t: PersistentState)
    requires Valid(s) && Valid(t)
    ensures Valid(Repository.AtRevision(t, s.revision + 1))
  {}

  lemma AbsorbIsExact(s: PersistentState, u: ServerUpdate)
    requires Valid(s) && KnownUpdate(u)
    ensures Valid(Absorb(s, u)) && React(s, AsEvent(u)).Moved?
    ensures Confirmed(Absorb(s, u)) == ConfirmedAfter(Confirmed(s), AsEvent(u))
    ensures Absorb(s, u).instanceId == s.instanceId
  {
    ReactIsExact(s, AsEvent(u));
    ChangedWhenDifferent(s, AsEvent(u));
    NextRevisionIsValid(s, React(s, AsEvent(u)).transition.state);
    SortedElements(ConfirmedAfter(Confirmed(s), AsEvent(u)));
  }

  /** One more update, as one fact. */
  lemma AbsorbSound(s: PersistentState, u: ServerUpdate) returns (t: PersistentState)
    requires Repository.Sound(s) && KnownUpdate(u)
    ensures t == Absorb(s, u) && Repository.Sound(t) && t.instanceId == s.instanceId
    ensures Confirmed(t) == ConfirmedAfter(Confirmed(s), AsEvent(u))
  {
    assert Valid(s);
    AbsorbIsExact(s, u);
    t := Absorb(s, u);
  }

  lemma AbsorbNext(s: PersistentState, queue: seq<ServerUpdate>, n: nat)
    requires n < |queue|
    ensures AbsorbAll(s, queue[..n + 1]) == Absorb(AbsorbAll(s, queue[..n]), queue[n])
  {
    assert queue[..n + 1][..n] == queue[..n];
  }

  lemma FoldNext(queue: seq<ServerUpdate>, n: nat, confirmed: set<int>)
    requires n < |queue|
    ensures Fold(queue[..n + 1], confirmed) == ConfirmedAfter(Fold(queue[..n], confirmed), AsEvent(queue[n]))
  {
    FoldAppend(queue[..n], queue[n], confirmed);
    assert queue[..n + 1] == queue[..n] + [queue[n]];
  }

  /** Committing updates one by one folds them over the confirmed set. */
  lemma {:induction false} AbsorbAllFolds(s: PersistentState, queue: seq<ServerUpdate>, n: nat)
    returns (t: PersistentState)
    requires Repository.Sound(s) && KnownQueue(queue) && n <= |queue|
    ensures t == AbsorbAll(s, queue[..n]) && Repository.Sound(t) && t.instanceId == s.instanceId
    ensures Confirmed(t) == Fold(queue[..n], Confirmed(s))
  {
    t := s;
    if n > 0 {
      var before := AbsorbAllFolds(s, queue, n - 1);
      AbsorbNext(s, queue, n - 1);
      FoldNext(queue, n - 1, Confirmed(s));
      t := AbsorbSound(before, queue[n - 1]);
    }
  }

  /** The full update equivalent to the whole mirror. */
  function Canonical(mirror: set<int>): ServerUpdate {
    ServerUpdate(Sorted(mirror), true)
  }

  lemma CanonicalIsKnown(mirror: set<int>, confirmed: set<int>)
    requires forall x :: x in mirror ==> IsLocation(x)
    ensures KnownUpdate(Canonical(mirror)) && Fold([Canonical(mirror)], confirmed) == mirror
  {
    SortedElements(mirror);
    FoldOne(Canonical(mirror), confirmed);
    assert forall x :: Mentions(AsEvent(Canonical(mirror)), x) <==> x in mirror;
  }

  /** Whether the disk takes the commit of this revision. */
  predicate Takes(last: Option<int>, revision: int) {
    last.None? || revision <= last.value
  }

  class LocationCoordinator {
    var session: Option<PersistentState>
    var authenticated: bool
    var mirror: Option<set<int>>
    var queue: seq<ServerUpdate>
    var reconciled: Option<string>
    var readOnly: bool

    /** What the reconciled state had confirmed when its session was dropped. */
    ghost var dropped: set<int>

    ghost predicate Valid()
      reads this
    {
      && (forall s :: session == Some(s) ==> State.Valid(s))
      && (session.Some? ==> mirror.Some?)
      && (authenticated ==> mirror.Some?)
      && (reconciled.Some? ==> mirror.Some?)
      && (mirror.Some? ==> forall x :: x in mirror.value ==> IsLocation(x))
      && KnownQueue(queue)
    }

    /** The confirmed set the queue builds on. */
    ghost function Base(): set<int>
      reads this
    {
      if session.Some? && reconciled == Some(session.value.instanceId) then Confirmed(session.value) else dropped
    }

    /** The queue accounts for the whole difference between the reconciled state and the mirror. */
    ghost predicate Refined()
      reads this
    {
      !readOnly && mirror.Some? && reconciled.Some? ==> Fold(queue, Base()) == mirror.value
    }

    constructor ()
      ensures Valid() && Refined() && session.None? && !authenticated && reconciled.None? && !readOnly
    {
      session, authenticated, mirror, queue, reconciled, readOnly := None, false, None, [], None, false;
    }

    /** Commit what one update changes; the disk takes commits up to the revision `last`, or all of them. */
    method CommitUpdate(u: ServerUpdate, last: Option<int>) returns (ok: bool)
      requires session.Some? && React(session.value, AsEvent(u)).Moved?
      modifies this`session
      ensures ok == (!React(old(session).value, AsEvent(u)).transition.changed
                     || Takes(last, old(session).value.revision + 1))
      ensures session == if ok then Some(Absorb(old(session).value, u)) else old(session)
    {
      var transition := React(session.value, AsEvent(u)).transition;
      ok := true;
      if transition.changed {
        ok := Takes(last, session.value.revision + 1);
        if ok {
          session := Some(Repository.AtRevision(transition.state, session.value.revision + 1));
        }
      }
    }

    /** A state seen for the first time gets the accumulated mirror instead of its history. */
    method Rebase()
      requires Valid() && session.Some?
      modifies this`reconciled, this`queue
      ensures Valid() && reconciled == Some(session.value.instanceId)
      ensures old(reconciled) == Some(session.value.instanceId) ==> queue == old(queue)
      ensures old(reconciled) != Some(session.value.instanceId) ==> queue == [Canonical(mirror.value)] && Refined()
    {
      if reconciled != Some(session.value.instanceId) {
        reconciled := Some(session.value.instanceId);
        queue := [Canonical(mirror.value)];
        CanonicalIsKnown(mirror.value, Confirmed(session.value));
      }
    }

    method AbsorbFirst(last: Option<int>) returns (ok: bool)
      requires Valid() && session.Some? && !readOnly && queue != []
      modifies this`session, this`queue, this`readOnly
      ensures Valid() && readOnly == !ok
      ensures !ok ==> !Takes(last, old(session).value.revision + 1)
      ensures session == if ok then Some(Absorb(old(session).value, old(queue)[0])) else old(session)
      ensures session.value.instanceId == old(session).value.instanceId
      ensures queue == if ok then old(queue)[1..] else old(queue)
      ensures old(Refined()) && reconciled == Some(session.value.instanceId) ==> Refined()
    {
      var u := queue[0];
      assert KnownUpdate(u);
      AbsorbIsExact(session.value, u);
      ok := CommitUpdate(u, last);
      if ok {
        queue := queue[1..];
      } else {
        readOnly := true;
      }
    }

    /** Absorb the queue, first update first, until it is empty or a commit fails. */
    method AbsorbQueue(last: Option<int>) returns (ghost absorbed: nat)
      requires Valid() && session.Some? && !readOnly && reconciled == Some(session.value.instanceId)
      modifies this`session, this`queue, this`readOnly
      ensures Valid() && session.Some? && reconciled == Some(session.value.instanceId)
      ensures absorbed <= |old(queue)| && queue == old(queue)[absorbed..]
      ensures session == Some(AbsorbAll(old(session).value, old(queue)[..absorbed]))
      ensures readOnly <==> queue != []
      ensures readOnly ==> !Takes(last, session.value.revision + 1)
      ensures old(Refined()) ==> Refined()
    {
      absorbed := 0;
      while queue != []
        invariant Valid() && session.Some? && !readOnly && reconciled == Some(session.value.instanceId)
        invariant absorbed <= |old(queue)| && queue == old(queue)[absorbed..]
        invariant session == Some(AbsorbAll(old(session).value, old(queue)[..absorbed]))
        invariant old(Refined()) ==> Refined()
        decreases |queue|
      {
        assert queue[0] == old(queue)[absorbed] && queue[1..] == old(queue)[absorbed + 1..];
        AbsorbNext(old(session).value, old(queue), absorbed);
        var ok := AbsorbFirst(last);
        if !ok {
          return;
        }
        absorbed := absorbed + 1;
      }
    }

    /** What the state is due to absorb: the queue, or the whole mirror if it was not reconciled yet. */
    function Due(): seq<ServerUpdate>
      requires session.Some? && mirror.Some?
      reads this
    {
      if reconciled == Some(session.value.instanceId) then queue else [Canonical(mirror.value)]
    }

    method Drain(last: Option<int>) returns (ghost absorbed: nat)
      requires Valid()
      modifies this`session, this`queue, this`readOnly, this`reconciled
      ensures Valid() && session.Some? == old(session).Some?
      ensures old(session).None? || old(readOnly) ==>
                session == old(session) && queue == old(queue) && reconciled == old(reconciled)
                && readOnly == old(readOnly)
      ensures old(session).Some? && !old(readOnly) ==>
                var s := old(session).value;
                && reconciled == Some(s.instanceId) == Some(session.value.instanceId)
                && absorbed <= |old(Due())| && session.value == AbsorbAll(s, old(Due())[..absorbed])
                && Confirmed(session.value) == Fold(old(Due())[..absorbed], Confirmed(s))
                && queue == old(Due())[absorbed..]
                && (readOnly <==> queue != []) && (readOnly ==> !Takes(last, session.value.revision + 1))
      ensures old(Refined()) ==> Refined()
      ensures session.Some? && !readOnly && (old(Refined()) || old(reconciled) != reconciled) ==>
                Confirmed(session.value) == mirror.value
    {
      absorbed := 0;
      if session.Some? && !readOnly {
        Rebase();
        assert queue == old(Due());
        absorbed := AbsorbQueue(last);
        ghost var _ := AbsorbAllFolds(old(session).value, old(Due()), absorbed);
      }
    }

    /** A drain as its callers see it. */
    method Settle(last: Option<int>)
      requires Valid()
      modifies this`session, this`queue, this`readOnly, this`reconciled
      ensures Valid() && session.Some? == old(session).Some?
      ensures old(session).None? || old(readOnly) ==>
                session == old(session) && queue == old(queue) && reconciled == old(reconciled)
                && readOnly == old(readOnly)
      ensures old(session).Some? && !old(readOnly) ==>
                && reconciled == Some(old(session).value.instanceId) == Some(session.value.instanceId)
                && (readOnly <==> queue != []) && (readOnly ==> !Takes(last, session.value.revision + 1))
                && (!readOnly ==> Confirmed(session.value) == Fold(old(Due()), Confirmed(old(session).value)))
                && (old(Due()) == [] ==> session == old(session) && queue == [])
      ensures old(Refined()) ==> Refined()
      ensures session.Some? && !readOnly && (old(Refined()) || old(reconciled) != reconciled) ==>
                Confirmed(session.value) == mirror.value
    {
      var absorbed := Drain(last);
      if session.Some? && !readOnly {
        assert old(Due())[..absorbed] == old(Due());
      }
    }

    method Connected(server: seq<int>, last: Option<int>)
      requires Valid() && KnownUpdate(ServerUpdate(server, true))
      modifies this
      ensures Valid() && Refined() && authenticated && mirror == Some(Elements(server)) && dropped == old(dropped)
      ensures session.Some? == old(session).Some?
      ensures session.None? ==> reconciled == old(reconciled) && readOnly == old(readOnly)
      ensures session.Some? && !readOnly ==>
                && queue == [] && Confirmed(session.value) == Elements(server)
                && reconciled == Some(session.value.instanceId)
      ensures session.Some? && !old(readOnly) && readOnly ==> !Takes(last, session.value.revision + 1)
    {
      authenticated, mirror, queue := true, Some(Elements(server)), [ServerUpdate(server, true)];
      assert forall x :: x in Elements(server) ==> Mentions(AsEvent(ServerUpdate(server, true)), x);
      FoldOne(queue[0], Base());
      Settle(last);
    }

    /** A delta is refused, and freezes the coordinator, until a slot is authenticated. */
    method RoomUpdate(delta: seq<int>, last: Option<int>)
      requires Valid() && KnownUpdate(ServerUpdate(delta, false))
      modifies this
      ensures Valid() && authenticated == old(authenticated) && dropped == old(dropped)
      ensures old(Refined()) ==> Refined()
      ensures !old(authenticated) ==>
              readOnly && mirror == old(mirror) && queue == old(queue) && session == old(session)
      ensures old(authenticated) ==> mirror == Some(old(mirror).value + Elements(delta))
      ensures session.Some? == old(session).Some?
      ensures old(authenticated) && session.Some? && !readOnly ==>
                && queue == [] && reconciled == Some(session.value.instanceId)
                && session.value.instanceId == old(session).value.instanceId
                && Confirmed(session.value) ==
                   if old(reconciled) == Some(old(session).value.instanceId)
                   then Fold(old(queue), Confirmed(old(session).value)) + Elements(delta)
                   else mirror.value
      ensures old(authenticated) && session.Some? && !old(readOnly) && readOnly ==>
              !Takes(last, session.value.revision + 1)
    {
      if authenticated {
        AbsorbDelta(delta, last);
      } else {
        readOnly := true;
      }
    }

    method AbsorbDelta(delta: seq<int>, last: Option<int>)
      requires Valid() && KnownUpdate(ServerUpdate(delta, false)) && authenticated
      modifies this`session, this`mirror, this`queue, this`reconciled, this`readOnly
      ensures Valid()
      ensures old(Refined()) ==> Refined()
      ensures mirror == Some(old(mirror).value + Elements(delta))
      ensures session.Some? == old(session).Some?
      ensures session.Some? && !readOnly ==>
                && queue == [] && reconciled == Some(session.value.instanceId)
                && session.value.instanceId == old(session).value.instanceId
                && Confirmed(session.value) ==
                   if old(reconciled) == Some(old(session).value.instanceId)
                   then Fold(old(queue), Confirmed(old(session).value)) + Elements(delta)
                   else mirror.value
      ensures session.Some? && !old(readOnly) && readOnly ==> !Takes(last, session.value.revision + 1)
    {
      Accumulate(delta);
      Settle(last);
      if session.Some? && !readOnly && old(reconciled) == Some(old(session).value.instanceId) {
        FoldDelta(old(queue), delta, Confirmed(old(session).value));
      }
    }

    /** Fold a delta into the mirror and queue it for the state. */
    method Accumulate(delta: seq<int>)
      requires Valid() && authenticated && KnownUpdate(ServerUpdate(delta, false))
      modifies this`mirror, this`queue
      ensures Valid() && mirror == Some(old(mirror).value + Elements(delta))
      ensures old(Refined()) ==> Refined()
      ensures queue == WithDelta(old(queue), delta)
    {
      var u := ServerUpdate(delta, false);
      assert forall x :: x in Elements(delta) ==> Mentions(AsEvent(u), x);
      FoldAppend(queue, u, Base());
      EmptyElements(delta);
      mirror := Some(mirror.value + Elements(delta));
      if delta != [] {
        queue := queue + [u];
      }
    }

    /** The local observations and item commits of other coordinators confirm nothing. */
    method CommitElsewhere(next: PersistentState)
      requires Valid() && session.Some? && State.Valid(next)
      requires next.confirmed == session.value.confirmed && next.instanceId == session.value.instanceId
      modifies this`session
      ensures Valid() && (old(Refined()) <==> Refined()) && session == Some(next)
    {
      session := Some(next);
    }

    method Reject()
      requires Valid()
      modifies this`readOnly
      ensures Valid() && Refined() && readOnly
    {
      readOnly := true;
    }

    /** The orderly way to give up a session forgets which state was reconciled. */
    method Close()
      requires Valid()
      modifies this`session, this`reconciled
      ensures Valid() && Refined() && session.None? && reconciled.None?
    {
      session, reconciled := None, None;
    }

    /** A failure while synchronising gives up the session but keeps that memory. */
    method Drop()
      requires Valid() && session.Some?
      modifies this`session, this`dropped
      ensures Valid() && (old(Refined()) <==> Refined()) && session.None? && dropped == old(Base())
    {
      dropped := Base();
      session := None;
    }

    method RoomInfo()
      requires Valid()
      modifies this
      ensures Valid() && Refined() && session.None? && mirror.None? && queue == [] && !authenticated && !readOnly
    {
      session, authenticated, mirror, queue, reconciled, readOnly := None, false, None, [], None, false;
    }

    /**
      Only an authenticated client opens a state. The refinement survives exactly
      if the state is not the remembered one, or agrees with it beyond the queue.
    */
    method Open(s: PersistentState)
      requires Valid() && session.None? && authenticated && State.Valid(s)
      modifies this`session
      ensures Valid() && session == Some(s)
      ensures old(Refined()) ==>
                (Refined() <==>
                 readOnly || reconciled != Some(s.instanceId) || SameBeyond(queue, Confirmed(s), dropped))
      ensures !old(Refined()) ==>
                (Refined() <==> reconciled == Some(s.instanceId) && Fold(queue, Confirmed(s)) == mirror.value)
    {
      session := Some(s);
      FoldsAgreeExactly(queue, Confirmed(s), dropped);
    }
  }

  function WithDelta(queue: seq<ServerUpdate>, delta: seq<int>): seq<ServerUpdate> {
    if delta == [] then queue else queue + [ServerUpdate(delta, false)]
  }

  lemma FoldDelta(queue: seq<ServerUpdate>, delta: seq<int>, confirmed: set<int>)
    ensures Fold(WithDelta(queue, delta), confirmed) == Fold(queue, confirmed) + Elements(delta)
    ensures WithDelta(queue, delta)[..|WithDelta(queue, delta)|] == WithDelta(queue, delta)
  {
    EmptyElements(delta);
    FoldAppend(queue, ServerUpdate(delta, false), confirmed);
  }

  /** The open, reconciled, unfrozen state has absorbed everything that was due. */
  ghost predicate Drained(c: LocationCoordinator)
    reads c
  {
    c.Valid() && c.authenticated && !c.readOnly && c.queue == []
    && c.session.Some? && c.reconciled == Some(c.session.value.instanceId)
  }

  /**
    The condition at `Open` is not idle: a drained client whose session is dropped
    and whose state comes back with other confirmed locations stays different
    from the mirror, with an empty queue and no update due.
  */
  method DropAndReopen(c: LocationCoordinator, s: PersistentState, last: Option<int>)
    requires Drained(c) && c.Refined()
    requires Valid(s) && c.reconciled == Some(s.instanceId) && Confirmed(s) != c.mirror.value
    modifies c
    ensures Drained(c) && !c.Refined() && c.session == Some(s) && c.mirror == old(c.mirror)
  {
    c.Drop();
    c.Open(s);
    c.Settle(last);
  }

  /** A delta leaves whatever it does not mention as different as it was. */
  method DifferenceOutlivesDeltas(c: LocationCoordinator, delta: seq<int>, last: Option<int>)
    requires Drained(c) && KnownUpdate(ServerUpdate(delta, false)) && last.None?
    modifies c
    ensures Drained(c)
    ensures c.mirror.value - Confirmed(c.session.value)
            == old(c.mirror.value - Confirmed(c.session.value)) - Elements(delta)
    ensures Confirmed(c.session.value) - c.mirror.value
            == old(Confirmed(c.session.value) - c.mirror.value) - Elements(delta)
  {
    c.RoomUpdate(delta, last);
  }

  /** The next full update removes the difference. */
  method ConnectedRepairs(c: LocationCoordinator, server: seq<int>, last: Option<int>)
    requires Drained(c) && KnownUpdate(ServerUpdate(server, true)) && last.None?
    modifies c
    ensures Drained(c) && c.Refined() && Confirmed(c.session.value) == c.mirror.value == Elements(server)
  {
    c.Connected(server, last);
  }

  /** A state opened by a client that remembers none is brought to the mirror. */
  method OpenFirst(c: LocationCoordinator, s: PersistentState)
    requires c.Valid() && c.Refined() && c.session.None? && c.authenticated && !c.readOnly && c.reconciled.None?
    requires Valid(s)
    modifies c
    ensures Drained(c) && c.Refined() && c.reconciled == Some(s.instanceId)
    ensures Confirmed(c.session.value) == c.mirror.value && c.mirror == old(c.mirror)
  {
    c.Open(s);
    c.Settle(None);
  }

  /** So does closing the session in order and opening any state again. */
  method ReopeningRepairs(c: LocationCoordinator, s: PersistentState)
    requires Drained(c) && Valid(s)
    modifies c
    ensures Drained(c) && c.Refined() && Confirmed(c.session.value) == c.mirror.value == old(c.mirror.value)
  {
    c.Close();
    OpenFirst(c, s);
  }

  /** A client that opens a state after the server's full set. */
  method OpenedAfterConnected(s: PersistentState, server: seq<int>) returns (c: LocationCoordinator)
    requires Valid(s) && KnownUpdate(ServerUpdate(server, true))
    ensures fresh(c) && Drained(c) && c.Refined()
    ensures c.reconciled == Some(s.instanceId) && c.mirror == Some(Elements(server))
  {
    c := new LocationCoordinator();
    c.Connected(server, None);
    OpenFirst(c, s);
  }

  /**
    And it happens: the server's set is absorbed, then the state comes back from
    its older copy, and the client is drained and unfrozen but behind the server.
  */
  method StaleAfterRollback(s: PersistentState, server: seq<int>) returns (c: LocationCoordinator)
    requires Valid(s) && KnownUpdate(ServerUpdate(server, true)) && Confirmed(s) != Elements(server)
    ensures fresh(c) && Drained(c) && c.session == Some(s) && c.mirror == Some(Elements(server)) && !c.Refined()
  {
    c := OpenedAfterConnected(s, server);
    DropAndReopen(c, s, None);
  }
}
