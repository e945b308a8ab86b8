/**
  Every change the client commits to its durable state, and what follows for
  acknowledged locations: none of these changes forgets a checked location, so
  what was acknowledged stays durable until the files are damaged.
*/
module ClientCommits {
  import opened Sorting
  import opened State
  import opened Disk
  import opened History
  import opened Repository
  import GoalChannel
  import Ledger
  import Locations
  import Registry

  datatype ClientCommit =
    | LocationObserved(testGoal: bool, location: int)
    | LocationsReconciled(event: Locations.Event)
    | GoalRefreshed(testGoal: bool)
    | GoalStatusSent
    | ReceiptNoted(receipt: Receipt)
    | ItemsReceived(packet: Ledger.Packet)
    | ItemsApplied(receipt: Receipt)
    | SessionOpened(slot: Slot)
    | ClosedCleanly

  /** What its caller has checked before it commits. */
  ghost predicate Proper(s: PersistentState, c: ClientCommit) {
    match c
    case LocationObserved(_, location) => Registry.IsObservable(location)
    case LocationsReconciled(event) => Locations.Known(event)
    case GoalStatusSent => s.goalCompleted
    case ReceiptNoted(receipt) => Ledger.ValidReceipt(receipt)
    case ItemsReceived(packet) => Ledger.WellFormed(packet)
    case ItemsApplied(receipt) => Ledger.ValidReceipt(receipt)
    case SessionOpened(slot) => ValidSlot(slot)
    case _ => true
  }

  function Next(s: PersistentState, c: ClientCommit): PersistentState
    requires Valid(s) && Proper(s, c)
  {
    match c
    case LocationObserved(testGoal, location) =>
      var moved := Locations.ObserveLocal(s, location);
      if moved.Moved? then GoalChannel.Observed(testGoal, s, location) else s
    case LocationsReconciled(event) =>
      var moved := Locations.React(s, event);
      if moved.Moved? then moved.transition.state else s
    case GoalRefreshed(testGoal) => GoalChannel.TemporaryGoal(testGoal, s)
    case GoalStatusSent => s.(goalStatusSent := true)
    case ReceiptNoted(receipt) => s.(receipt := Some(receipt))
    case ItemsReceived(packet) => Ledger.Apply(s, packet).state
    case ItemsApplied(receipt) => Ledger.MarkPendingApplied(s, receipt)
    case SessionOpened(slot) => Marked(s, slot)
    case ClosedCleanly => s.(cleanShutdown := true)
  }

  lemma LocationCommitKeeps(s: PersistentState, c: ClientCommit)
    requires Valid(s) && Proper(s, c) && (c.LocationObserved? || c.LocationsReconciled?)
    ensures var next := Next(s, c);
            && Valid(next) && Elements(s.checked) <= Elements(next.checked)
            && next.instanceId == s.instanceId && next.binding == s.binding
  {
    match c
    case LocationObserved(testGoal, location) =>
      var next := GoalChannel.ObservedIsValid(testGoal, s, location);
    case LocationsReconciled(event) =>
      Locations.ReactIsExact(s, event);
      SortedElements(Locations.CheckedAfter(Elements(s.checked), event));
  }

  lemma ItemsReceivedKeeps(s: PersistentState, packet: Ledger.Packet)
    requires Valid(s) && Ledger.WellFormed(packet)
    ensures var next := Ledger.Apply(s, packet).state;
            && Valid(next) && next.checked == s.checked
            && next.instanceId == s.instanceId && next.binding == s.binding
  {
    Ledger.ApplyKeepsValid(s, packet);
    Ledger.ApplyKeepsLocations(s, packet);
  }

  lemma ItemsAppliedKeeps(s: PersistentState, receipt: Receipt)
    requires Valid(s) && Ledger.ValidReceipt(receipt)
    ensures var next := Ledger.MarkPendingApplied(s, receipt);
            && Valid(next) && next.checked == s.checked
            && next.instanceId == s.instanceId && next.binding == s.binding
  {
    Ledger.MarkingIsValid(s, receipt);
  }

  lemma FlagCommitKeeps(s: PersistentState, c: ClientCommit)
    requires Valid(s) && Proper(s, c)
    requires c.GoalRefreshed? || c.GoalStatusSent? || c.ReceiptNoted? || c.SessionOpened? || c.ClosedCleanly?
    ensures var next := Next(s, c);
            && Valid(next) && next.checked == s.checked
            && next.instanceId == s.instanceId && (next.binding == s.binding || c.SessionOpened?)
  {
    match c
    case GoalRefreshed(testGoal) => GoalChannel.GoalIsValid(testGoal, s);
    case SessionOpened(slot) => MarkedIsValid(s, slot);
    case _ =>
  }

  /** No commit of the client is refused as invalid, and none forgets a checked location. */
  lemma CommitKeepsChecks(s: PersistentState, c: ClientCommit)
    requires Valid(s) && Proper(s, c)
    ensures var next := Next(s, c);
            && Valid(next) && Elements(s.checked) <= Elements(next.checked)
            && next.instanceId == s.instanceId && (next.binding == s.binding || c.SessionOpened?)
  {
    if c.LocationObserved? || c.LocationsReconciled? {
      LocationCommitKeeps(s, c);
    } else if c.ItemsReceived? {
      ItemsReceivedKeeps(s, c.packet);
    } else if c.ItemsApplied? {
      ItemsAppliedKeeps(s, c.receipt);
    } else {
      FlagCommitKeeps(s, c);
    }
  }

  ghost predicate IsNext(s: PersistentState, t: PersistentState, c: ClientCommit) {
    Valid(s) && Proper(s, c) && t == AtRevision(Next(s, c), s.revision + 1)
  }

  /** An operation of the client: no damage, and nothing is published but what one of its commits makes. */
  ghost predicate ClientOperation(log: seq<Op>, l: nat)
    requires l < |log|
  {
    var files, op := Replay(log[..l]), log[l];
    !Damages(op) && (IsPublish(files, op) ==> exists c :: IsNext(files[Primary].state, files[op.source].state, c))
  }

  lemma ClientOperationKeepsChecks(log: seq<Op>, l: nat)
    requires l < |log| && ClientOperation(log, l)
    ensures KeepsChecks(Replay(log[..l]), log[l])
  {
    var files, op := Replay(log[..l]), log[l];
    if IsPublish(files, op) {
      var c :| IsNext(files[Primary].state, files[op.source].state, c);
      CommitKeepsChecks(files[Primary].state, c);
    }
  }

  ghost predicate ClientOperations(log: seq<Op>, from: nat) {
    forall l :: from <= l < |log| ==> ClientOperation(log, l)
  }

  lemma PublishedByClient(log: seq<Op>, from: nat, s: PersistentState, c: ClientCommit, next: PersistentState)
    requires Sound(s) && Proper(s, c)
    requires Valid(s) ==> next == Next(s, c)
    requires PublishesNext(log, from, s, next)
    ensures ClientOperations(log, from)
  {
    assert IsNext(s, AtRevision(next, s.revision + 1), c);
    forall l | from <= l < |log| ensures ClientOperation(log, l) {
      assert PublishesOnly(log, l, s, next);
    }
  }

  /** One commit through an open session; all it logs are operations of the client. */
  method CommitAs(session: StateSession, c: ClientCommit) returns (r: Repository.Result<PersistentState>)
    requires session.Valid() && Proper(session.state, c) && !c.SessionOpened?
    modifies session`state, session.repository.disk
    ensures session.Valid() && old(session.repository.disk.ops) <= session.repository.disk.ops
    ensures r.Ok? ==>
              session.state == r.value && Elements(old(session.state.checked)) <= Elements(session.state.checked)
    ensures r.Err? ==> session.state == old(session.state)
    ensures ClientOperations(session.repository.disk.ops, |old(session.repository.disk.ops)|)
  {
    ghost var before, log := session.state, session.repository.disk.ops;
    assert Valid(before);
    CommitKeepsChecks(before, c);
    var next := Next(session.state, c);
    if next == session.state {
      return Repository.Ok(next);
    }
    r := session.Commit(next);
    PublishedByClient(session.repository.disk.ops, |log|, before, c, next);
  }

  /**
    Whatever was acknowledged stays durable: every location an acknowledgement
    covers was on the disk when it was sent, and is recovered after any crash of
    any continuation, until something other than the client's commits happens.
  */
  lemma SentStaysDurable(drains: seq<GoalChannel.Drain>, a: GoalChannel.Ack, i: nat, longer: seq<Op>) returns (j: nat)
    requires GoalChannel.Warranted(drains, a) && i < |drains[a.drain].records|
    requires var r := drains[a.drain].records[i]; r.code == GoalChannel.LOCATION_OBSERVED && r.sequence <= a.sequence
    requires LegalLog(longer) && drains[a.drain].log <= longer
    ensures j <= |drains[a.drain].log|
    ensures forall k :: j <= k <= |longer| && (forall l :: j <= l < k ==> ClientOperation(longer, l)) ==>
              Checks(Recover(Replay(longer[..k])), drains[a.drain].records[i].value)
  {
    var d := drains[a.drain];
    var s :| Recorded(d.log, s) && Elements(s.checked) == d.checked;
    var at :| 0 <= at <= |d.log| && Recover(Replay(d.log[..at])) == Some(s);
    j := at;
    assert longer[..j] == d.log[..j];
    forall k | j <= k <= |longer| && (forall l :: j <= l < k ==> ClientOperation(longer, l))
      ensures Checks(Recover(Replay(longer[..k])), d.records[i].value)
    {
      forall l | j <= l < k ensures !Damages(longer[l]) && KeepsChecks(Replay(longer[..l]), longer[l]) {
        ClientOperationKeepsChecks(longer, l);
      }
      DurableUntilDamaged(longer, j, k, d.records[i].value);
    }
  }
}
