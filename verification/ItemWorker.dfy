/**
  The coordinator that commits item packets and asks the game to apply their
  aggregate target. Its one suspension point, the command round trip, splits
  the worker into a turn before it and a resumption after it; anything the
  client does in between is an event of its own.
*/
module ItemWorker {
  import opened State
  import opened Ledger
  import Repository

  /** One opened state; a handle is never reused. */
  datatype Session = Session(handle: nat, state: PersistentState)

  datatype Snapshot = Snapshot(nonce: Option<string>, saveSlot: int, saveIdentity: Option<string>, safe: bool,
                               nativeMask: int)

  /** What one command was, or would be, about. */
  datatype Projection = Projection(
    instanceId: string, handle: nat, nonce: string, saveSlot: int, saveIdentity: Option<string>, mask: bv8)

  datatype Runtime = Runtime(
    instanceId: string, handle: nat, nonce: Option<string>, saveSlot: int, saveIdentity: Option<string>, safe: bool)

  datatype Submission = Submission(projection: Projection, generation: nat)

  datatype Phase = Idle | Ready | Awaiting(submission: Submission)

  datatype Outcome = Applied | AlreadyApplied | UnsafeNow | Failed | TransportLost | LocallyRejected

  datatype Coordinator = Coordinator(
    session: Option<Session>,
    sessions: nat,
    packets: seq<Packet>,
    dirty: bool,
    confirmed: Option<Projection>,
    failure: Option<Projection>,
    runtime: Option<Runtime>,
    generation: nat,
    snapshot: Option<Snapshot>,
    phase: Phase)

  datatype Event =
      // Steps of the worker itself; `durable` tells whether a commit succeeds.
    | CommitPacket(durable: bool)
    | Reconcile
    | Complete(outcome: Outcome, receipt: Receipt, durable: bool)
      // What the rest of the client does between them.
    | PacketArrives(packet: Packet)
    | SnapshotArrives(snapshot: Option<Snapshot>)
    | NoteRuntime(seen: Snapshot, loadCompleted: bool)
    | RebuildObserved
    | OtherCommit(state: PersistentState)
    | OpenState(state: PersistentState)
    | DropState
    | ClosePersistence
    | RoomInfo
    | Connected

  const INITIAL := Coordinator(None, 0, [], false, None, None, None, 0, None, Idle)

  // ---- steps ------------------------------------------------------------------

  function Committed(s: PersistentState): PersistentState {
    Repository.AtRevision(s, s.revision + 1)
  }

  function Holding(c: Coordinator, s: PersistentState): Coordinator
    requires c.session.Some?
  {
    c.(session := Some(Session(c.session.value.handle, s)))
  }

  function Closed(c: Coordinator): Coordinator {
    c.(session := None, confirmed := None, failure := None, runtime := None, dirty := true)
  }

  function Woken(c: Coordinator): Coordinator {
    if c.phase.Idle? then c.(phase := Ready) else c
  }

  function ProjectionOf(session: Session, snapshot: Snapshot): Projection
    requires snapshot.nonce.Some?
  {
    Projection(session.state.instanceId, session.handle, snapshot.nonce.value, snapshot.saveSlot,
               snapshot.saveIdentity, TargetMask(session.state))
  }

  /** What an accepted packet leaves in the session. */
  function Absorbed(s: PersistentState, p: Packet): PersistentState
    requires s.nextIndex == |s.journal| && p.index >= 0
  {
    if Apply(s, p).changed then Committed(Apply(s, p).state) else s
  }

  /** The first queued packet is applied and committed. */
  function AfterPacket(c: Coordinator, durable: bool): Coordinator
    requires c.session.Some? && c.packets != []
    requires var s := c.session.value.state; s.nextIndex == |s.journal| && c.packets[0].index >= 0
  {
    var s, p := c.session.value.state, c.packets[0];
    var t := Apply(s, p);
    var popped := c.(packets := c.packets[1..]);
    if t.outcome == Gap || t.outcome == Conflict || t.outcome == PartialOverlap || t.outcome == Duplicate then popped
    else if t.changed && !durable then Closed(popped).(phase := Idle)
    else
      var s' := Absorbed(s, p);
      var reconcile := (t.outcome == Extended && p.entries != []) || t.outcome == Replaced
                       || TargetMask(s) != TargetMask(s') || s'.pending != [];
      Holding(popped, s').(dirty := c.dirty || reconcile, failure := None)
  }

  /** Decide whether a command is due, and submit it. */
  function AfterReconcile(c: Coordinator): Coordinator
    requires c.session.Some?
  {
    if c.snapshot.None? || c.snapshot.value.nonce.None? then c.(phase := Idle)
    else
      var projection := ProjectionOf(c.session.value, c.snapshot.value);
      if !c.dirty && c.session.value.state.pending == [] && c.confirmed == Some(projection) then c.(phase := Idle)
      else if c.failure == Some(projection) then c.(phase := Idle)
      else if !c.snapshot.value.safe then c.(phase := Idle)
      else c.(phase := Awaiting(Submission(projection, c.generation)))
  }

  predicate Acknowledges(outcome: Outcome) {
    outcome == Outcome.Applied || outcome == AlreadyApplied
  }

  function Settled(s: PersistentState, receipt: Receipt): PersistentState {
    var marked := MarkPendingApplied(s, receipt);
    if marked != s then Committed(marked) else s
  }

  /** An acknowledged command settles the pending entries of the session that sent it. */
  function AfterAcknowledgement(c: Coordinator, submission: Submission, receipt: Receipt, durable: bool): Coordinator {
    if c.session.None? || c.session.value.handle != submission.projection.handle then c.(dirty := true)
    else
      var s := c.session.value.state;
      if MarkPendingApplied(s, receipt) != s && !(durable && ValidReceipt(receipt)) then Closed(c)
      else
        Holding(c, Settled(s, receipt))
        .(confirmed := Some(submission.projection), dirty := false, failure := None)
  }

  function AfterResult(c: Coordinator, submission: Submission, outcome: Outcome, receipt: Receipt,
                       durable: bool): Coordinator {
    match outcome
    case TransportLost => Closed(c)
    case UnsafeNow => c.(dirty := true)
    case LocallyRejected => c.(failure := Some(submission.projection))
    case Failed => c.(failure := Some(submission.projection))
    case _ => AfterAcknowledgement(c, submission, receipt, durable)
  }

  /** A rebuild seen while the command was under way outdates its result. */
  function AfterCommand(c: Coordinator, outcome: Outcome, receipt: Receipt, durable: bool): Coordinator
    requires c.phase.Awaiting?
  {
    var r := AfterResult(c, c.phase.submission, outcome, receipt, durable);
    if r.generation != c.phase.submission.generation then r.(dirty := true, failure := None, phase := Ready)
    else r.(phase := Idle)
  }

  function AfterNote(c: Coordinator, seen: Snapshot, loadCompleted: bool): Coordinator
    requires c.session.Some?
  {
    var session := c.session.value;
    var now := Runtime(session.state.instanceId, session.handle, seen.nonce, seen.saveSlot, seen.saveIdentity,
                       seen.safe);
    var mismatch := session.state.binding.Some? && seen.nativeMask >= 0
                    && seen.nativeMask != TargetMask(session.state) as int;
    var moved := c.runtime.None? || c.runtime.value.(safe := now.safe) != now;
    var becameSafe := c.runtime.Some? && !c.runtime.value.safe && now.safe;
    var stale := moved || becameSafe || loadCompleted || mismatch;
    Woken(c.(dirty := c.dirty || stale,
             failure := if stale then None else c.failure,
             confirmed := if mismatch || moved || loadCompleted then None else c.confirmed,
             runtime := Some(now)))
  }

  predicate Rebuilds(c: Coordinator, e: Event) {
    e.RebuildObserved? && c.session.Some? && c.session.value.state.binding.Some?
  }

  function AfterRebuild(c: Coordinator): Coordinator {
    if Rebuilds(c, RebuildObserved) then
      Woken(c.(generation := c.generation + 1, dirty := true, failure := None))
    else c
  }

  function AfterConnected(c: Coordinator): Coordinator {
    var r := c.(dirty := true, confirmed := None, failure := None);
    if c.session.Some? then Woken(r) else r
  }

  /** What commits of the other coordinators leave alone. */
  predicate SameItems(s: PersistentState, t: PersistentState) {
    && t.journal == s.journal && t.counts == s.counts && t.pending == s.pending && t.nextIndex == s.nextIndex
    && t.instanceId == s.instanceId && t.binding == s.binding
  }

  ghost predicate SessionValid(c: Coordinator) {
    forall session :: c.session == Some(session) ==> Valid(session.state)
  }

  /** One event; an event that cannot happen now changes nothing. */
  ghost function Step(c: Coordinator, e: Event): Coordinator
    requires SessionValid(c) && PacketsWellFormed(c.packets)
  {
    match e
    case CommitPacket(durable) =>
      if c.phase.Ready? && c.session.Some? && c.packets != [] then AfterPacket(c, durable) else c
    case Reconcile =>
      if !c.phase.Ready? then c
      else if c.session.None? then c.(phase := Idle)
      else if c.packets != [] then c
      else AfterReconcile(c)
    case Complete(outcome, receipt, durable) =>
      if c.phase.Awaiting? then AfterCommand(c, outcome, receipt, durable) else c
    case PacketArrives(p) => if WellFormed(p) then Woken(c.(packets := c.packets + [p])) else c
    case SnapshotArrives(s) => c.(snapshot := s)
    case NoteRuntime(seen, loaded) => if c.session.Some? then AfterNote(c, seen, loaded) else c
    case RebuildObserved => AfterRebuild(c)
    case OtherCommit(s) =>
      if c.session.Some? && SameItems(c.session.value.state, s) && Valid(s) then Holding(c, s) else c
    case OpenState(s) =>
      if c.session.None? && Valid(s) then c.(session := Some(Session(c.sessions, s)), sessions := c.sessions + 1) else c
    case DropState => c.(session := None)
    case ClosePersistence => Closed(c)
    case RoomInfo => Closed(c.(packets := []))
    case Connected => AfterConnected(c)
  }

  ghost predicate PacketsWellFormed(packets: seq<Packet>) {
    forall i :: 0 <= i < |packets| ==> WellFormed(packets[i])
  }

  // ---- what every step keeps -----------------------------------------------------

  ghost predicate Inv(c: Coordinator) {
    && SessionValid(c) && PacketsWellFormed(c.packets)
    && (c.session.Some? ==> c.session.value.handle < c.sessions)
    && (c.phase.Awaiting? ==>
          && c.phase.submission.generation <= c.generation
          && c.phase.submission.projection.handle < c.sessions
          && (c.session.Some? && c.session.value.handle == c.phase.submission.projection.handle ==>
                c.phase.submission.projection.mask == TargetMask(c.session.value.state)))
  }

  lemma CommittedIsValid(s: PersistentState)
    requires Valid(s)
    ensures Valid(Committed(s)) && TargetMask(Committed(s)) == TargetMask(s)
  {}

  lemma SameItemsSameTarget(s: PersistentState, t: PersistentState)
    requires SameItems(s, t)
    ensures TargetMask(s) == TargetMask(t)
  {}

  lemma AbsorbedIsValid(s: PersistentState, p: Packet)
    requires Valid(s) && WellFormed(p)
    ensures Valid(Absorbed(s, p))
  {
    ApplyKeepsValid(s, p);
    CommittedIsValid(Apply(s, p).state);
  }

  lemma PacketKeeps(c: Coordinator, durable: bool)
    requires Inv(c) && c.phase.Ready? && c.session.Some? && c.packets != []
    ensures Inv(AfterPacket(c, durable))
  {
    assert WellFormed(c.packets[0]) && PacketsWellFormed(c.packets[1..]);
    AbsorbedIsValid(c.session.value.state, c.packets[0]);
  }

  lemma SettledIsValid(s: PersistentState, receipt: Receipt)
    requires Valid(s)
    ensures MarkPendingApplied(s, receipt) == s || ValidReceipt(receipt) ==> Valid(Settled(s, receipt))
    ensures TargetMask(Settled(s, receipt)) == TargetMask(s)
  {
    if ValidReceipt(receipt) {
      MarkingIsValid(s, receipt);
      CommittedIsValid(MarkPendingApplied(s, receipt));
    }
  }

  lemma CompleteKeeps(c: Coordinator, outcome: Outcome, receipt: Receipt, durable: bool)
    requires Inv(c) && c.phase.Awaiting?
    ensures Inv(AfterCommand(c, outcome, receipt, durable))
  {
    AcknowledgementKeeps(c, receipt, durable);
  }

  /** Acknowledged or not, a coordinator that no longer awaits its command keeps the invariant. */
  lemma AcknowledgementKeeps(c: Coordinator, receipt: Receipt, durable: bool)
    requires Inv(c) && c.phase.Awaiting?
    ensures var r := AfterAcknowledgement(c, c.phase.submission, receipt, durable);
            && SessionValid(r) && r.packets == c.packets && r.sessions == c.sessions
            && (r.session.Some? ==> r.session.value.handle < r.sessions)
  {
    if c.session.Some? {
      SettledIsValid(c.session.value.state, receipt);
    }
  }

  lemma StepKeeps(c: Coordinator, e: Event)
    requires Inv(c)
    ensures Inv(Step(c, e))
  {
    match e
    case CommitPacket(durable) =>
      if c.phase.Ready? && c.session.Some? && c.packets != [] {
        PacketKeeps(c, durable);
      }
    case Complete(outcome, receipt, durable) =>
      if c.phase.Awaiting? {
        CompleteKeeps(c, outcome, receipt, durable);
      }
    case OtherCommit(s) =>
      if c.session.Some? && SameItems(c.session.value.state, s) {
        SameItemsSameTarget(c.session.value.state, s);
      }
    case _ =>
  }

  // ---- runs -----------------------------------------------------------------------

  ghost predicate Follows(states: seq<Coordinator>, events: seq<Event>, i: int)
    requires |states| == |events| + 1 && 0 <= i < |events|
  {
    Inv(states[i]) ==> states[i + 1] == Step(states[i], events[i])
  }

  /** The client's coordinator, from its start, over any events in any order. */
  ghost predicate Trace(states: seq<Coordinator>, events: seq<Event>) {
    && |states| == |events| + 1
    && states[0] == INITIAL
    && forall i :: 0 <= i < |events| ==> Follows(states, events, i)
  }

  lemma {:induction false} TraceKeeps(states: seq<Coordinator>, events: seq<Event>, n: nat)
    requires Trace(states, events) && n < |states|
    ensures Inv(states[n])
  {
    if n > 0 {
      TraceKeeps(states, events, n - 1);
      StepKeeps(states[n - 1], events[n - 1]);
      assert Follows(states, events, n - 1);
    }
  }

  // ---- an entry is applied only after its command was acknowledged ------------------

  predicate HoldsEntry(c: Coordinator, i: nat, item: int, state: EntryState) {
    && c.session.Some? && i < |c.session.value.state.journal|
    && c.session.value.state.journal[i].itemId == item && c.session.value.state.journal[i].state == state
  }

  /** In `c`, the event acknowledges a command whose mask held this pending item's bit. */
  predicate Settles(c: Coordinator, e: Event, i: nat, item: int) {
    && e.Complete? && Acknowledges(e.outcome) && c.phase.Awaiting?
    && c.session.Some? && c.session.value.handle == c.phase.submission.projection.handle
    && HoldsEntry(c, i, item, Pending)
    && (BitOf(item) != 0 ==> c.phase.submission.projection.mask & BitOf(item) != 0)
  }

  predicate OpensApplied(e: Event, i: nat, item: int) {
    && e.OpenState? && i < |e.state.journal|
    && e.state.journal[i].itemId == item && e.state.journal[i].state == EntryState.Applied
  }

  lemma PacketAppliesNothing(c: Coordinator, durable: bool, i: nat, item: int)
    requires Inv(c) && c.phase.Ready? && c.session.Some? && c.packets != []
    requires HoldsEntry(AfterPacket(c, durable), i, item, EntryState.Applied)
    ensures HoldsEntry(c, i, item, EntryState.Applied)
  {
    var s, p := c.session.value.state, c.packets[0];
    assert WellFormed(p);
    if i < |Apply(s, p).state.journal| {
      ApplicationStateKept(s, p, i);
    }
  }

  lemma SettledEntry(s: PersistentState, receipt: Receipt, i: nat)
    requires i < |Settled(s, receipt).journal|
    ensures i < |s.journal| && Settled(s, receipt).journal[i] == AppliedEntry(s.journal[i])
  {}

  /** An entry that marking turns into an applied one is pending, and the target holds its bit. */
  lemma SettledEntryMask(s: PersistentState, receipt: Receipt, i: nat, item: int)
    requires ValidLedger(s)
    ensures i < |Settled(s, receipt).journal| ==>
            i < |s.journal| && Settled(s, receipt).journal[i] == AppliedEntry(s.journal[i])
    ensures i < |s.journal| && s.journal[i].itemId == item && BitOf(item) != 0 ==> TargetMask(s) & BitOf(item) != 0
  {
    MaskReflectsJournal(s, item);
    if i < |Settled(s, receipt).journal| {
      SettledEntry(s, receipt, i);
    }
  }

  lemma AcknowledgementSettles(c: Coordinator, submission: Submission, receipt: Receipt, durable: bool, i: nat,
                               item: int)
    requires SessionValid(c)
             && HoldsEntry(AfterAcknowledgement(c, submission, receipt, durable), i, item, EntryState.Applied)
    ensures HoldsEntry(c, i, item, EntryState.Applied)
            || (&& HoldsEntry(c, i, item, Pending) && c.session.value.handle == submission.projection.handle
                && (BitOf(item) != 0 ==> TargetMask(c.session.value.state) & BitOf(item) != 0))
  {
    if c.session.Some? {
      SettledEntryMask(c.session.value.state, receipt, i, item);
    }
  }

  lemma CompletionSettles(c: Coordinator, e: Event, i: nat, item: int)
    requires Inv(c) && e.Complete? && c.phase.Awaiting?
    requires HoldsEntry(AfterCommand(c, e.outcome, e.receipt, e.durable), i, item, EntryState.Applied)
    ensures HoldsEntry(c, i, item, EntryState.Applied) || Settles(c, e, i, item)
  {
    if Acknowledges(e.outcome) {
      AcknowledgementSettles(c, c.phase.submission, e.receipt, e.durable, i, item);
    }
  }

  lemma AppliedStep(c: Coordinator, e: Event, i: nat, item: int)
    requires Inv(c) && HoldsEntry(Step(c, e), i, item, EntryState.Applied)
    ensures HoldsEntry(c, i, item, EntryState.Applied) || Settles(c, e, i, item) || OpensApplied(e, i, item)
  {
    if Step(c, e).session == c.session {
      return;
    }
    match e
    case CommitPacket(durable) =>
      if c.phase.Ready? && c.session.Some? && c.packets != [] {
        PacketAppliesNothing(c, durable, i, item);
      }
    case Complete(_, _, _) =>
      if c.phase.Awaiting? {
        CompletionSettles(c, e, i, item);
      }
    case _ =>
  }

  /**
    Every applied entry became so, and stayed so ever since, when its state was
    opened or when a command that carried its bit was acknowledged, whatever
    happened while the command was under way.
  */
  lemma {:induction false} AppliedWasAcknowledged(states: seq<Coordinator>, events: seq<Event>, n: nat, i: nat,
                                                  item: int)
    returns (k: nat)
    requires Trace(states, events) && n < |states| && HoldsEntry(states[n], i, item, EntryState.Applied)
    ensures k < n && (Settles(states[k], events[k], i, item) || OpensApplied(events[k], i, item))
    ensures !HoldsEntry(states[k], i, item, EntryState.Applied)
    ensures forall m :: k < m <= n ==> HoldsEntry(states[m], i, item, EntryState.Applied)
  {
    k := n - 1;
    TraceKeeps(states, events, k);
    assert Follows(states, events, k);
    AppliedStep(states[k], events[k], i, item);
    if HoldsEntry(states[k], i, item, EntryState.Applied) {
      k := AppliedWasAcknowledged(states, events, k, i, item);
    }
  }

  // ---- a confirmation is never older than the last rebuild ---------------------------

  predicate Submits(before: Coordinator, after: Coordinator, submission: Submission) {
    !before.phase.Awaiting? && after.phase == Awaiting(submission) && submission.generation == before.generation
  }

  ghost predicate AcknowledgedBy(before: Coordinator, e: Event, submission: Submission) {
    e.Complete? && Acknowledges(e.outcome) && before.phase == Awaiting(submission)
  }

  lemma GenerationStep(c: Coordinator, e: Event)
    requires Inv(c)
    ensures Step(c, e).generation == c.generation + if Rebuilds(c, e) then 1 else 0
  {
    match e
    case CommitPacket(durable) =>
      if c.phase.Ready? && c.session.Some? && c.packets != [] {
        PacketConfirmsNothing(c, durable);
      }
    case Complete(outcome, receipt, durable) =>
      if c.phase.Awaiting? {
        OnlyAcknowledgementConfirms(c, outcome, receipt, durable);
      }
    case _ =>
  }

  lemma {:induction false} NoRebuildBetween(states: seq<Coordinator>, events: seq<Event>, k: nat, l: nat)
    requires Trace(states, events) && k <= l < |states|
    ensures states[k].generation <= states[l].generation
    ensures states[k].generation == states[l].generation ==>
              forall m :: k <= m < l ==> !Rebuilds(states[m], events[m])
    decreases l
  {
    if k < l {
      NoRebuildBetween(states, events, k, l - 1);
      TraceKeeps(states, events, l - 1);
      assert Follows(states, events, l - 1);
      GenerationStep(states[l - 1], events[l - 1]);
    }
  }

  lemma PacketConfirmsNothing(c: Coordinator, durable: bool)
    requires Inv(c) && c.phase.Ready? && c.session.Some? && c.packets != []
    ensures var r := AfterPacket(c, durable);
            && !r.phase.Awaiting? && r.generation == c.generation
            && (r.confirmed.Some? && !r.dirty ==> r.confirmed == c.confirmed && !c.dirty)
  {
    assert WellFormed(c.packets[0]);
  }

  lemma OnlyAcknowledgementConfirms(c: Coordinator, outcome: Outcome, receipt: Receipt, durable: bool)
    requires Inv(c) && c.phase.Awaiting?
    ensures var r := AfterCommand(c, outcome, receipt, durable);
            && !r.phase.Awaiting? && r.generation == c.generation
            && (r.confirmed.Some? && !r.dirty ==>
                  || (r.confirmed == c.confirmed && !c.dirty)
                  || (Acknowledges(outcome) && c.phase.submission == Submission(r.confirmed.value, r.generation)))
  {}

  /** How one step may change what is under way and what is confirmed. */
  lemma CommandStep(c: Coordinator, e: Event)
    requires Inv(c)
    ensures var r := Step(c, e);
            r.phase.Awaiting? ==> r.phase == c.phase || Submits(c, r, r.phase.submission)
    ensures var r := Step(c, e);
            r.confirmed.Some? && !r.dirty ==>
              || (r.confirmed == c.confirmed && !c.dirty && r.generation == c.generation)
              || AcknowledgedBy(c, e, Submission(r.confirmed.value, r.generation))
  {
    match e
    case CommitPacket(durable) =>
      if c.phase.Ready? && c.session.Some? && c.packets != [] {
        PacketConfirmsNothing(c, durable);
      }
    case Complete(outcome, receipt, durable) =>
      if c.phase.Awaiting? {
        OnlyAcknowledgementConfirms(c, outcome, receipt, durable);
      }
    case _ =>
  }

  lemma {:induction false} AwaitedWasSubmitted(states: seq<Coordinator>, events: seq<Event>, n: nat) returns (k: nat)
    requires Trace(states, events) && n < |states| && states[n].phase.Awaiting?
    ensures k < n && Submits(states[k], states[k + 1], states[n].phase.submission)
  {
    k := n - 1;
    TraceKeeps(states, events, k);
    assert Follows(states, events, k);
    CommandStep(states[k], events[k]);
    if states[k].phase == states[n].phase {
      k := AwaitedWasSubmitted(states, events, k);
    }
  }

  /**
    Whenever the coordinator is not dirty and holds a confirmation, its command
    was submitted, then acknowledged, and no rebuild was seen from the
    submission on.
  */
  lemma {:induction false} ConfirmedAfterLastRebuild(states: seq<Coordinator>, events: seq<Event>, n: nat)
    returns (k: nat, j: nat)
    requires Trace(states, events) && n < |states|
    requires states[n].confirmed.Some? && !states[n].dirty
    ensures k < j < n
    ensures var submission := Submission(states[n].confirmed.value, states[n].generation);
            Submits(states[k], states[k + 1], submission) && AcknowledgedBy(states[j], events[j], submission)
    ensures forall m :: k <= m < n ==> !Rebuilds(states[m], events[m])
  {
    ghost var submission := Submission(states[n].confirmed.value, states[n].generation);
    j := n - 1;
    TraceKeeps(states, events, j);
    assert Follows(states, events, j);
    CommandStep(states[j], events[j]);
    if AcknowledgedBy(states[j], events[j], submission) {
      k := AwaitedWasSubmitted(states, events, j);
    } else {
      k, j := ConfirmedAfterLastRebuild(states, events, j);
    }
    NoRebuildBetween(states, events, k, n);
  }

  // ---- when commands go out, and what an acknowledgement settles ------------------------

  /** A command is submitted only by an idle queue, for a safe game, about the open state, and when it is due. */
  lemma SubmittedOnlyWhenDue(c: Coordinator, e: Event, submission: Submission)
    requires Inv(c) && Submits(c, Step(c, e), submission)
    ensures e.Reconcile? && c.packets == [] && c.session.Some?
    ensures c.snapshot.Some? && c.snapshot.value.safe && c.snapshot.value.nonce.Some?
    ensures submission.projection == ProjectionOf(c.session.value, c.snapshot.value)
    ensures c.dirty || c.session.value.state.pending != [] || c.confirmed != Some(submission.projection)
    ensures c.failure != Some(submission.projection)
  {
    CommandStep(c, e);
    match e
    case CommitPacket(durable) =>
      if c.phase.Ready? && c.session.Some? && c.packets != [] {
        PacketConfirmsNothing(c, durable);
      }
    case Complete(outcome, receipt, durable) =>
      if c.phase.Awaiting? {
        OnlyAcknowledgementConfirms(c, outcome, receipt, durable);
      }
    case _ =>
  }

  /** A durable acknowledgement for the open state leaves nothing pending and confirms the target. */
  lemma AcknowledgementSettlesAll(c: Coordinator, e: Event)
    requires Inv(c) && e.Complete? && Acknowledges(e.outcome) && e.durable && ValidReceipt(e.receipt)
             && c.phase.Awaiting?
    requires c.session.Some? && c.session.value.handle == c.phase.submission.projection.handle
    ensures var r := Step(c, e);
            && r.session.Some? && r.session.value.state.pending == []
            && (forall i :: 0 <= i < |r.session.value.state.journal| ==>
                !r.session.value.state.journal[i].state.Pending?)
            && r.confirmed == Some(c.phase.submission.projection)
            && r.confirmed.value.mask == TargetMask(r.session.value.state)
            && (r.generation == c.phase.submission.generation ==> !r.dirty && r.phase.Idle?)
            && (r.generation != c.phase.submission.generation ==> r.dirty && r.phase.Ready?)
  {
    AcknowledgedInTime(c, e.outcome, e.receipt);
  }

  /** The entries of this session have been settled by this command. */
  ghost predicate SettledBy(r: Coordinator, submission: Submission) {
    && r.session.Some? && r.session.value.state.pending == []
    && (forall i :: 0 <= i < |r.session.value.state.journal| ==> !r.session.value.state.journal[i].state.Pending?)
    && r.confirmed == Some(submission.projection)
    && submission.projection.mask == TargetMask(r.session.value.state)
  }

  lemma AcknowledgedInTime(c: Coordinator, outcome: Outcome, receipt: Receipt)
    requires Inv(c) && Acknowledges(outcome) && ValidReceipt(receipt) && c.phase.Awaiting?
    requires c.session.Some? && c.session.value.handle == c.phase.submission.projection.handle
    ensures var r, submission := AfterCommand(c, outcome, receipt, true), c.phase.submission;
            && SettledBy(r, submission)
            && (if r.generation == submission.generation then !r.dirty && r.phase.Idle? else r.dirty && r.phase.Ready?)
  {
    AcknowledgementIsSettled(c, c.phase.submission, receipt);
  }

  lemma AcknowledgementIsSettled(c: Coordinator, submission: Submission, receipt: Receipt)
    requires ValidReceipt(receipt)
    requires c.session.Some? && c.session.value.handle == submission.projection.handle
    requires Valid(c.session.value.state) && submission.projection.mask == TargetMask(c.session.value.state)
    ensures var r := AfterAcknowledgement(c, submission, receipt, true);
            SettledBy(r, submission) && !r.dirty && r.generation == c.generation
  {
    SettledIsValid(c.session.value.state, receipt);
    SettledHasNothingPending(c.session.value.state, receipt);
  }

  lemma SettledHasNothingPending(s: PersistentState, receipt: Receipt)
    ensures Settled(s, receipt).pending == []
    ensures forall i :: 0 <= i < |Settled(s, receipt).journal| ==> !Settled(s, receipt).journal[i].state.Pending?
  {}

  // ---- what every step of the worker does, case by case ----------------------------------

  /** What a command for this session and snapshot would be about. */
  ghost predicate IsAbout(p: Projection, session: Session, snapshot: Snapshot) {
    && p.instanceId == session.state.instanceId && p.handle == session.handle
    && snapshot.nonce == Some(p.nonce) && p.saveSlot == snapshot.saveSlot && p.saveIdentity == snapshot.saveIdentity
    && p.mask == TargetMask(session.state)
  }

  /** The game is safe, did not refuse this very command, and may not have what was received. */
  ghost predicate CommandDue(c: Coordinator, p: Projection) {
    && c.session.Some? && c.packets == [] && c.snapshot.Some? && c.snapshot.value.safe
    && IsAbout(p, c.session.value, c.snapshot.value)
    && c.failure != Some(p)
    && (c.dirty || c.session.value.state.pending != [] || c.confirmed != Some(p))
  }

  /** A ready worker without packets submits a command exactly when one is due, and goes idle otherwise. */
  lemma SubmitsExactly(c: Coordinator, p: Projection)
    requires Inv(c) && c.phase.Ready? && (c.session.Some? ==> c.packets == [])
    ensures Step(c, Reconcile) == c.(phase := Awaiting(Submission(p, c.generation))) <==> CommandDue(c, p)
    ensures (forall q :: !CommandDue(c, q)) <==> Step(c, Reconcile) == c.(phase := Idle)
  {
    if c.session.Some? && c.snapshot.Some? && c.snapshot.value.nonce.Some? {
      var q := ProjectionOf(c.session.value, c.snapshot.value);
      assert IsAbout(q, c.session.value, c.snapshot.value);
      assert CommandDue(c, q) <==> Step(c, Reconcile) == c.(phase := Awaiting(Submission(q, c.generation)));
    }
  }

  /** A rebuild of a bound session in a safe game is followed by a command, whatever was confirmed or had failed. */
  lemma RebuildBringsCommand(c: Coordinator)
    requires Inv(c) && Rebuilds(c, RebuildObserved) && !c.phase.Awaiting? && c.packets == []
    requires c.snapshot.Some? && c.snapshot.value.nonce.Some? && c.snapshot.value.safe
    ensures var r := Step(Step(c, RebuildObserved), Reconcile);
            && r.phase.Awaiting? && r.phase.submission.generation == c.generation + 1
            && IsAbout(r.phase.submission.projection, c.session.value, c.snapshot.value)
  {
    var woken := Step(c, RebuildObserved);
    OtherEventsExactly(c, RebuildObserved);
    var p := ProjectionOf(c.session.value, c.snapshot.value);
    StepKeeps(c, RebuildObserved);
    SubmitsExactly(woken, p);
  }

  /** A packet that changes nothing it should not is only dropped; a lost commit closes the session. */
  lemma PacketExactly(c: Coordinator, durable: bool)
    requires Inv(c) && c.phase.Ready? && c.session.Some? && c.packets != []
    ensures var s, r := c.session.value.state, Step(c, CommitPacket(durable));
            var t := Apply(s, c.packets[0]);
            if t.outcome in {Gap, Conflict, PartialOverlap, Duplicate} then r == c.(packets := c.packets[1..])
            else if t.changed && !durable then
              r == c.(packets := c.packets[1..], session := None, confirmed := None, failure := None, runtime := None,
                      dirty := true, phase := Idle)
            else
              && r == c.(packets := c.packets[1..], session := r.session, dirty := r.dirty, failure := None)
              && r.session.Some? && r.session.value.handle == c.session.value.handle
              && r.session.value.state == (if t.changed then t.state.(revision := s.revision + 1) else s)
              && (r.dirty <==>
                    || c.dirty || t.outcome == Replaced || c.packets[0].entries != []
                    || TargetMask(r.session.value.state) != TargetMask(s) || r.session.value.state.pending != [])
  {
    var s, p := c.session.value.state, c.packets[0];
    assert WellFormed(p);
    ApplyKeepsValid(s, p);
  }

  /** What a command's outcome leaves, before a rebuild that came meanwhile is looked at. */
  ghost predicate LeavesBehind(c: Coordinator, outcome: Outcome, receipt: Receipt, durable: bool, r: Coordinator)
    requires c.phase.Awaiting?
  {
    var p := c.phase.submission.projection;
    var closed := c.(session := None, confirmed := None, failure := None, runtime := None, dirty := true);
    match outcome
    case TransportLost => r == closed
    case UnsafeNow => r == c.(dirty := true)
    case LocallyRejected => r == c.(failure := Some(p))
    case Failed => r == c.(failure := Some(p))
    case _ =>
      if c.session.None? || c.session.value.handle != p.handle then r == c.(dirty := true)
      else
        var s := c.session.value.state;
        var marked := MarkPendingApplied(s, receipt);
        if marked == s then r == c.(confirmed := Some(p), dirty := false, failure := None)
        else if !durable || !ValidReceipt(receipt) then r == closed
        else
          && r == c.(session := r.session, confirmed := Some(p), dirty := false, failure := None)
          && r.session == Some(Session(c.session.value.handle, marked.(revision := s.revision + 1)))
  }

  /** A rebuild seen while the command was under way makes the worker dirty and ready again; else it goes idle. */
  lemma ResultExactly(c: Coordinator, outcome: Outcome, receipt: Receipt, durable: bool)
    requires Inv(c) && c.phase.Awaiting?
    ensures var r := Step(c, Complete(outcome, receipt, durable));
            exists left :: LeavesBehind(c, outcome, receipt, durable, left) &&
              r == if c.generation != c.phase.submission.generation
                   then left.(dirty := true, failure := None, phase := Ready) else left.(phase := Idle)
  {
    var left := AfterResult(c, c.phase.submission, outcome, receipt, durable);
    assert LeavesBehind(c, outcome, receipt, durable, left);
  }

  /** The client reads a runtime it has not seen like this: another session, another game session, or another save. */
  ghost predicate RuntimeMoved(c: Coordinator, seen: Snapshot)
    requires c.session.Some?
  {
    c.runtime.None? ||
    (var was, session := c.runtime.value, c.session.value;
     || was.instanceId != session.state.instanceId || was.handle != session.handle
     || was.nonce != seen.nonce || was.saveSlot != seen.saveSlot || was.saveIdentity != seen.saveIdentity)
  }

  /** The game's own mask of a bound session is known and differs from the target. */
  ghost predicate MaskDiffers(c: Coordinator, seen: Snapshot)
    requires c.session.Some?
  {
    && c.session.value.state.binding.Some? && seen.nativeMask >= 0
    && seen.nativeMask != TargetMask(c.session.value.state) as int
  }

  /** What noting the runtime invalidates. */
  lemma NoteExactly(c: Coordinator, seen: Snapshot, loaded: bool)
    requires Inv(c) && c.session.Some?
    ensures var r, session := Step(c, NoteRuntime(seen, loaded)), c.session.value;
            var moved, differs := RuntimeMoved(c, seen), MaskDiffers(c, seen);
            var safeNow := c.runtime.Some? && !c.runtime.value.safe && seen.safe;
            && r == c.(dirty := r.dirty, failure := r.failure, confirmed := r.confirmed, runtime := r.runtime,
                       phase := r.phase)
            && (r.dirty <==> c.dirty || moved || differs || loaded || safeNow)
            && r.failure == (if moved || differs || loaded || safeNow then None else c.failure)
            && r.confirmed == (if moved || differs || loaded then None else c.confirmed)
            && r.phase == (if c.phase.Idle? then Ready else c.phase)
            && r.runtime == Some(Runtime(session.state.instanceId, session.handle, seen.nonce, seen.saveSlot,
                                         seen.saveIdentity, seen.safe))
  {}

  /** What the other events do. */
  lemma OtherEventsExactly(c: Coordinator, e: Event)
    requires Inv(c)
    ensures var r := Step(c, e);
            match e
            case RebuildObserved =>
              r == if c.session.Some? && c.session.value.state.binding.Some?
                   then c.(generation := c.generation + 1, dirty := true, failure := None,
                           phase := if c.phase.Idle? then Ready else c.phase)
                   else c
            case PacketArrives(p) =>
              WellFormed(p) ==> r == c.(packets := c.packets + [p], phase := if c.phase.Idle? then Ready else c.phase)
            case ClosePersistence =>
              r == c.(session := None, confirmed := None, failure := None, runtime := None, dirty := true)
            case RoomInfo =>
              r == c.(session := None, confirmed := None, failure := None, runtime := None, dirty := true,
                      packets := [])
            case Connected =>
              r == c.(dirty := true, confirmed := None, failure := None,
                      phase := if c.session.Some? && c.phase.Idle? then Ready else c.phase)
            case SnapshotArrives(snapshot) => r == c.(snapshot := snapshot)
            case DropState => r == c.(session := None)
            case OpenState(s) =>
              c.session.None? && Valid(s) ==>
                r == c.(session := Some(Session(c.sessions, s)), sessions := c.sessions + 1)
            case OtherCommit(s) =>
              c.session.Some? && SameItems(c.session.value.state, s) && Valid(s) ==>
                r == c.(session := Some(Session(c.session.value.handle, s)))
            case _ => true
  {}

  // ---- the coordinator object --------------------------------------------------------

  lemma TraceSnoc(states: seq<Coordinator>, events: seq<Event>, e: Event, c: Coordinator)
    requires Trace(states, events) && Inv(states[|events|]) && c == Step(states[|events|], e)
    ensures Trace(states + [c], events + [e])
  {
    var states', events' := states + [c], events + [e];
    forall i | 0 <= i < |events'| ensures Follows(states', events', i) {
      if i < |events| {
        assert states'[i] == states[i] && states'[i + 1] == states[i + 1] && events'[i] == events[i];
        assert Follows(states, events, i);
      } else {
        assert states'[i] == states[i] && states'[i + 1] == c && events'[i] == e;
      }
    }
  }

  /** What the worker does by itself. */
  predicate IsWorkerStep(e: Event) {
    e.CommitPacket? || e.Reconcile?
  }

  class Worker {
    var session: Option<Session>
    var sessions: nat
    var packets: seq<Packet>
    var dirty: bool
    var confirmed: Option<Projection>
    var failure: Option<Projection>
    var runtime: Option<Runtime>
    var generation: nat
    var snapshot: Option<Snapshot>
    var phase: Phase

    /** Everything this object went through. */
    ghost var states: seq<Coordinator>
    ghost var events: seq<Event>

    function Now(): Coordinator
      reads this
    {
      Coordinator(session, sessions, packets, dirty, confirmed, failure, runtime, generation, snapshot, phase)
    }

    ghost predicate Valid()
      reads this
    {
      Trace(states, events) && states[|events|] == Now() && Inv(Now())
    }

    constructor ()
      ensures Valid() && Now() == INITIAL && events == []
    {
      session, sessions, packets, dirty := None, 0, [], false;
      confirmed, failure, runtime, generation := None, None, None, 0;
      snapshot, phase := None, Idle;
      states, events := [INITIAL], [];
    }

    ghost method Record(e: Event)
      requires Trace(states, events) && Inv(states[|events|]) && Now() == Step(states[|events|], e)
      modifies this`states, this`events
      ensures Valid() && events == old(events) + [e]
    {
      TraceSnoc(states, events, e, Now());
      StepKeeps(states[|events|], e);
      states, events := states + [Now()], events + [e];
    }

    /** Whether the disk takes the next commit is not up to the client. */
    method TryCommit(next: PersistentState) returns (ok: bool)
      requires session.Some?
      modifies this`session
      ensures session == if ok then Some(Session(old(session).value.handle, Committed(next))) else old(session)
    {
      ok := *;
      if ok {
        session := Some(Session(session.value.handle, Committed(next)));
      }
    }

    method ClosePersistence()
      modifies this`session, this`runtime, this`confirmed, this`failure, this`dirty
      ensures Now() == Closed(old(Now()))
    {
      session, runtime, confirmed, failure, dirty := None, None, None, None, true;
    }

    /** Commit what a packet changed, and see whether the game's target may be stale now. */
    method AcceptPacket(t: Transition, p: Packet, prior: bv8) returns (durable: bool)
      requires session.Some?
      modifies this`session, this`runtime, this`confirmed, this`failure, this`dirty, this`phase
      ensures t.changed && !durable ==> Now() == Closed(old(Now())).(phase := Idle)
      ensures !(t.changed && !durable) ==>
                var s' := if t.changed then Committed(t.state) else old(session).value.state;
                var reconcile := (t.outcome == Extended && p.entries != []) || t.outcome == Replaced
                                 || prior != TargetMask(s') || s'.pending != [];
                Now() == Holding(old(Now()), s').(dirty := old(dirty) || reconcile, failure := None)
    {
      durable := true;
      if t.changed {
        durable := TryCommit(t.state);
        if !durable {
          ClosePersistence();
          phase := Idle;
          return;
        }
      }
      if (t.outcome == Extended && p.entries != []) || t.outcome == Replaced
         || prior != TargetMask(session.value.state) || session.value.state.pending != []
      {
        dirty := true;
      }
      failure := None;
    }

    method CommitReceivedItemsPacket() returns (go: bool, ghost durable: bool)
      requires SessionValid(Now()) && session.Some? && packets != [] && WellFormed(packets[0])
      modifies this`session, this`runtime, this`confirmed, this`failure, this`dirty, this`phase, this`packets
      ensures Now() == AfterPacket(old(Now()), durable)
      ensures phase == if go then old(phase) else Idle
    {
      var p, s := packets[0], session.value.state;
      packets := packets[1..];
      var t := Apply(s, p);
      go, durable := true, true;
      if !(t.outcome == Gap || t.outcome == Conflict || t.outcome == PartialOverlap || t.outcome == Duplicate) {
        var ok := AcceptPacket(t, p, TargetMask(s));
        durable := ok;
        go := ok || !t.changed;
      }
    }

    /** Decide whether a command is due; if so, the worker suspends on it. */
    method ReconcilePermanentItems()
      requires Valid() && phase.Ready? && session.Some? && packets == []
      modifies this
      ensures Valid() && events == old(events) + [Reconcile]
      ensures !phase.Ready? && packets == [] && session == old(session)
    {
      phase := Idle;
      if snapshot.Some? && snapshot.value.nonce.Some? {
        var projection := ProjectionOf(session.value, snapshot.value);
        var settled := !dirty && session.value.state.pending == [] && confirmed == Some(projection);
        if !settled && failure != Some(projection) && snapshot.value.safe {
          phase := Awaiting(Submission(projection, generation));
        }
      }
      Record(Reconcile);
    }

    /** The worker's loop, up to its suspension on a command or its end. */
    method Turn()
      requires Valid() && phase.Ready?
      modifies this
      ensures Valid() && !phase.Ready?
      ensures old(events) < events && forall i :: |old(events)| <= i < |events| ==> IsWorkerStep(events[i])
      ensures phase.Awaiting? ==> packets == [] && session.Some?
    {
      while true
        invariant Valid() && phase.Ready?
        invariant old(events) <= events && forall i :: |old(events)| <= i < |events| ==> IsWorkerStep(events[i])
        decreases |packets|
      {
        if session.None? {
          phase := Idle;
          Record(Reconcile);
          return;
        }
        if packets != [] {
          assert WellFormed(packets[0]);
          var go, durable := CommitReceivedItemsPacket();
          Record(CommitPacket(durable));
          if !go {
            return;
          }
        } else {
          ReconcilePermanentItems();
          return;
        }
      }
    }

    /** The command came back, or did not. */
    method TakeResult(submission: Submission, outcome: Outcome, receipt: Receipt) returns (durable: bool)
      modifies this`session, this`runtime, this`confirmed, this`failure, this`dirty
      ensures Now() == AfterResult(old(Now()), submission, outcome, receipt, durable)
    {
      durable := true;
      match outcome {
        case TransportLost => ClosePersistence();
        case UnsafeNow => dirty := true;
        case LocallyRejected => failure := Some(submission.projection);
        case Failed => failure := Some(submission.projection);
        case _ => durable := Acknowledge(submission, receipt);
      }
    }

    /** What the worker does when its suspension ends; it loops if a rebuild was seen meanwhile. */
    method Resume(outcome: Outcome, receipt: Receipt)
      requires Valid() && phase.Awaiting?
      modifies this
      ensures Valid() && !phase.Awaiting?
      ensures exists durable :: events == old(events) + [Complete(outcome, receipt, durable)]
      ensures phase.Ready? <==> generation != old(phase).submission.generation
    {
      var durable := FinishCommand(outcome, receipt);
      Record(Complete(outcome, receipt, durable));
    }

    method FinishCommand(outcome: Outcome, receipt: Receipt) returns (durable: bool)
      requires phase.Awaiting?
      modifies this`session, this`runtime, this`confirmed, this`failure, this`dirty, this`phase
      ensures Now() == AfterCommand(old(Now()), outcome, receipt, durable)
    {
      var submission := phase.submission;
      durable := TakeResult(submission, outcome, receipt);
      phase := Idle;
      if generation != submission.generation {
        dirty, failure, phase := true, None, Ready;
      }
    }

    method Acknowledge(submission: Submission, receipt: Receipt) returns (durable: bool)
      modifies this`session, this`runtime, this`confirmed, this`failure, this`dirty
      ensures Now() == AfterAcknowledgement(old(Now()), submission, receipt, durable)
    {
      durable := true;
      if session.None? || session.value.handle != submission.projection.handle {
        dirty := true;
        return;
      }
      var marked := MarkPendingApplied(session.value.state, receipt);
      if marked != session.value.state {
        durable := ValidReceipt(receipt);
        if durable {
          durable := TryCommit(marked);
        }
        if !durable {
          ClosePersistence();
          return;
        }
      }
      confirmed, dirty, failure := Some(submission.projection), false, None;
    }

    method Wake()
      modifies this`phase
      ensures Now() == Woken(old(Now()))
    {
      if phase.Idle? {
        phase := Ready;
      }
    }

    method ScheduleAfterNativeRebuild()
      requires Valid()
      modifies this
      ensures Valid() && events == old(events) + [RebuildObserved]
    {
      if session.Some? && session.value.state.binding.Some? {
        generation, dirty, failure := generation + 1, true, None;
        Wake();
      }
      Record(RebuildObserved);
    }

    method NoteRuntime(seen: Snapshot, loadCompleted: bool)
      requires session.Some?
      modifies this`dirty, this`failure, this`confirmed, this`runtime, this`phase
      ensures Now() == AfterNote(old(Now()), seen, loadCompleted)
    {
      var s := session.value.state;
      var mismatch := s.binding.Some? && seen.nativeMask >= 0 && seen.nativeMask != TargetMask(s) as int;
      var now := Runtime(s.instanceId, session.value.handle, seen.nonce, seen.saveSlot, seen.saveIdentity, seen.safe);
      var previous := runtime;
      var moved := previous.None? || previous.value.(safe := now.safe) != now;
      var becameSafe := previous.Some? && !previous.value.safe && now.safe;
      if moved || becameSafe || loadCompleted || mismatch {
        dirty, failure := true, None;
      }
      if mismatch {
        confirmed := None;
      }
      if moved || loadCompleted {
        confirmed := None;
      }
      runtime := Some(now);
      Wake();
    }

    method SynchronizePersistence(seen: Snapshot, loadCompleted: bool)
      requires Valid()
      modifies this
      ensures Valid() && events == old(events) + [Event.NoteRuntime(seen, loadCompleted)]
    {
      if session.Some? {
        NoteRuntime(seen, loadCompleted);
      }
      Record(Event.NoteRuntime(seen, loadCompleted));
    }

    method ObserveReceivedItems(packet: Packet)
      requires Valid() && WellFormed(packet)
      modifies this
      ensures Valid() && events == old(events) + [PacketArrives(packet)]
    {
      packets := packets + [packet];
      Wake();
      Record(PacketArrives(packet));
    }

    method OnRoomInfo()
      requires Valid()
      modifies this
      ensures Valid() && events == old(events) + [RoomInfo]
    {
      packets, confirmed, runtime, dirty := [], None, None, false;
      ClosePersistence();
      Record(RoomInfo);
    }

    method ForgetConfirmation()
      modifies this`dirty, this`confirmed, this`failure, this`phase
      ensures Now() == AfterConnected(old(Now()))
    {
      dirty, confirmed, failure := true, None, None;
      if session.Some? {
        Wake();
      }
    }

    method OnConnected()
      requires Valid()
      modifies this
      ensures Valid() && events == old(events) + [Connected]
    {
      ForgetConfirmation();
      Record(Connected);
    }

    /** The session opened, replaced, dropped or advanced by another coordinator. */
    method SessionChanges(e: Event)
      requires Valid()
      requires e.OtherCommit? || e.OpenState? ==> State.Valid(e.state)
      requires match e
               case OtherCommit(s) => session.Some? && SameItems(session.value.state, s)
               case OpenState(_) => session.None?
               case DropState => true
               case ClosePersistence => true
               case SnapshotArrives(_) => true
               case _ => false
      modifies this
      ensures Valid() && events == old(events) + [e]
    {
      if e.OtherCommit? {
        session := Some(Session(session.value.handle, e.state));
      } else if e.OpenState? {
        session, sessions := Some(Session(sessions, e.state)), sessions + 1;
      } else if e.DropState? {
        session := None;
      } else if e.SnapshotArrives? {
        snapshot := e.snapshot;
      } else {
        ClosePersistence();
      }
      Record(e);
    }
  }
}
