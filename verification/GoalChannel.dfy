/**
  From a snapshot's records to acknowledgements on the wire: location records
  are committed first, the drain says how far it got, and only that is sent.
*/
module GoalChannel {
  import opened Registry
  import opened Sorting
  import opened State
  import opened GoalDrain
  import Disk
  import History
  import Locations
  import Repository

  const LOCATION_OBSERVED := 600
  const CORRELATION_LOCATION := 3

  datatype Snapshot = Snapshot(
    malformed: bool, schemaVersion: Option<int>, manifestVersion: Option<int>, activation: Option<int>,
    dropped: int, next: int, records: seq<Record>)

  /** What the client remembers of the producer. */
  datatype Source = Source(
    channel: Option<int>, activation: Option<int>, next: Option<int>, dropped: int, resetFailed: bool,
    drainFailed: bool)

  const UNSEEN := Source(None, None, None, 0, false, false)

  /** What one drain saw and returned, what was durably checked by then, and the operations the disk had logged. */
  datatype Drain = Drain(epoch: nat, activation: int, next: int, records: seq<Record>, returned: Option<int>,
                         checked: set<int>, log: seq<Disk.Op>)

  function ChannelState(s: Snapshot): int {
    if s.malformed then -1
    else if s.schemaVersion == Some(1) && s.manifestVersion == Some(1) && s.activation.Some? then 1
    else 0
  }

  predicate SourceChanged(source: Source, s: Snapshot)
    requires s.activation.Some?
  {
    || (source.activation.Some? && source.activation != s.activation)
    || (source.next.Some? && s.next < source.next.value)
    || (source.channel.Some? && source.channel != Some(1))
  }

  /** The record reports a location this client can observe, with the fields it must have. */
  predicate WellFormedLocation(r: Record) {
    && r.code == LOCATION_OBSERVED && r.kind == CORRELATION_LOCATION
    && IsObservable(r.value)
    && r.arg0 == TaskOf(r.value) && r.arg1 == SourceCodeOf(r.value) && r.arg2 == NativeNodeOf(r.value)
  }

  /** The eight reports there are: seven story tasks by their number, and one reward of the sixteenth. */
  lemma WellFormedExactly(r: Record)
    ensures WellFormedLocation(r) <==>
              && r.code == 600 && r.kind == 3
              && (|| (&& 743_001_010 <= r.value <= 743_001_016
                      && r.arg0 == r.value - 743_001_000 && r.arg1 == 0 && r.arg2 == 0)
                  || (r.value == 743_020_036 && r.arg0 == 16 && r.arg1 == 1 && r.arg2 == 36))
  {}

  function GoalLocations(): set<int> {
    {743_001_016, FIRST_ARMOR_REWARD}
  }

  /** The test-only goal: both locations of the last task are checked. */
  function TemporaryGoal(enabled: bool, s: PersistentState): PersistentState {
    if enabled && !s.goalCompleted && GoalLocations() <= Elements(s.checked)
    then s.(goalCompleted := true, goalStatusSent := false) else s
  }

  /** The last story task and the first armour reward are checked. */
  ghost predicate LastTaskChecked(s: PersistentState) {
    743_001_016 in Elements(s.checked) && 743_020_036 in Elements(s.checked)
  }

  /** A goal that becomes completed is still to be told to the server. */
  lemma GoalIsValid(enabled: bool, s: PersistentState)
    requires Valid(s)
    ensures var t := TemporaryGoal(enabled, s);
            && t == s.(goalCompleted := t.goalCompleted, goalStatusSent := t.goalStatusSent)
            && t.goalCompleted == (s.goalCompleted || (enabled && LastTaskChecked(s)))
            && t.goalStatusSent == (s.goalStatusSent && t.goalCompleted == s.goalCompleted)
            && Valid(t) && Valid(Repository.AtRevision(t, s.revision + 1))
  {}

  function Observed(enabled: bool, s: PersistentState, location: int): PersistentState
    requires Locations.ObserveLocal(s, location).Moved?
  {
    TemporaryGoal(enabled, Locations.ObserveLocal(s, location).transition.state)
  }

  /** The two states differ in nothing a commit is refused for. */
  predicate SameBearings(s: PersistentState, next: PersistentState) {
    && next.instanceId == s.instanceId && next.revision == s.revision && next.binding == s.binding
    && next.saveIdentity == s.saveIdentity && next.saveSlot == s.saveSlot
  }

  /** One more checked location, still to be sent, and perhaps the goal; nothing else changes. */
  ghost predicate RecordsLocation(enabled: bool, s: PersistentState, t: PersistentState, location: int) {
    && t == s.(revision := t.revision, checked := t.checked, outbox := t.outbox,
               goalCompleted := t.goalCompleted, goalStatusSent := t.goalStatusSent)
    && Elements(t.checked) == Elements(s.checked) + {location}
    && t.goalCompleted == (s.goalCompleted || (enabled && LastTaskChecked(t)))
    && t.goalStatusSent == (s.goalStatusSent && t.goalCompleted == s.goalCompleted)
  }

  lemma ObservedIsValid(enabled: bool, s: PersistentState, location: int) returns (next: PersistentState)
    requires Valid(s) && IsObservable(location)
    ensures Locations.ObserveLocal(s, location).Moved? && Valid(Observed(enabled, s, location))
            && next == Repository.AtRevision(Observed(enabled, s, location), s.revision + 1)
    ensures Valid(next) && RecordsLocation(enabled, s, next, location)
    ensures RecordsLocation(enabled, s, Observed(enabled, s, location), location)
  {
    Locations.ObservationIsExact(s, location);
    var moved := Locations.ObserveLocal(s, location).transition.state;
    GoalIsValid(enabled, moved);
    next := Repository.AtRevision(TemporaryGoal(enabled, moved), s.revision + 1);
  }

  lemma CommittedRecords(enabled: bool, s: PersistentState, next: PersistentState, location: int)
    requires RecordsLocation(enabled, s, next, location)
    ensures RecordsLocation(enabled, s, Repository.AtRevision(next, s.revision + 1), location)
  {}

  /** Every location record up to the acknowledged number was durable when the drain returned. */
  ghost predicate Durable(d: Drain, acknowledged: int) {
    forall i :: 0 <= i < |d.records| && d.records[i].code == LOCATION_OBSERVED && d.records[i].sequence <= acknowledged
      ==> d.records[i].value in d.checked
  }

  /** The files had recovered to a state that has these locations checked. */
  ghost predicate OnDisk(log: seq<Disk.Op>, checked: set<int>) {
    checked == {} ||
    (Disk.LegalLog(log) && exists s :: Repository.Recorded(log, s) && Elements(s.checked) == checked)
  }

  /** A drain of this activation returned exactly this number, after the commits it covers reached the disk. */
  ghost predicate Warrants(d: Drain, activation: int, sequence: int) {
    d.activation == activation && d.returned == Some(sequence) && Durable(d, sequence) && OnDisk(d.log, d.checked)
  }

  /** Some drain of this source generation warrants the number. */
  ghost predicate WarrantedIn(drains: seq<Drain>, epoch: nat, activation: int, sequence: int) {
    exists i :: 0 <= i < |drains| && drains[i].epoch == epoch && Warrants(drains[i], activation, sequence)
  }

  /** One source generation of the timeline never mixes two producers or runs backwards. */
  ghost predicate OneProducer(drains: seq<Drain>) {
    && (forall i, j :: 0 <= i < j < |drains| ==> drains[i].epoch <= drains[j].epoch)
    && (forall i, j :: 0 <= i < j < |drains| && drains[i].epoch == drains[j].epoch ==>
          drains[i].activation == drains[j].activation && drains[i].next <= drains[j].next)
  }

  /** Every drain after this one returned nothing, or a smaller number of the same activation. */
  ghost predicate LaterReturnLess(drains: seq<Drain>, from: nat, activation: int, sequence: int) {
    forall i :: from < i < |drains| && drains[i].returned.Some? ==>
      drains[i].activation == activation && drains[i].returned.value < sequence
  }

  /** The number waiting to be sent is the one this drain returned, and no later drain caught up with it. */
  ghost predicate Carries(drains: seq<Drain>, from: nat, activation: int, sequence: int) {
    && from < |drains| && Warrants(drains[from], activation, sequence)
    && LaterReturnLess(drains, from, activation, sequence)
  }

  /** The waiting number belongs to the present numbering exactly if its drain does. */
  lemma CarriedExactly(drains: seq<Drain>, from: nat, activation: int, sequence: int, epoch: nat)
    requires OneProducer(drains) && Carries(drains, from, activation, sequence)
    requires forall i :: 0 <= i < |drains| ==> drains[i].epoch <= epoch
    ensures WarrantedIn(drains, epoch, activation, sequence) <==> drains[from].epoch == epoch
  {
    if WarrantedIn(drains, epoch, activation, sequence) {
      var i :| 0 <= i < |drains| && drains[i].epoch == epoch && Warrants(drains[i], activation, sequence);
      assert i <= from;
    }
  }

  /** An acknowledgement on the wire: the drain it came from, and the source generation when it was sent. */
  datatype Ack = Ack(activation: int, sequence: int, drain: nat, epoch: nat)

  ghost predicate Warranted(drains: seq<Drain>, a: Ack) {
    a.drain < |drains| && Warrants(drains[a.drain], a.activation, a.sequence) && drains[a.drain].epoch <= a.epoch
  }

  /** The remembered producer is the one the current generation has drained. */
  ghost predicate Current(drains: seq<Drain>, generation: nat, source: Source) {
    forall i :: 0 <= i < |drains| ==>
      && drains[i].epoch <= generation
      && (drains[i].epoch == generation ==>
            source.activation == Some(drains[i].activation) && source.next.Some?
            && drains[i].next <= source.next.value)
  }

  /** What the drains, the waiting number and the acknowledgements sent have to do with each other. */
  ghost predicate Consistent(drains: seq<Drain>, generation: nat, source: Source, pending: Option<(int, int)>,
                             carried: nat, sent: seq<Ack>) {
    && OneProducer(drains) && Current(drains, generation, source)
    && (pending.Some? ==> carried < |drains| && Warrants(drains[carried], pending.value.0, pending.value.1))
    && forall i :: 0 <= i < |sent| ==> Warranted(drains, sent[i])
  }

  /** The same as one fact. */
  ghost predicate InStep(drains: seq<Drain>, generation: nat, source: Source, pending: Option<(int, int)>, carried: nat,
                       sent: seq<Ack>) {
    forall g :: g == generation ==> Consistent(drains, g, source, pending, carried, sent)
  }

  /** No later drain has returned as much as what waits. */
  ghost predicate Latest(drains: seq<Drain>, pending: Option<(int, int)>, carried: nat) {
    pending.Some? ==> LaterReturnLess(drains, carried, pending.value.0, pending.value.1)
  }

  /** A changed memory of the producer that still names the one drained in this generation. */
  predicate SameProducer(before: Source, after: Source) {
    && (before.activation.Some? ==> after.activation == before.activation)
    && (before.next.Some? ==> after.next.Some? && before.next.value <= after.next.value)
  }

  lemma SourceMoves(drains: seq<Drain>, generation: nat, source: Source, pending: Option<(int, int)>, carried: nat,
                    sent: seq<Ack>, moved: Source)
    requires InStep(drains, generation, source, pending, carried, sent) && SameProducer(source, moved)
    ensures InStep(drains, generation, moved, pending, carried, sent)
  {
    assert Consistent(drains, generation, source, pending, carried, sent);
  }

  lemma GenerationStarts(drains: seq<Drain>, generation: nat, source: Source, pending: Option<(int, int)>, carried: nat,
                         sent: seq<Ack>)
    requires InStep(drains, generation, source, pending, carried, sent)
    ensures InStep(drains, generation + 1, UNSEEN, pending, carried, sent)
  {
    assert Consistent(drains, generation, source, pending, carried, sent);
  }

  lemma DrainAdded(drains: seq<Drain>, generation: nat, source: Source, pending: Option<(int, int)>, carried: nat,
                   sent: seq<Ack>, d: Drain)
    requires InStep(drains, generation, source, pending, carried, sent)
    requires d.epoch == generation && source.activation == Some(d.activation) && source.next == Some(d.next)
    ensures InStep(drains + [d], generation, source, pending, carried, sent)
  {
    assert Consistent(drains, generation, source, pending, carried, sent);
    var longer := drains + [d];
    assert forall i :: 0 <= i < |drains| ==> longer[i] == drains[i];
  }

  lemma Scheduled(drains: seq<Drain>, generation: nat, source: Source, pending: Option<(int, int)>, carried: nat,
                  sent: seq<Ack>, activation: int, sequence: int)
    requires InStep(drains, generation, source, pending, carried, sent)
    requires drains != [] && Warrants(drains[|drains| - 1], activation, sequence)
    ensures InStep(drains, generation, source, Some((activation, sequence)), |drains| - 1, sent)
    ensures Latest(drains, Some((activation, sequence)), |drains| - 1)
  {
    assert Consistent(drains, generation, source, pending, carried, sent);
  }

  /** What waits was returned by its drain; sending it, or forgetting it, keeps everything in step. */
  lemma Released(drains: seq<Drain>, generation: nat, source: Source, pending: Option<(int, int)>, carried: nat,
                 sent: seq<Ack>)
    requires InStep(drains, generation, source, pending, carried, sent)
    ensures InStep(drains, generation, source, None, carried, sent)
    ensures pending.Some? ==>
              && Warranted(drains, Ack(pending.value.0, pending.value.1, carried, generation))
              && InStep(drains, generation, source, None, carried,
                        sent + [Ack(pending.value.0, pending.value.1, carried, generation)])
  {
    assert Consistent(drains, generation, source, pending, carried, sent);
    if pending.Some? {
      var a := Ack(pending.value.0, pending.value.1, carried, generation);
      assert forall i :: 0 <= i < |sent| ==> (sent + [a])[i] == sent[i];
    }
  }

  /** A drain that returns nothing leaves what waits the latest. */
  lemma LatestStays(drains: seq<Drain>, d: Drain, pending: Option<(int, int)>, carried: nat)
    requires Latest(drains, pending, carried) && d.returned.None?
    ensures Latest(drains + [d], pending, carried)
  {
    assert forall i :: 0 <= i < |drains| ==> (drains + [d])[i] == drains[i];
  }

  lemma TimelyExactly(drains: seq<Drain>, generation: nat, source: Source, pending: Option<(int, int)>, carried: nat,
                      sent: seq<Ack>)
    requires InStep(drains, generation, source, pending, carried, sent) && Latest(drains, pending, carried)
    requires pending.Some?
    ensures carried < |drains| && drains[carried].epoch <= generation
    ensures WarrantedIn(drains, generation, pending.value.0, pending.value.1) <==> drains[carried].epoch == generation
  {
    assert Consistent(drains, generation, source, pending, carried, sent);
    CarriedExactly(drains, carried, pending.value.0, pending.value.1, generation);
  }

  ghost predicate SessionValid(session: Option<PersistentState>) {
    forall s :: session == Some(s) ==> Valid(s)
  }

  ghost predicate LocationCommitted(session: Option<PersistentState>, r: Record) {
    WellFormedLocation(r) && session.Some? && r.value in Elements(session.value.checked)
  }

  ghost predicate AllCommitted(session: Option<PersistentState>, records: seq<Record>) {
    forall i :: 0 <= i < |records| && records[i].code == LOCATION_OBSERVED ==> LocationCommitted(session, records[i])
  }

  ghost predicate CommittedUpTo(session: Option<PersistentState>, records: seq<Record>, n: int) {
    forall i :: 0 <= i < |records| && records[i].code == LOCATION_OBSERVED && records[i].sequence <= n
      ==> LocationCommitted(session, records[i])
  }

  ghost predicate SomeSequence(records: seq<Record>, n: int) {
    exists i :: 0 <= i < |records| && records[i].sequence == n
  }

  method SortOrdered(records: seq<Record>) returns (sorted: seq<Record>)
    requires StrictlyOrdered(records)
    ensures sorted == records
  {
    SortKeepsOrdered(records);
    sorted := Sort(records);
  }

  /** Some first records were passed on; the last of them is returned exactly if all that was tried was written. */
  ghost predicate Exhausts(records: seq<Record>, taken: nat, all: bool, highest: Option<int>) {
    taken <= |records| && (all <==> highest == if taken == 0 then None else Some(records[taken - 1].sequence))
  }

  lemma PrefixExhausted(safe: seq<Record>, records: seq<Record>, all: bool, highest: Option<int>)
    requires StrictlyOrdered(records) && safe <= records && (highest.Some? ==> SomeSequence(safe, highest.value))
    requires all <==> (safe == [] <==> highest.None?)
                      && forall i :: 0 <= i < |safe| ==> safe[i].sequence <= highest.value
    ensures Exhausts(records, |safe|, all, highest)
  {
    if safe != [] {
      assert safe[|safe| - 1] == records[|safe| - 1];
      assert forall i :: 0 <= i < |safe| ==> safe[i] == records[i];
    }
  }

  lemma CommittedStays(before: Option<PersistentState>, after: Option<PersistentState>, records: seq<Record>)
    requires AllCommitted(before, records) && CheckedGrows(before, after)
    ensures AllCommitted(after, records)
  {}

  lemma OneMoreCommitted(session: Option<PersistentState>, records: seq<Record>, k: nat)
    requires k < |records| && AllCommitted(session, records[..k])
    requires records[k].code == LOCATION_OBSERVED ==> LocationCommitted(session, records[k])
    ensures AllCommitted(session, records[..k + 1])
  {
    assert forall i :: 0 <= i < k ==> records[..k + 1][i] == records[..k][i];
  }

  lemma PrefixCommitted(session: Option<PersistentState>, safe: seq<Record>, records: seq<Record>, n: int)
    requires StrictlyOrdered(records) && safe <= records && AllCommitted(session, safe) && SomeSequence(safe, n)
    ensures SomeSequence(records, n) && CommittedUpTo(session, records, n)
  {
    var i :| 0 <= i < |safe| && safe[i].sequence == n;
    assert forall k :: 0 <= k < |safe| ==> safe[k] == records[k];
  }

  /** What is returned is a record's number, and every location up to it is committed. */
  ghost predicate Returned(session: Option<PersistentState>, records: seq<Record>, highest: Option<int>) {
    forall n :: highest == Some(n) ==> SomeSequence(records, n) && CommittedUpTo(session, records, n)
  }

  ghost predicate CheckedGrows(before: Option<PersistentState>, after: Option<PersistentState>) {
    before.Some? ==> after.Some? && Elements(before.value.checked) <= Elements(after.value.checked)
  }

  predicate CanCommit(session: Option<PersistentState>, readOnly: bool, r: Record) {
    WellFormedLocation(r) && !readOnly && session.Some? && session.value.binding.Some?
  }

  class Channel {
    const timeline: Timeline
    const testGoal: bool
    var store: Option<Repository.StateSession>
    /** The state the store shows. */
    var session: Option<PersistentState>
    var readOnly: bool
    var source: Source
    var pending: Option<(int, int)>
    /** The locations handed to the disk, and whether it took them. */
    ghost var commits: seq<(int, bool)>
    /** What was drained, which drain the waiting number came from, and what went to the wire. */
    ghost var drains: seq<Drain>
    ghost var carried: nat
    ghost var sent: seq<Ack>

    ghost predicate Sound()
      reads this, timeline
    {
      && timeline.Valid() && SessionValid(session)
      && InStep(drains, timeline.generation, source, pending, carried, sent)
    }

    /** Whatever was returned has also been scheduled. */
    ghost predicate Valid()
      reads this, timeline
    {
      Sound() && Latest(drains, pending, carried)
    }

    /** The waiting number was returned by a drain of the present source generation. */
    ghost predicate Timely()
      reads this, timeline
    {
      pending.Some? && WarrantedIn(drains, timeline.generation, pending.value.0, pending.value.1)
    }

    ghost function Footprint(): set<object>
      reads this`store
    {
      match store
      case None => {}
      case Some(open) => {open, open.repository, open.repository.disk}
    }

    lemma Apart()
      ensures this !in Footprint() && timeline !in Footprint()
    {}

    /** The session is the open one, as the disk knows it. */
    ghost predicate Linked()
      reads this`store, this`session, Footprint()
    {
      && (store.Some? <==> session.Some?)
      && forall s :: session == Some(s) ==> store.value.Valid() && store.value.state == s
    }

    ghost function LogOf(): seq<Disk.Op>
      reads this`store, Footprint()
    {
      if store.Some? then store.value.repository.disk.ops else []
    }

    /** The session is open, and the disk is where the session left it. */
    ghost predicate UpToDate()
      reads this`store, this`session, Footprint()
    {
      && store.Some? && session.Some? && !store.value.closed
      && Disk.Holds(store.value.repository.disk.files, Disk.Primary, session.value)
    }

    /** How many file operations of the store have raised. */
    ghost function Raised(): nat
      reads this`store, Footprint()
    {
      if store.Some? then store.value.repository.disk.failures else 0
    }

    lemma LinkedIsValid()
      requires Linked()
      ensures SessionValid(session)
    {
      forall s | session == Some(s) ensures State.Valid(s) {
        assert store.value.Valid();
      }
    }

    lemma LinkedIsOnDisk()
      requires Linked()
      ensures OnDisk(LogOf(), if session.Some? then Elements(session.value.checked) else {})
    {
      if store.Some? {
        assert store.value.Valid();
      }
    }

    constructor (timeline: Timeline, testGoal: bool)
      requires timeline.Valid()
      ensures Linked() && store.None? && Valid() && this.timeline == timeline && this.testGoal == testGoal
      ensures sent == [] && drains == []
    {
      this.timeline, this.testGoal := timeline, testGoal;
      store, session, readOnly, source, pending := None, None, false, UNSEEN, None;
      commits, drains, carried, sent := [], [], 0, [];
    }

    /** Commit one observation; success means the location is durably checked. */
    method CommitObservation(r: Record) returns (ok: bool)
      requires SessionValid(session) && Linked()
      modifies this`session, this`readOnly, this`commits, Footprint()
      ensures SessionValid(session) && Linked()
      ensures !CanCommit(old(session), old(readOnly), r) ==> !ok && commits == old(commits)
      ensures readOnly == (old(readOnly) || !WellFormedLocation(r)
                           || (!ok && old(session).Some? && old(session).value.binding.Some?))
      ensures ok ==>
                && session.Some? && old(session).Some?
                && RecordsLocation(testGoal, old(session).value, session.value, r.value)
                && (session == old(session) || session.value.revision == old(session).value.revision + 1)
      ensures commits == old(commits) +
              if session != old(session) then [(r.value, true)]
              else if CanCommit(old(session), old(readOnly), r) && !ok then [(r.value, false)]
              else []
      ensures !ok ==> session == old(session)
      ensures CanCommit(old(session), old(readOnly), r) && old(UpToDate()) ==> (ok <==> Raised() == old(Raised()))
    {
      ok := false;
      if !WellFormedLocation(r) {
        readOnly := true;
        return;
      }
      if readOnly || session.None? || session.value.binding.None? {
        return;
      }
      ghost var committed := ObservedIsValid(testGoal, session.value, r.value);
      var next := Observed(testGoal, session.value, r.value);
      CommittedRecords(testGoal, session.value, next, r.value);
      ok := next == session.value;
      if !ok {
        ok := CommitNext(next, r.value);
      }
    }

    /** Commit the observed state; a commit that fails freezes the channel. */
    method CommitNext(next: PersistentState, location: int) returns (ok: bool)
      requires Linked() && session.Some? && !readOnly && State.Valid(next)
      modifies this`session, this`readOnly, this`commits, Footprint()
      ensures SessionValid(session) && Linked() && readOnly == !ok
      ensures ok ==> session.Some? && session.value == Repository.AtRevision(next, old(session.value.revision) + 1)
      ensures if ok then session != old(session) else session == old(session)
      ensures commits == old(commits) + [(location, ok)]
      ensures old(UpToDate() && SameBearings(session.value, next)) ==> (ok <==> Raised() == old(Raised()))
    {
      ghost var s := session.value;
      ok := Store(next);
      LinkedIsValid();
      commits := commits + [(location, ok)];
      readOnly := !ok;
      assert ok ==> session.value.revision != s.revision;
    }

    /** Commit the successor through the open session. */
    method Store(next: PersistentState) returns (ok: bool)
      requires Linked() && session.Some? && State.Valid(next)
      modifies this`session, Footprint()
      ensures Linked()
      ensures ok ==> session.Some? && session.value == Repository.AtRevision(next, old(session.value.revision) + 1)
      ensures !ok ==> session == old(session)
      ensures old(UpToDate() && SameBearings(session.value, next)) ==> (ok <==> Raised() == old(Raised()))
    {
      var open := store.value;
      assert open.Valid() && open.state == session.value;
      var outcome := open.Commit(next);
      ok := outcome.Ok?;
      if ok {
        session := Some(open.state);
      }
    }

    /** Location records are committed before anything at or behind them may be acknowledged. */
    method IngestGoalEvents(records: seq<Record>, dropped: int) returns (highest: Option<int>, ghost taken: nat)
      requires Linked() && timeline.Valid() && SessionValid(session)
      requires StrictlyOrdered(records)
      modifies this`session, this`readOnly, this`commits, timeline, Footprint()
      ensures Linked() && store == old(store)
      ensures timeline.Valid() && timeline.generation == old(timeline.generation)
      ensures SessionValid(session) && CheckedGrows(old(session), session)
      ensures timeline.Adds(old(timeline.log), records)
      ensures Returned(session, records, highest)
      ensures Reports(records, taken, |old(timeline.attempts)|, old(readOnly), highest)
    {
      Apart();
      var safe := CommitObservations(records);
      highest := IngestPrefix(safe, records, dropped);
      if highest.Some? {
        PrefixCommitted(session, safe, records, highest.value);
      }
      taken := |safe|;
    }

    /** Everything committed so far goes to the timeline. */
    method IngestPrefix(safe: seq<Record>, records: seq<Record>, dropped: int) returns (highest: Option<int>)
      requires timeline.Valid() && StrictlyOrdered(records) && safe <= records
      modifies timeline
      ensures timeline.Valid() && timeline.generation == old(timeline.generation)
      ensures timeline.Adds(old(timeline.log), records)
      ensures highest.Some? ==> SomeSequence(safe, highest.value)
      ensures Exhausts(records, |safe|, AllEmitted(timeline.attempts, |old(timeline.attempts)|), highest)
    {
      assert forall r :: r in safe ==> r in records;
      highest := timeline.Ingest(safe, dropped);
      PrefixExhausted(safe, records, AllEmitted(timeline.attempts, |old(timeline.attempts)|), highest);
    }

    /**
      The first `taken` records went to the timeline, the next one was refused, and the
      last of those taken is returned exactly if everything tried since was written.
    */
    ghost predicate Reports(records: seq<Record>, taken: nat, from: nat, frozen: bool, highest: Option<int>)
      reads this`session, this`commits, timeline`attempts
    {
      forall n :: n == taken ==>
        && Exhausts(records, n, AllEmitted(timeline.attempts, from), highest)
        && (n < |records| ==> Refused(records[n], frozen))
    }

    /** Whether the record may be passed on: it is no location, or its location is durable now. */
    method Secure(r: Record) returns (ok: bool)
      requires Linked() && SessionValid(session)
      modifies this`session, this`readOnly, this`commits, Footprint()
      ensures Linked() && store == old(store)
      ensures SessionValid(session)
      ensures CheckedGrows(old(session), session)
      ensures ok && r.code == LOCATION_OBSERVED ==> LocationCommitted(session, r)
      ensures ok ==> readOnly == old(readOnly)
      ensures !ok ==> Refused(r, old(readOnly))
    {
      ok := true;
      if r.code == LOCATION_OBSERVED {
        ok := CommitObservation(r);
      }
    }

    /** The record is a location that could not be committed, or whose commit the disk did not take. */
    ghost predicate Refused(r: Record, frozen: bool)
      reads this`session, this`commits
    {
      r.code == LOCATION_OBSERVED
      && (!CanCommit(session, frozen, r) || (commits != [] && commits[|commits| - 1] == (r.value, false)))
    }

    /** The records up to the first location that cannot be committed. */
    method CommitObservations(records: seq<Record>) returns (safe: seq<Record>)
      requires Linked() && SessionValid(session)
      requires StrictlyOrdered(records)
      modifies this`session, this`readOnly, this`commits, Footprint()
      ensures Linked() && store == old(store)
      ensures SessionValid(session) && CheckedGrows(old(session), session)
      ensures safe <= records && AllCommitted(session, safe)
      ensures |safe| < |records| ==> Refused(records[|safe|], old(readOnly))
    {
      var sorted := SortOrdered(records);
      var k := 0;
      while k < |sorted|
        invariant 0 <= k <= |sorted|
        invariant Linked() && store == old(store)
        invariant SessionValid(session) && CheckedGrows(old(session), session) && readOnly == old(readOnly)
        invariant AllCommitted(session, records[..k])
      {
        ghost var before := session;
        var ok := Secure(sorted[k]);
        CommittedStays(before, session, records[..k]);
        if !ok {
          break;
        }
        OneMoreCommitted(session, records, k);
        k := k + 1;
      }
      safe := sorted[..k];
    }

    /** The producer changed, or may have: number its records as a new generation, if the callback succeeds. */
    method ResetProducer(resets: bool)
      requires Sound()
      modifies timeline, this`source
      ensures Sound() && timeline.log == old(timeline.log) && timeline.attempts == old(timeline.attempts)
      ensures timeline.generation == old(timeline.generation) + if resets then 1 else 0
      ensures source == if resets then UNSEEN else old(source).(resetFailed := true)
    {
      if resets {
        GenerationStarts(drains, timeline.generation, source, pending, carried, sent);
        timeline.ResetSource();
        source := UNSEEN;
      } else {
        source := source.(resetFailed := true);
        SourceMoves(drains, timeline.generation, old(source), pending, carried, sent, source);
      }
    }

    method SeeProducer(s: Snapshot)
      requires Sound() && s.activation.Some? && !SourceChanged(source, s)
      modifies this`source
      ensures Sound()
      ensures source == old(source).(channel := Some(1), activation := s.activation, next := Some(s.next),
                                     resetFailed := false)
    {
      source := source.(channel := Some(1), activation := s.activation, next := Some(s.next), resetFailed := false);
      SourceMoves(drains, timeline.generation, old(source), pending, carried, sent, source);
    }

    /** The drain of this snapshot, as it stands now. */
    ghost function DrainOf(s: Snapshot, returned: Option<int>): Drain
      requires s.activation.Some?
      reads this, timeline, Footprint()
    {
      Drain(timeline.generation, s.activation.value, s.next, s.records, returned,
            if session.Some? then Elements(session.value.checked) else {}, LogOf())
    }

    /** Hand the records to the sink; it may fail, and then nothing may be acknowledged. */
    method DrainRecords(s: Snapshot, sinkFails: bool) returns (acknowledge: Option<int>, ghost taken: nat)
      requires Linked() && Sound() && StrictlyOrdered(s.records) && s.activation.Some?
      requires source.activation == s.activation && source.next == Some(s.next)
      modifies this`session, this`readOnly, this`commits, this`source, this`drains, timeline, Footprint()
      ensures Linked() && store == old(store)
      ensures Sound() && timeline.generation == old(timeline.generation)
      ensures drains == old(drains) + [DrainOf(s, acknowledge)] && timeline.Adds(old(timeline.log), s.records)
      ensures source == if sinkFails then old(source).(drainFailed := true)
                        else old(source).(drainFailed := false, dropped := s.dropped)
      ensures sinkFails ==> acknowledge.None?
      ensures acknowledge.Some? ==> Warrants(DrainOf(s, acknowledge), s.activation.value, acknowledge.value)
      ensures acknowledge.Some? ==> SomeSequence(s.records, acknowledge.value)
      ensures !sinkFails ==>
                Reports(s.records, taken, |old(timeline.attempts)|, old(readOnly), acknowledge)
    {
      Apart();
      var delta := if s.dropped > source.dropped then s.dropped - source.dropped else 0;
      acknowledge, taken := IngestGoalEvents(s.records, delta);
      acknowledge := FinishDrain(s, sinkFails, acknowledge);
    }

    /** What the sink returned is passed on, unless it failed. */
    method FinishDrain(s: Snapshot, sinkFails: bool, highest: Option<int>) returns (acknowledge: Option<int>)
      requires Linked() && Sound() && s.activation.Some?
      requires source.activation == s.activation && source.next == Some(s.next)
      requires Returned(session, s.records, highest)
      modifies this`source, this`drains
      ensures Linked() && Sound()
      ensures acknowledge == if sinkFails then None else highest
      ensures drains == old(drains) + [DrainOf(s, acknowledge)]
      ensures acknowledge.Some? ==> Warrants(DrainOf(s, acknowledge), s.activation.value, acknowledge.value)
      ensures source == if sinkFails then old(source).(drainFailed := true)
                        else old(source).(drainFailed := false, dropped := s.dropped)
      ensures acknowledge.Some? ==> SomeSequence(s.records, acknowledge.value)
    {
      acknowledge := if sinkFails then None else highest;
      NoteSink(s, sinkFails);
      LogDrain(s, acknowledge);
    }

    /** Remember how the sink fared. */
    method NoteSink(s: Snapshot, sinkFails: bool)
      requires Sound()
      modifies this`source
      ensures Sound()
      ensures source == if sinkFails then old(source).(drainFailed := true)
                        else old(source).(drainFailed := false, dropped := s.dropped)
    {
      if sinkFails {
        source := source.(drainFailed := true);
      } else {
        source := source.(drainFailed := false, dropped := s.dropped);
      }
      SourceMoves(drains, timeline.generation, old(source), pending, carried, sent, source);
    }

    ghost method LogDrain(s: Snapshot, returned: Option<int>)
      requires Sound() && s.activation.Some? && source.activation == s.activation && source.next == Some(s.next)
      requires Linked()
      modifies this`drains
      ensures Sound() && drains == old(drains) + [DrainOf(s, returned)]
      ensures OnDisk(DrainOf(s, returned).log, DrainOf(s, returned).checked)
    {
      LinkedIsOnDisk();
      DrainAdded(drains, timeline.generation, source, pending, carried, sent, DrainOf(s, returned));
      drains := drains + [DrainOf(s, returned)];
    }

    /** Drain one snapshot; what is returned may be acknowledged to its producer. */
    method Observe(s: Snapshot, resets: bool, sinkFails: bool) returns (acknowledge: Option<int>, ghost taken: nat)
      requires Linked() && Sound() && StrictlyOrdered(s.records)
      modifies this`session, this`readOnly, this`commits, this`source, this`drains, timeline, Footprint()
      ensures Linked() && store == old(store)
      ensures Sound()
      ensures timeline.generation == old(timeline.generation) + if Restarts(old(source), s, resets) then 1 else 0
      ensures !Drains(old(source), s, resets) ==>
                && acknowledge.None? && drains == old(drains)
                && timeline.log == old(timeline.log) && timeline.attempts == old(timeline.attempts)
      ensures Drains(old(source), s, resets) ==>
                && drains == old(drains) + [DrainOf(s, acknowledge)] && timeline.Adds(old(timeline.log), s.records)
                && (sinkFails ==> acknowledge.None?)
      ensures source == Remembered(old(source), s, resets, sinkFails)
      ensures acknowledge.Some? ==>
                && Warrants(DrainOf(s, acknowledge), s.activation.value, acknowledge.value)
                && SomeSequence(s.records, acknowledge.value)
      ensures Drains(old(source), s, resets) && !sinkFails ==>
                Reports(s.records, taken, |old(timeline.attempts)|, old(readOnly), acknowledge)
      ensures pending == old(pending) && carried == old(carried)
    {
      Apart();
      acknowledge, taken := None, 0;
      if ChannelState(s) != 1 {
        source := source.(channel := Some(ChannelState(s)));
        SourceMoves(drains, timeline.generation, old(source), pending, carried, sent, source);
        return;
      }
      if SourceChanged(source, s) {
        ResetProducer(resets);
        if !resets {
          return;
        }
      }
      SeeProducer(s);
      acknowledge, taken := DrainRecords(s, sinkFails);
    }

    /** Coalesce with what is still waiting, within one activation only. */
    method ScheduleAcknowledgement(activation: int, acknowledge: int)
      requires Linked() && Sound() && drains != [] && Warrants(drains[|drains| - 1], activation, acknowledge)
      requires Latest(drains[..|drains| - 1], pending, carried)
      modifies this`pending, this`carried
      ensures Linked() && Valid() && pending == Coalesced(old(pending), activation, acknowledge)
      ensures pending.Some?
      ensures carried == if pending != Some((activation, acknowledge)) then old(carried) else |drains| - 1
    {
      Scheduled(drains, timeline.generation, source, pending, carried, sent, activation, acknowledge);
      if pending.Some? && pending.value.0 == activation {
        if pending.value.1 <= acknowledge {
          carried := |drains| - 1;
        }
        pending := Some((activation, if pending.value.1 > acknowledge then pending.value.1 else acknowledge));
      } else {
        pending := Some((activation, acknowledge));
        carried := |drains| - 1;
      }
    }

    /** One turn of the sending loop; whether the transport delivers it is not known. */
    method SendNext()
      requires Valid() && pending.Some?
      modifies this`pending, this`sent
      ensures Valid() && pending.None?
      ensures sent == old(sent) + [Ack(old(pending).value.0, old(pending).value.1, carried, timeline.generation)]
      ensures Warranted(drains, sent[|sent| - 1])
      ensures var a := sent[|sent| - 1];
              old(Timely()) <==> drains[a.drain].epoch == a.epoch
    {
      TimelyExactly(drains, timeline.generation, source, pending, carried, sent);
      Released(drains, timeline.generation, source, pending, carried, sent);
      sent := sent + [Ack(pending.value.0, pending.value.1, carried, timeline.generation)];
      pending := None;
    }

    /** The drain the waiting number came from belongs to the present source generation. */
    ghost predicate Fresh()
      reads this, timeline
    {
      pending.Some? && carried < |drains| && drains[carried].epoch == timeline.generation
    }

    lemma TimelyIsFresh()
      requires Valid()
      ensures Timely() <==> Fresh()
      ensures pending.Some? ==> carried < |drains| && drains[carried].epoch <= timeline.generation
    {
      if pending.Some? {
        TimelyExactly(drains, timeline.generation, source, pending, carried, sent);
      }
    }

    method ObserveAndSchedule(s: Snapshot, resets: bool, sinkFails: bool)
      returns (acknowledge: Option<int>, ghost taken: nat)
      requires Linked() && Valid() && StrictlyOrdered(s.records)
      modifies this`session, this`readOnly, this`commits, this`source, this`drains, this`pending, this`carried,
               timeline, Footprint()
      ensures Linked() && store == old(store)
      ensures Valid()
      ensures timeline.generation == old(timeline.generation) + if Restarts(old(source), s, resets) then 1 else 0
      ensures drains == if Drains(old(source), s, resets) then old(drains) + [DrainOf(s, acknowledge)] else old(drains)
      ensures source == Remembered(old(source), s, resets, sinkFails)
      ensures acknowledge.Some? ==>
                && Drains(old(source), s, resets) && !sinkFails
                && SomeSequence(s.records, acknowledge.value)
      ensures pending ==
              if acknowledge.None? then old(pending)
              else Coalesced(old(pending), s.activation.value, acknowledge.value)
      ensures carried ==
              if acknowledge.Some? && pending == Some((s.activation.value, acknowledge.value)) then |drains| - 1
              else old(carried)
      ensures Drains(old(source), s, resets) && !sinkFails ==>
                Reports(s.records, taken, |old(timeline.attempts)|, old(readOnly), acknowledge)
    {
      assert this !in Footprint() && timeline !in Footprint();
      ghost var before, drained := drains, Drains(source, s, resets);
      acknowledge, taken := Observe(s, resets, sinkFails);
      assert if drained then drains == before + [DrainOf(s, acknowledge)] else drains == before;
      ScheduleReturned(s, acknowledge, before);
    }

    /** Schedule what the drain of this snapshot returned, if there was one and it returned anything. */
    method ScheduleReturned(s: Snapshot, acknowledge: Option<int>, ghost before: seq<Drain>)
      requires Linked() && Sound() && Latest(before, pending, carried)
      requires drains == before || (s.activation.Some? && drains == before + [DrainOf(s, acknowledge)])
      requires acknowledge.Some? ==>
                 && s.activation.Some? && drains == before + [DrainOf(s, acknowledge)]
                 && Warrants(DrainOf(s, acknowledge), s.activation.value, acknowledge.value)
      modifies this`pending, this`carried
      ensures Linked() && Valid()
      ensures pending ==
              if acknowledge.None? then old(pending)
              else Coalesced(old(pending), s.activation.value, acknowledge.value)
      ensures carried ==
              if acknowledge.Some? && pending == Some((s.activation.value, acknowledge.value)) then |drains| - 1
              else old(carried)
    {
      if acknowledge.Some? {
        assert drains[..|drains| - 1] == before;
        ScheduleAcknowledgement(s.activation.value, acknowledge.value);
      } else if drains != before {
        LatestStays(before, DrainOf(s, None), pending, carried);
      }
    }

    /**
      A polled snapshot is observed, and its acknowledgement scheduled. The waiting
      number falls out of the present numbering exactly when a restart passes while
      it stays the larger one, and comes back only by being replaced.
    */
    method Poll(s: Snapshot, resets: bool, sinkFails: bool) returns (acknowledge: Option<int>, ghost taken: nat)
      requires Linked() && Valid() && StrictlyOrdered(s.records)
      modifies this`session, this`readOnly, this`commits, this`source, this`drains, this`pending, this`carried,
               timeline, Footprint()
      ensures Linked() && store == old(store)
      ensures Valid()
      ensures timeline.generation == old(timeline.generation) + if Restarts(old(source), s, resets) then 1 else 0
      ensures drains == if Drains(old(source), s, resets) then old(drains) + [DrainOf(s, acknowledge)] else old(drains)
      ensures source == Remembered(old(source), s, resets, sinkFails)
      ensures acknowledge.Some? ==>
                && Drains(old(source), s, resets) && !sinkFails
                && SomeSequence(s.records, acknowledge.value)
      ensures pending ==
              if acknowledge.None? then old(pending)
              else Coalesced(old(pending), s.activation.value, acknowledge.value)
      ensures pending.Some? ==>
                (Timely() <==>
                  || (acknowledge.Some? && pending == Some((s.activation.value, acknowledge.value)))
                  || (old(Timely()) && !Restarts(old(source), s, resets)))
      ensures Drains(old(source), s, resets) && !sinkFails ==>
                Reports(s.records, taken, |old(timeline.attempts)|, old(readOnly), acknowledge)
    {
      TimelyIsFresh();
      acknowledge, taken := ObserveAndSchedule(s, resets, sinkFails);
      TimelyIsFresh();
    }

    /** A reconnect replaces the protocol object, and may start a new source generation. */
    method Reconnect(resets: bool)
      requires Valid()
      modifies timeline, this`source, this`pending
      ensures Valid() && pending.None? && drains == old(drains) && sent == old(sent)
      ensures timeline.generation == old(timeline.generation) + if resets then 1 else 0
      ensures source == if resets then UNSEEN else old(source)
    {
      Released(drains, timeline.generation, source, pending, carried, sent);
      pending := None;
      if resets {
        ResetProducer(true);
      }
    }

    /** The session and the frozen flag change at the hands of other coordinators. */
    method SessionChanges(next: Option<Repository.StateSession>, frozen: bool)
      requires Valid() && (next.Some? ==> next.value.Valid())
      modifies this`store, this`session, this`readOnly
      ensures Valid() && Linked() && store == next && readOnly == frozen
    {
      store, readOnly := next, frozen;
      match next {
        case None => session := None;
        case Some(open) => session := Some(open.state);
      }
    }
  }

  /** The snapshot reports a diagnostic channel of the known shape. */
  predicate Live(s: Snapshot) {
    !s.malformed && s.schemaVersion == Some(1) && s.manifestVersion == Some(1) && s.activation.Some?
  }

  /** Not the ring remembered: another activation, numbers that went back, or a channel that was away. */
  predicate OtherRing(source: Source, s: Snapshot) {
    || (source.activation.Some? && s.activation != source.activation)
    || (source.next.Some? && s.next < source.next.value)
    || (source.channel.Some? && source.channel.value != 1)
  }

  /** The snapshot starts a new source generation: it shows another ring and the reset callback succeeded. */
  predicate Restarts(source: Source, s: Snapshot, resets: bool) {
    Live(s) && OtherRing(source, s) && resets
  }

  /** The snapshot's records reach the sink. */
  predicate Drains(source: Source, s: Snapshot, resets: bool) {
    Live(s) && (OtherRing(source, s) ==> resets)
  }

  /** What is remembered after a snapshot that reached the sink, and after one that did not. */
  function Remembered(source: Source, s: Snapshot, resets: bool, sinkFails: bool): Source {
    if !Live(s) then source.(channel := Some(if s.malformed then -1 else 0))
    else if OtherRing(source, s) && !resets then source.(resetFailed := true)
    else
      var dropped := if OtherRing(source, s) then 0 else source.dropped;
      Source(Some(1), s.activation, Some(s.next), if sinkFails then dropped else s.dropped, false, sinkFails)
  }

  function Coalesced(waiting: Option<(int, int)>, activation: int, acknowledge: int): Option<(int, int)> {
    if waiting.Some? && waiting.value.0 == activation && waiting.value.1 > acknowledge then waiting
    else Some((activation, acknowledge))
  }

  /** Snapshots of one ring: always live, of one activation, with numbers that never go back. */
  ghost predicate OneRing(source: Source, snapshots: seq<Snapshot>) {
    && (forall i :: 0 <= i < |snapshots| ==> Live(snapshots[i]) && StrictlyOrdered(snapshots[i].records))
    && (forall i :: 0 < i < |snapshots| ==>
          snapshots[i].activation == snapshots[i - 1].activation && snapshots[i - 1].next <= snapshots[i].next)
    && (snapshots != [] ==> !OtherRing(source, snapshots[0]))
  }

  /** Polling one ring over and over drains every snapshot and never starts a generation, whatever fails. */
  method PollOneRing(c: Channel, snapshots: seq<Snapshot>, fails: seq<bool>)
    requires c.Linked() && c.Valid() && |fails| == |snapshots| && OneRing(c.source, snapshots)
    modifies c, c.timeline, c.Footprint()
    ensures c.Linked() && c.Valid() && c.timeline.generation == old(c.timeline.generation)
    ensures |c.drains| == |old(c.drains)| + |snapshots|
  {
    for i := 0 to |snapshots|
      invariant c.Linked() && c.Valid() && c.store == old(c.store)
      invariant c.timeline.generation == old(c.timeline.generation)
      invariant |c.drains| == |old(c.drains)| + i
      invariant i < |snapshots| ==> !OtherRing(c.source, snapshots[i])
    {
      var _, _ := c.Poll(snapshots[i], true, fails[i]);
      assert c.source.channel == Some(1) && c.source.activation == snapshots[i].activation
             && c.source.next == Some(snapshots[i].next);
    }
  }

  /**
    The exception is not idle: whatever waits, a ring that starts over inside the
    same activation with nothing to report leaves it waiting, and it is sent
    though no drain of the present numbering returned it.
  */
  method RestartWithinActivation(c: Channel, s: Snapshot)
    requires c.Valid() && c.Linked() && c.pending.Some?
    requires ChannelState(s) == 1 && s.records == [] && c.source.next.Some? && s.next < c.source.next.value
    requires s.activation == Some(c.pending.value.0)
    modifies c, c.timeline, c.Footprint()
    ensures c.Valid() && c.pending.None?
    ensures |c.sent| == |old(c.sent)| + 1
    ensures var a := c.sent[|c.sent| - 1];
            && c.sent == old(c.sent) + [a] && Some((a.activation, a.sequence)) == old(c.pending)
            && a.epoch == c.timeline.generation == old(c.timeline.generation) + 1
            && c.source.activation == Some(a.activation)
            && !WarrantedIn(c.drains, a.epoch, a.activation, a.sequence)
  {
    assert c !in c.Footprint() && c.timeline !in c.Footprint();
    var acknowledge, _ := c.Poll(s, true, false);
    assert !c.Timely();
    c.SendNext();
  }
}
