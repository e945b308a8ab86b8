/** The indexed ledger of received items: packet validation and journal transitions. */
module Ledger {
  import opened Registry
  import opened Sorting
  import opened State

  // ---- packets as they arrive ---------------------------------------------------

  /** A decoded value whose type is not known yet. */
  datatype Dynamic = Int(number: int) | Other

  datatype RawItem =
    | Record(item: Dynamic, location: Dynamic, player: Dynamic, flags: Dynamic)
    | Tuple(values: seq<Dynamic>)
    | Shapeless

  datatype RawPacket =
    | RawPacket(index: Dynamic, items: seq<RawItem>)
    | NoItemSequence(index: Dynamic)
    | NotAMapping

  datatype Packet = Packet(index: int, entries: seq<JournalEntry>)

  datatype Rejection =
    | PacketNotMapping
    | InvalidIndex
    | ItemsNotSequence
    | IndexRangeOverflow
    | MalformedEntry(at: int)
    | UnknownItem(at: int)
    | OutsideMilestone(at: int)

  datatype Parsed<+T> = Accepted(value: T) | Rejected(reason: Rejection)

  function EndIndex(p: Packet): int {
    p.index + |p.entries|
  }

  /** What validation guarantees of a packet. */
  ghost predicate WellFormed(p: Packet) {
    && p.index >= 0
    && forall i :: 0 <= i < |p.entries| ==>
         && ValidEntry(p.entries[i], p.index + i)
         && IsPermanentItem(p.entries[i].itemId)
         && p.entries[i].state.Pending?
  }

  /** A three-element sequence has no flags. */
  function ItemValues(raw: RawItem): Option<(Dynamic, Dynamic, Dynamic, Dynamic)> {
    match raw
    case Record(i, l, p, f) => Some((i, l, p, f))
    case Tuple(v) =>
      if |v| == 3 then Some((v[0], v[1], v[2], Int(0)))
      else if |v| == 4 then Some((v[0], v[1], v[2], v[3]))
      else None
    case Shapeless => None
  }

  predicate InRange(v: Dynamic) {
    v.Int? && -NETWORK_ID_LIMIT <= v.number <= NETWORK_ID_LIMIT
  }

  function ParseEntry(raw: RawItem, index: int): Parsed<JournalEntry> {
    match ItemValues(raw)
    case None => Rejected(MalformedEntry(index))
    case Some((item, location, player, flags)) =>
      if !(InRange(item) && InRange(location) && InRange(player) && InRange(flags)) then Rejected(MalformedEntry(index))
      else if player.number < 0 || flags.number < 0 then Rejected(MalformedEntry(index))
      else if !IsItem(item.number) then Rejected(UnknownItem(index))
      else if !IsPermanentItem(item.number) then Rejected(OutsideMilestone(index))
      else Accepted(JournalEntry(index, item.number, location.number, player.number, flags.number, Pending))
  }

  /** A raw item has these four values: a record's, a quadruple's, or a triple's with flags zero. */
  predicate ItemShows(raw: RawItem, item: int, location: int, player: int, flags: int) {
    match raw
    case Record(i, l, p, f) => i == Int(item) && l == Int(location) && p == Int(player) && f == Int(flags)
    case Tuple(v) =>
      || (|v| == 3 && v == [Int(item), Int(location), Int(player)] && flags == 0)
      || (|v| == 4 && v == [Int(item), Int(location), Int(player), Int(flags)])
    case Shapeless => false
  }

  /** An accepted entry is the item as it was sent, at its index and still to be applied. */
  lemma ParsedEntryExactly(raw: RawItem, index: int, e: JournalEntry)
    ensures ParseEntry(raw, index) == Accepted(e) <==>
              && ItemShows(raw, e.itemId, e.locationId, e.sourcePlayer, e.flags)
              && e.index == index && e.state == Pending
              && (e.itemId == 743_000_108 || e.itemId == 743_010_014 || e.itemId == 743_000_116)
              && -0x1F_FFFF_FFFF_FFFF <= e.locationId <= 0x1F_FFFF_FFFF_FFFF
              && 0 <= e.sourcePlayer <= 0x1F_FFFF_FFFF_FFFF && 0 <= e.flags <= 0x1F_FFFF_FFFF_FFFF
  {}

  /** A packet is accepted as a whole or rejected for its first bad entry. */
  method ParsePacket(raw: RawPacket) returns (r: Parsed<Packet>)
    ensures r.Accepted? ==> WellFormed(r.value) && EndIndex(r.value) <= NETWORK_ID_LIMIT
    ensures r.Accepted? <==>
              && raw.RawPacket? && raw.index.Int? && 0 <= raw.index.number
              && raw.index.number + |raw.items| <= NETWORK_ID_LIMIT
              && forall i :: 0 <= i < |raw.items| ==> ParseEntry(raw.items[i], raw.index.number + i).Accepted?
    ensures r.Accepted? ==>
              && r.value.index == raw.index.number && |r.value.entries| == |raw.items|
              && forall i :: 0 <= i < |raw.items| ==>
                   ParseEntry(raw.items[i], r.value.index + i) == Accepted(r.value.entries[i])
    ensures r.Rejected? && (r.reason.MalformedEntry? || r.reason.UnknownItem? || r.reason.OutsideMilestone?) ==>
              && raw.RawPacket? && raw.index.Int? && 0 <= r.reason.at - raw.index.number < |raw.items|
              && ParseEntry(raw.items[r.reason.at - raw.index.number], r.reason.at) == Rejected(r.reason)
              && forall i :: 0 <= i < r.reason.at - raw.index.number ==>
                   ParseEntry(raw.items[i], raw.index.number + i).Accepted?
  {
    if raw.NotAMapping? {
      return Rejected(PacketNotMapping);
    }
    if !raw.index.Int? || raw.index.number < 0 || raw.index.number > NETWORK_ID_LIMIT {
      return Rejected(InvalidIndex);
    }
    if raw.NoItemSequence? {
      return Rejected(ItemsNotSequence);
    }
    var index, items := raw.index.number, raw.items;
    if index + |items| > NETWORK_ID_LIMIT {
      return Rejected(IndexRangeOverflow);
    }
    var entries: seq<JournalEntry> := [];
    for offset := 0 to |items|
      invariant |entries| == offset
      invariant forall i :: 0 <= i < offset ==> ParseEntry(items[i], index + i) == Accepted(entries[i])
    {
      var entry := ParseEntry(items[offset], index + offset);
      if entry.Rejected? {
        return Rejected(entry.reason);
      }
      entries := entries + [entry.value];
    }
    r := Accepted(Packet(index, entries));
  }

  // ---- transitions ---------------------------------------------------------------

  datatype Outcome = Extended | Replaced | Duplicate | Gap | Conflict | PartialOverlap

  datatype Transition = Transition(outcome: Outcome, state: PersistentState, changed: bool, discrepancies: seq<int>)

  /** Identity ignores the local application state. */
  predicate SameIdentity(a: JournalEntry, b: JournalEntry) {
    a.(state := Pending) == b.(state := Pending)
  }

  predicate SameIdentities(a: seq<JournalEntry>, b: seq<JournalEntry>) {
    |a| == |b| && forall i :: 0 <= i < |a| ==> SameIdentity(a[i], b[i])
  }

  function WithJournal(s: PersistentState, journal: seq<JournalEntry>): PersistentState {
    s.(nextIndex := |journal|, journal := journal, counts := CountsOf(ItemIds(journal)), pending := PendingOf(journal))
  }

  /** A canonical entry keeps the application state of an unchanged item. */
  function Adopt(prior: seq<JournalEntry>, entry: JournalEntry, i: nat): JournalEntry {
    if i < |prior| && prior[i].itemId == entry.itemId then entry.(state := prior[i].state) else entry
  }

  function Rebuilt(prior: seq<JournalEntry>, entries: seq<JournalEntry>): seq<JournalEntry> {
    seq(|entries|, i requires 0 <= i < |entries| => Adopt(prior, entries[i], i))
  }

  /** The two histories disagree about which item has this index. */
  predicate Disagree(prior: seq<JournalEntry>, entries: seq<JournalEntry>, i: int) {
    && 0 <= i
    && (i < |prior| || i < |entries|)
    && !(i < |prior| && i < |entries| && prior[i].itemId == entries[i].itemId)
  }

  function Disagreements(prior: seq<JournalEntry>, entries: seq<JournalEntry>): seq<int> {
    Sorted(set i | 0 <= i < |prior| + |entries| && Disagree(prior, entries, i))
  }

  function Replacement(s: PersistentState, p: Packet): Transition {
    var updated := WithJournal(s, Rebuilt(s.journal, p.entries));
    Transition(Replaced, updated, updated != s, Disagreements(s.journal, p.entries))
  }

  function Apply(s: PersistentState, p: Packet): Transition
    requires s.nextIndex == |s.journal| && p.index >= 0
  {
    if p.index == 0 then
      if SameIdentities(s.journal, p.entries) then Transition(Duplicate, s, false, []) else Replacement(s, p)
    else if p.index == s.nextIndex then
      var updated := WithJournal(s, s.journal + p.entries);
      Transition(Extended, updated, updated != s, [])
    else if p.index > s.nextIndex then Transition(Gap, s, false, [])
    else if EndIndex(p) > s.nextIndex then Transition(PartialOverlap, s, false, [])
    else if SameIdentities(s.journal[p.index..EndIndex(p)], p.entries) then Transition(Duplicate, s, false, [])
    else Transition(Conflict, s, false, [])
  }

  function ChangedBelow(prior: seq<JournalEntry>, entries: seq<JournalEntry>, n: nat): set<int>
    requires n <= |entries|
  {
    set k | 0 <= k < n && k < |prior| && prior[k].itemId != entries[k].itemId
  }

  /** The canonical replacement, built entry by entry. */
  method ReplaceCanonicalHistory(s: PersistentState, p: Packet) returns (t: Transition)
    requires WellFormed(p) && p.index == 0
    ensures t == Replacement(s, p)
  {
    var prior := s.journal;
    var discrepancies: seq<int> := [];
    var rebuilt: seq<JournalEntry> := [];
    for i := 0 to |p.entries|
      invariant |rebuilt| == i
      invariant forall k :: 0 <= k < i ==> rebuilt[k] == Adopt(prior, p.entries[k], k)
      invariant StrictlyIncreasing(discrepancies)
      invariant Elements(discrepancies) == ChangedBelow(prior, p.entries, i)
    {
      var entry := p.entries[i];
      if i < |prior| && prior[i].itemId == entry.itemId {
        rebuilt := rebuilt + [entry.(state := prior[i].state)];
        assert ChangedBelow(prior, p.entries, i + 1) == ChangedBelow(prior, p.entries, i);
      } else {
        rebuilt := rebuilt + [entry];
        if i < |prior| {
          assert ChangedBelow(prior, p.entries, i + 1) == ChangedBelow(prior, p.entries, i) + {i};
          Append(discrepancies, i);
          discrepancies := discrepancies + [i];
        }
      }
    }
    assert rebuilt == Rebuilt(prior, p.entries);
    discrepancies := AddLengthDifference(prior, p.entries, discrepancies);
    var updated := WithJournal(s, rebuilt);
    t := Transition(Replaced, updated, updated != s, discrepancies);
  }

  /** Every index only one of the two histories has is a discrepancy too. */
  method AddLengthDifference(prior: seq<JournalEntry>, entries: seq<JournalEntry>, changed: seq<int>)
    returns (discrepancies: seq<int>)
    requires StrictlyIncreasing(changed) && Elements(changed) == ChangedBelow(prior, entries, |entries|)
    ensures discrepancies == Disagreements(prior, entries)
  {
    discrepancies := changed;
    var low := if |prior| < |entries| then |prior| else |entries|;
    var high := if |prior| < |entries| then |entries| else |prior|;
    for k := low to high
      invariant StrictlyIncreasing(discrepancies)
      invariant forall j :: j in Elements(discrepancies) <==> j in Elements(changed) || low <= j < k
    {
      Append(discrepancies, k);
      discrepancies := discrepancies + [k];
    }
    assert Elements(discrepancies) == set i | 0 <= i < |prior| + |entries| && Disagree(prior, entries, i);
    SortedFixes(discrepancies);
  }

  // ---- what every packet does ----------------------------------------------------------

  /** The two entries agree in everything but the local application state. */
  predicate Agrees(a: JournalEntry, b: JournalEntry) {
    && a.index == b.index && a.itemId == b.itemId && a.locationId == b.locationId
    && a.sourcePlayer == b.sourcePlayer && a.flags == b.flags
  }

  /** The journal holds these entries from this index on. */
  predicate Repeats(journal: seq<JournalEntry>, from: nat, entries: seq<JournalEntry>) {
    from + |entries| <= |journal| && forall i :: 0 <= i < |entries| ==> Agrees(journal[from + i], entries[i])
  }

  /** Each outcome, by where the packet starts and ends and by what the journal holds there. */
  lemma OutcomeExactly(s: PersistentState, p: Packet)
    requires s.nextIndex == |s.journal| && p.index >= 0
    ensures var outcome, next, end := Apply(s, p).outcome, |s.journal|, p.index + |p.entries|;
            && (outcome == Extended <==> p.index == next > 0)
            && (outcome == Gap <==> p.index > next)
            && (outcome == PartialOverlap <==> 0 < p.index < next < end)
            && (outcome == Replaced <==> p.index == 0 && !(end == next && Repeats(s.journal, 0, p.entries)))
            && (outcome == Conflict <==> 0 < p.index < next && end <= next && !Repeats(s.journal, p.index, p.entries))
            && (outcome == Duplicate <==>
                  || (p.index == 0 && end == next && Repeats(s.journal, 0, p.entries))
                  || (0 < p.index < next && end <= next && Repeats(s.journal, p.index, p.entries)))
  {
    if 0 < p.index < |s.journal| && p.index + |p.entries| <= |s.journal| {
      SlicesAgree(s.journal, p.index, p.entries);
    }
  }

  lemma SlicesAgree(journal: seq<JournalEntry>, from: nat, entries: seq<JournalEntry>)
    requires from + |entries| <= |journal|
    ensures SameIdentities(journal[from..from + |entries|], entries) <==> Repeats(journal, from, entries)
  {
    var slice := journal[from..from + |entries|];
    assert forall i :: 0 <= i < |entries| ==> slice[i] == journal[from + i];
    if Repeats(journal, from, entries) {
      forall i | 0 <= i < |entries| ensures SameIdentity(slice[i], entries[i]) {
        assert Agrees(journal[from + i], entries[i]);
      }
    }
    if SameIdentities(slice, entries) {
      forall i | 0 <= i < |entries| ensures Agrees(journal[from + i], entries[i]) {
        assert SameIdentity(slice[i], entries[i]);
      }
    }
  }

  /** A packet at the end of the journal is appended. */
  lemma ExtendsExactly(s: PersistentState, p: Packet)
    requires ValidLedger(s) && p.index == |s.journal| > 0
    ensures Apply(s, p).state.journal == s.journal + p.entries
    ensures Apply(s, p).changed <==> p.entries != []
  {
    if p.entries == [] {
      assert s.journal + p.entries == s.journal;
    } else {
      assert |s.journal + p.entries| > |s.journal|;
    }
  }

  /** A packet from index zero becomes the journal, whatever was there. */
  lemma ReplacesExactly(s: PersistentState, p: Packet)
    requires s.nextIndex == |s.journal| && p.index == 0
    ensures var journal := Apply(s, p).state.journal;
            |journal| == |p.entries| && forall i :: 0 <= i < |p.entries| ==> Agrees(journal[i], p.entries[i])
  {
    if SameIdentities(s.journal, p.entries) {
      forall i | 0 <= i < |p.entries| ensures Agrees(s.journal[i], p.entries[i]) {
        assert SameIdentity(s.journal[i], p.entries[i]);
      }
    }
  }

  /** Any other packet changes nothing, and none changes anything but the ledger. */
  lemma LedgerOnly(s: PersistentState, p: Packet)
    requires s.nextIndex == |s.journal| && p.index >= 0
    ensures p.index != 0 && p.index != |s.journal| ==> Apply(s, p).state == s
    ensures Apply(s, p).changed <==> Apply(s, p).state != s
    ensures var t := Apply(s, p).state;
            t == s.(nextIndex := t.nextIndex, journal := t.journal, counts := t.counts, pending := t.pending)
  {}

  // ---- what every transition keeps -----------------------------------------------

  function PendingIndices(journal: seq<JournalEntry>): set<int> {
    set i | 0 <= i < |journal| && journal[i].state.Pending?
  }

  lemma PendingIndicesSnoc(journal: seq<JournalEntry>)
    requires journal != []
    ensures var n := |journal| - 1;
            PendingIndices(journal) == PendingIndices(journal[..n]) + (if journal[n].state.Pending? then {n} else {})
  {}

  /** The pending tuple lists exactly the pending indices, in order. */
  lemma {:induction false} PendingListed(journal: seq<JournalEntry>)
    requires forall i :: 0 <= i < |journal| ==> journal[i].index == i
    ensures StrictlyIncreasing(PendingOf(journal))
    ensures Elements(PendingOf(journal)) == PendingIndices(journal)
  {
    if journal != [] {
      var n := |journal| - 1;
      var front := journal[..n];
      PendingListed(front);
      PendingIndicesSnoc(journal);
      if journal[n].state.Pending? {
        assert forall y :: y in Elements(PendingOf(front)) ==> y < n;
        Append(PendingOf(front), n);
      } else {
        assert PendingOf(journal) == PendingOf(front);
      }
    }
  }

  /** Identifiers strictly increase, each listed exactly when received, with its multiplicity. */
  lemma CountsListed(ids: seq<int>)
    ensures var c := CountsOf(ids);
            && (forall i, j :: 0 <= i < j < |c| ==> c[i].0 < c[j].0)
            && (forall i :: 0 <= i < |c| ==> c[i].0 in ids && c[i].1 == multiset(ids)[c[i].0] > 0)
            && (forall id :: id in ids ==> exists i :: 0 <= i < |c| && c[i] == (id, multiset(ids)[id]))
  {
    var keys, c := Sorted(Elements(ids)), CountsOf(ids);
    forall i | 0 <= i < |c| ensures c[i].0 in ids {
      assert keys[i] in keys;
    }
    forall id | id in ids ensures exists i :: 0 <= i < |c| && c[i] == (id, multiset(ids)[id]) {
      assert id in keys;
      var i :| 0 <= i < |keys| && keys[i] == id;
      assert c[i] == (id, multiset(ids)[id]);
    }
  }

  lemma WithJournalIsValid(s: PersistentState, journal: seq<JournalEntry>)
    requires Valid(s) && ValidJournal(journal)
    ensures Valid(WithJournal(s, journal))
  {}

  lemma RebuiltIsValid(prior: seq<JournalEntry>, p: Packet)
    requires WellFormed(p) && p.index == 0
    ensures ValidJournal(Rebuilt(prior, p.entries))
  {}

  lemma ExtendedIsValid(prior: seq<JournalEntry>, p: Packet)
    requires ValidJournal(prior) && WellFormed(p) && p.index == |prior|
    ensures ValidJournal(prior + p.entries)
  {}

  /** No transition can trip the validity contract, and none touches instance, revision or binding. */
  lemma ApplyKeepsValid(s: PersistentState, p: Packet)
    requires Valid(s) && WellFormed(p)
    ensures Valid(Apply(s, p).state)
    ensures var t := Apply(s, p).state;
            t.revision == s.revision && t.instanceId == s.instanceId && t.binding == s.binding
  {
    if p.index == 0 {
      RebuiltIsValid(s.journal, p);
      WithJournalIsValid(s, Rebuilt(s.journal, p.entries));
    } else if p.index == |s.journal| {
      ExtendedIsValid(s.journal, p);
      WithJournalIsValid(s, s.journal + p.entries);
    }
  }

  /** No packet touches the locations. */
  lemma ApplyKeepsLocations(s: PersistentState, p: Packet)
    requires s.nextIndex == |s.journal| && p.index >= 0
    ensures var t := Apply(s, p).state;
            t.checked == s.checked && t.confirmed == s.confirmed && t.outbox == s.outbox
  {}

  /** Wherever the item at an index stays, its application state stays; new entries are pending. */
  lemma ApplicationStateKept(s: PersistentState, p: Packet, i: nat)
    requires s.nextIndex == |s.journal| && WellFormed(p) && i < |Apply(s, p).state.journal|
    ensures var after := Apply(s, p).state.journal[i];
            if i < |s.journal| && s.journal[i].itemId == after.itemId then after.state == s.journal[i].state
            else after.state == Pending
  {}

  /** A replacement reports exactly the indices whose item changed, appeared or vanished. */
  lemma DiscrepanciesExact(s: PersistentState, p: Packet)
    requires s.nextIndex == |s.journal| && WellFormed(p) && p.index == 0
    ensures var t := Apply(s, p);
            && StrictlyIncreasing(t.discrepancies)
            && forall i :: i in t.discrepancies <==>
                 t.outcome == Replaced && Disagree(s.journal, t.state.journal, i)
  {
    var t := Apply(s, p);
    if t.outcome == Replaced {
      assert forall i :: Disagree(s.journal, p.entries, i) ==> 0 <= i < |s.journal| + |p.entries|;
      assert forall i :: Disagree(s.journal, t.state.journal, i) <==> Disagree(s.journal, p.entries, i);
    }
  }

  // ---- validating a ledger that was read back -------------------------------------

  datatype Verdict = Fine | Corrupt | Unsupported

  /** What a dictionary of counts holds after counting these identifiers. */
  ghost predicate Tallies(tally: map<int, int>, ids: seq<int>) {
    && tally.Keys == Elements(ids)
    && forall id :: id in tally ==> tally[id] == multiset(ids)[id]
  }

  lemma TallyOneMore(tally: map<int, int>, ids: seq<int>, id: int)
    requires Tallies(tally, ids)
    ensures Tallies(tally[id := (if id in tally then tally[id] else 0) + 1], ids + [id])
  {
    var more := ids + [id];
    assert multiset(more) == multiset(ids) + multiset{id};
    forall x ensures x in more <==> x in ids || x == id {
      if x in ids {
        var i :| 0 <= i < |ids| && ids[i] == x;
        assert more[i] == x;
      }
      assert more[|ids|] == id;
    }
  }

  /** Items of a dictionary, ordered by key. */
  function SortedItems(tally: map<int, int>): seq<(int, int)> {
    var keys := Sorted(tally.Keys);
    seq(|keys|, i requires 0 <= i < |keys| => assert keys[i] in keys; (keys[i], tally[keys[i]]))
  }

  lemma TalliedCounts(tally: map<int, int>, ids: seq<int>)
    requires Tallies(tally, ids)
    ensures SortedItems(tally) == CountsOf(ids)
  {
    var keys := Sorted(tally.Keys);
    forall i | 0 <= i < |keys| ensures tally[keys[i]] == multiset(ids)[keys[i]] {
      assert keys[i] in keys;
    }
  }

  /** Unknown items are a compatibility matter; everything else is corruption. */
  function EntryVerdict(e: JournalEntry, index: int): Verdict {
    if e.index != index || e.itemId < 0 then Corrupt
    else if !IsItem(e.itemId) then Unsupported
    else if ValidEntry(e, index) then Fine
    else Corrupt
  }

  function CountVerdict(count: (int, int)): Verdict {
    if count.0 < 0 then Corrupt else if !IsItem(count.0) then Unsupported else if count.1 < 0 then Corrupt else Fine
  }

  lemma OneEntryMore(journal: seq<JournalEntry>, i: nat)
    requires i < |journal|
    ensures ItemIds(journal[..i + 1]) == ItemIds(journal[..i]) + [journal[i].itemId]
    ensures ValidJournal(journal[..i]) && ValidEntry(journal[i], i) ==> ValidJournal(journal[..i + 1])
  {
    assert journal[..i + 1][..i] == journal[..i];
  }

  method ValidateJournal(journal: seq<JournalEntry>) returns (v: Verdict, tally: map<int, int>)
    ensures v == Fine <==> ValidJournal(journal)
    ensures v == Fine ==> Tallies(tally, ItemIds(journal))
    ensures v != Fine ==>
            exists i :: 0 <= i < |journal| && EntryVerdict(journal[i], i) == v && ValidJournal(journal[..i])
  {
    tally := map[];
    for i := 0 to |journal|
      invariant ValidJournal(journal[..i])
      invariant Tallies(tally, ItemIds(journal[..i]))
    {
      var entry := journal[i];
      var verdict := EntryVerdict(entry, i);
      if verdict != Fine {
        return verdict, tally;
      }
      OneEntryMore(journal, i);
      TallyOneMore(tally, ItemIds(journal[..i]), entry.itemId);
      tally := tally[entry.itemId := (if entry.itemId in tally then tally[entry.itemId] else 0) + 1];
    }
    assert journal[..|journal|] == journal;
    v := Fine;
  }

  /** A listed identifier is always an item, so true counts never draw a verdict of their own. */
  lemma TrueCountsAreFine(journal: seq<JournalEntry>, k: nat)
    requires ValidJournal(journal) && k < |CountsOf(ItemIds(journal))|
    ensures CountVerdict(CountsOf(ItemIds(journal))[k]) == Fine
  {
    var ids := ItemIds(journal);
    CountsListed(ids);
    var i :| 0 <= i < |ids| && ids[i] == CountsOf(ids)[k].0;
    assert ValidEntry(journal[i], i);
  }

  method ValidateCounts(counts: seq<(int, int)>, expected: seq<(int, int)>) returns (v: Verdict)
    requires forall i :: 0 <= i < |expected| ==> CountVerdict(expected[i]) == Fine
    ensures v == Fine <==> counts == expected
    ensures v == Unsupported ==> exists i :: 0 <= i < |counts| && CountVerdict(counts[i]) == Unsupported
  {
    for i := 0 to |counts|
      invariant forall k :: 0 <= k < i ==> CountVerdict(counts[k]) == Fine
    {
      if CountVerdict(counts[i]) != Fine {
        return CountVerdict(counts[i]);
      }
    }
    v := if counts == expected then Fine else Corrupt;
  }

  method ValidatePending(pending: seq<int>, journal: seq<JournalEntry>) returns (v: Verdict)
    requires ValidJournal(journal)
    ensures v == Fine <==> pending == PendingOf(journal)
    ensures v == Unsupported ==> exists i :: 0 <= i < |pending| && !(0 <= pending[i] < |journal|)
  {
    PendingListed(journal);
    SortedFixes(PendingOf(journal));
    forall i | 0 <= i < |PendingOf(journal)| ensures 0 <= PendingOf(journal)[i] < |journal| {
      assert PendingOf(journal)[i] in Elements(PendingOf(journal));
    }
    if Sorted(Elements(pending)) != pending {
      return Corrupt;
    }
    if exists i :: 0 <= i < |pending| && !(0 <= pending[i] < |journal|) {
      return Unsupported;
    }
    v := if pending == PendingOf(journal) then Fine else Corrupt;
  }

  /** The ledger part of state validation accepts exactly the valid ledgers. */
  method ValidateLedger(s: PersistentState) returns (v: Verdict)
    ensures v == Fine <==> ValidLedger(s)
  {
    if s.nextIndex != |s.journal| {
      return Corrupt;
    }
    var tally;
    v, tally := ValidateJournal(s.journal);
    if v != Fine {
      return;
    }
    var ids := ItemIds(s.journal);
    TalliedCounts(tally, ids);
    forall k | 0 <= k < |CountsOf(ids)| ensures CountVerdict(CountsOf(ids)[k]) == Fine {
      TrueCountsAreFine(s.journal, k);
    }
    v := ValidateCounts(s.counts, SortedItems(tally));
    if v != Fine {
      return;
    }
    v := ValidatePending(s.pending, s.journal);
    if v != Fine {
      return;
    }
    if s.journalVersion != JOURNAL_VERSION {
      return Unsupported;
    }
    v := if s.receipt.Some? && !ValidReceipt(s.receipt.value) then Corrupt else Fine;
  }

  // ---- one append-only server history, delivered over a lossy channel -------------

  /** A canonical history: what the server would send as its full index-zero packet. */
  ghost predicate History(h: seq<JournalEntry>) {
    WellFormed(Packet(0, h))
  }

  ghost predicate IsPrefixOf(journal: seq<JournalEntry>, h: seq<JournalEntry>) {
    |journal| <= |h| && SameIdentities(journal, h[..|journal|])
  }

  /** A packet is any slice of the history; older histories are prefixes, so their slices are too. */
  datatype Slice = Slice(from: nat, to: nat)

  predicate Within(d: Slice, h: seq<JournalEntry>) {
    d.from <= d.to <= |h|
  }

  function Sent(h: seq<JournalEntry>, d: Slice): Packet
    requires Within(d, h)
  {
    Packet(d.from, h[d.from..d.to])
  }

  lemma SliceIsWellFormed(h: seq<JournalEntry>, d: Slice)
    requires History(h) && Within(d, h)
    ensures WellFormed(Sent(h, d))
  {}

  /** The full or a shorter index-zero packet replaces the journal by itself. */
  lemma PrefixFromZero(s: PersistentState, h: seq<JournalEntry>, n: nat)
    requires n <= |h| && s.nextIndex == |s.journal|
    ensures var t := Apply(s, Packet(0, h[..n]));
            t.outcome != Conflict && t.state.nextIndex == |t.state.journal| && SameIdentities(t.state.journal, h[..n])
  {
    var entries := h[..n];
    var rebuilt := Rebuilt(s.journal, entries);
    forall i | 0 <= i < n ensures SameIdentity(rebuilt[i], entries[i]) {
      assert rebuilt[i] == Adopt(s.journal, entries[i], i);
    }
  }

  lemma PrefixExtends(journal: seq<JournalEntry>, h: seq<JournalEntry>, n: nat)
    requires IsPrefixOf(journal, h) && |journal| <= n <= |h|
    ensures SameIdentities(journal + h[|journal|..n], h[..n])
  {}

  lemma SliceRepeats(journal: seq<JournalEntry>, h: seq<JournalEntry>, d: Slice)
    requires IsPrefixOf(journal, h) && d.from <= d.to <= |journal|
    ensures SameIdentities(journal[d.from..d.to], h[d.from..d.to])
  {
    forall i | 0 <= i < d.to - d.from ensures SameIdentity(journal[d.from..d.to][i], h[d.from..d.to][i]) {
      assert SameIdentity(journal[d.from + i], h[..|journal|][d.from + i]);
    }
  }

  lemma PrefixStep(s: PersistentState, h: seq<JournalEntry>, d: Slice)
    requires s.nextIndex == |s.journal| && Within(d, h) && IsPrefixOf(s.journal, h)
    ensures Apply(s, Sent(h, d)).outcome != Conflict
    ensures IsPrefixOf(Apply(s, Sent(h, d)).state.journal, h)
    ensures d == Slice(0, |h|) ==> SameIdentities(Apply(s, Sent(h, d)).state.journal, h)
  {
    if d.from == 0 {
      PrefixFromZero(s, h, d.to);
      assert h[0..d.to] == h[..d.to];
      assert h[..|h|] == h;
    } else if d.from == s.nextIndex {
      PrefixExtends(s.journal, h, d.to);
    } else if d.from < s.nextIndex && d.to <= s.nextIndex {
      SliceRepeats(s.journal, h, d);
    }
  }

  function Deliver(s: PersistentState, h: seq<JournalEntry>, ds: seq<Slice>): (r: PersistentState)
    requires s.nextIndex == |s.journal| && forall i :: 0 <= i < |ds| ==> Within(ds[i], h)
    ensures r.nextIndex == |r.journal|
  {
    if ds == [] then s
    else Apply(Deliver(s, h, ds[..|ds| - 1]), Sent(h, ds[|ds| - 1])).state
  }

  /**
    Whatever is lost, repeated or reordered, the journal is a prefix of the
    history, nothing is ever a conflict, and the full packet completes it.
  */
  lemma {:induction false} JournalIsAlwaysAPrefix(s: PersistentState, h: seq<JournalEntry>, ds: seq<Slice>)
    requires Valid(s) && History(h) && IsPrefixOf(s.journal, h)
    requires forall i :: 0 <= i < |ds| ==> Within(ds[i], h)
    ensures IsPrefixOf(Deliver(s, h, ds).journal, h) && Valid(Deliver(s, h, ds))
    ensures ds != [] ==> Apply(Deliver(s, h, ds[..|ds| - 1]), Sent(h, ds[|ds| - 1])).outcome != Conflict
    ensures ds != [] && ds[|ds| - 1] == Slice(0, |h|) ==> SameIdentities(Deliver(s, h, ds).journal, h)
  {
    if ds != [] {
      JournalIsAlwaysAPrefix(s, h, ds[..|ds| - 1]);
      var before, last := Deliver(s, h, ds[..|ds| - 1]), ds[|ds| - 1];
      SliceIsWellFormed(h, last);
      PrefixStep(before, h, last);
      ApplyKeepsValid(before, Sent(h, last));
    }
  }

  /** Each slice starts where the one before ended, the first at the end of the journal. */
  ghost predicate Consecutive(from: nat, ds: seq<Slice>) {
    forall i :: 0 <= i < |ds| ==> ds[i].from == EndOf(from, ds[..i])
  }

  function EndOf(from: nat, ds: seq<Slice>): nat {
    if ds == [] then from else ds[|ds| - 1].to
  }

  /** A slice from the journal's end brings the journal to its own end. */
  lemma SliceCompletes(s: PersistentState, h: seq<JournalEntry>, d: Slice)
    requires ValidLedger(s) && Within(d, h) && d.from == |s.journal|
    ensures |Apply(s, Sent(h, d)).state.journal| == d.to
  {
    if d.from > 0 {
      ExtendsExactly(s, Sent(h, d));
    } else {
      ReplacesExactly(s, Sent(h, d));
    }
  }

  /** Incremental delivery needs no full packet: consecutive slices bring the journal to the last one's end. */
  lemma {:induction false} SlicesComplete(s: PersistentState, h: seq<JournalEntry>, ds: seq<Slice>)
    requires Valid(s) && History(h) && IsPrefixOf(s.journal, h)
    requires (forall i :: 0 <= i < |ds| ==> Within(ds[i], h)) && Consecutive(|s.journal|, ds)
    ensures |Deliver(s, h, ds).journal| == EndOf(|s.journal|, ds) <= |h|
  {
    if ds != [] {
      var front, last := ds[..|ds| - 1], ds[|ds| - 1];
      assert forall i :: 0 <= i < |front| ==> front[..i] == ds[..i];
      SlicesComplete(s, h, front);
      JournalIsAlwaysAPrefix(s, h, front);
      SliceCompletes(Deliver(s, h, front), h, last);
    }
  }

  /** Once they reach its end, the journal is the history. */
  lemma HistoryCompleted(s: PersistentState, h: seq<JournalEntry>, ds: seq<Slice>)
    requires Valid(s) && History(h) && IsPrefixOf(s.journal, h)
    requires (forall i :: 0 <= i < |ds| ==> Within(ds[i], h)) && Consecutive(|s.journal|, ds)
    requires EndOf(|s.journal|, ds) == |h|
    ensures SameIdentities(Deliver(s, h, ds).journal, h)
  {
    SlicesComplete(s, h, ds);
    JournalIsAlwaysAPrefix(s, h, ds);
    assert h[..|h|] == h;
  }

  // ---- the aggregate target and its application --------------------------------------

  function BitOf(item: int): bv8 {
    if item == JETBOARD_ITEM then 1 else if item == BLASTER_ITEM then 2 else if item == ARMOR_ITEM then 4 else 0
  }

  function HasCount(counts: seq<(int, int)>, item: int): bool {
    exists i :: 0 <= i < |counts| && counts[i].0 == item && counts[i].1 > 0
  }

  function TargetMask(s: PersistentState): bv8 {
    (if HasCount(s.counts, JETBOARD_ITEM) then 1 else 0)
    | (if HasCount(s.counts, BLASTER_ITEM) then 2 else 0)
    | (if HasCount(s.counts, ARMOR_ITEM) then 4 else 0)
  }

  ghost predicate Received(s: PersistentState, item: int) {
    exists i :: 0 <= i < |s.journal| && s.journal[i].itemId == item
  }

  /** The Jetboard is bit one, the Blaster bit two, the armour bit four. */
  lemma MaskByBits(s: PersistentState)
    requires ValidLedger(s)
    ensures TargetMask(s) & 1 != 0 <==> Received(s, 743_000_108)
    ensures TargetMask(s) & 2 != 0 <==> Received(s, 743_010_014)
    ensures TargetMask(s) & 4 != 0 <==> Received(s, 743_000_116)
    ensures TargetMask(s) <= 7
  {
    CountIsPresence(s, 743_000_108);
    CountIsPresence(s, 743_010_014);
    CountIsPresence(s, 743_000_116);
  }

  lemma CountIsPresence(s: PersistentState, item: int)
    requires ValidLedger(s)
    ensures HasCount(s.counts, item) <==> exists i :: 0 <= i < |s.journal| && s.journal[i].itemId == item
  {
    var ids := ItemIds(s.journal);
    CountsListed(ids);
    if i :| 0 <= i < |s.journal| && s.journal[i].itemId == item {
      assert ids[i] == item && item in ids;
    }
    if i :| 0 <= i < |s.counts| && s.counts[i].0 == item {
      assert item in ids;
      var k :| 0 <= k < |ids| && ids[k] == item;
      assert s.journal[k].itemId == item;
    }
  }

  /** The mask holds an item's bit exactly when the journal holds the item, and no other bit. */
  lemma MaskReflectsJournal(s: PersistentState, item: int)
    requires ValidLedger(s)
    ensures BitOf(item) != 0 ==>
              (TargetMask(s) & BitOf(item) != 0 <==> exists i :: 0 <= i < |s.journal| && s.journal[i].itemId == item)
    ensures TargetMask(s) & 0xF8 == 0
  {
    CountIsPresence(s, item);
  }

  lemma MaskHoldsCounts(s: PersistentState, item: int)
    ensures IsPermanentItem(item) ==> (TargetMask(s) & BitOf(item) != 0 <==> HasCount(s.counts, item))
    ensures TargetMask(s) & 0xF8 == 0
  {}

  /**
    The target names a permanent item exactly when it was received, judged by the
    counts and, in a valid ledger, by the journal; no other bit is set.
  */
  method PermanentItemTargetMask(s: PersistentState) returns (mask: bv8)
    ensures mask & 0xF8 == 0
    ensures forall item :: IsPermanentItem(item) ==> (mask & BitOf(item) != 0 <==> HasCount(s.counts, item))
    ensures ValidLedger(s) ==> forall item :: IsPermanentItem(item) ==>
              (mask & BitOf(item) != 0 <==> exists i :: 0 <= i < |s.journal| && s.journal[i].itemId == item)
    ensures mask == TargetMask(s)
  {
    mask := 0;
    if HasCount(s.counts, JETBOARD_ITEM) {
      mask := mask | 1;
    }
    if HasCount(s.counts, BLASTER_ITEM) {
      mask := mask | 2;
    }
    if HasCount(s.counts, ARMOR_ITEM) {
      mask := mask | 4;
    }
    forall item | IsPermanentItem(item) ensures mask & BitOf(item) != 0 <==> HasCount(s.counts, item) {
      MaskHoldsCounts(s, item);
    }
    if ValidLedger(s) {
      forall item | IsPermanentItem(item)
        ensures mask & BitOf(item) != 0 <==> exists i :: 0 <= i < |s.journal| && s.journal[i].itemId == item
      {
        MaskReflectsJournal(s, item);
      }
    }
  }

  function AppliedEntry(e: JournalEntry): JournalEntry {
    if e.state.Pending? then e.(state := Applied) else e
  }

  function MarkPendingApplied(s: PersistentState, receipt: Receipt): PersistentState {
    s.(journal := seq(|s.journal|, i requires 0 <= i < |s.journal| => AppliedEntry(s.journal[i])),
       pending := [], receipt := Some(receipt))
  }

  predicate ValidReceipt(r: Receipt) {
    IdentityText(r.commandId, 128) && IdentityText(r.kind, 64) && IdentityText(r.result, 64)
  }

  lemma {:induction false} NothingPending(journal: seq<JournalEntry>)
    requires forall i :: 0 <= i < |journal| ==> !journal[i].state.Pending?
    ensures PendingOf(journal) == []
  {
    if journal != [] {
      NothingPending(journal[..|journal| - 1]);
    }
  }

  /** Marking changes no identifier, so nothing a count depends on. */
  lemma MarkedJournal(before: seq<JournalEntry>, after: seq<JournalEntry>)
    requires |after| == |before| && forall i :: 0 <= i < |before| ==> after[i] == AppliedEntry(before[i])
    ensures ItemIds(after) == ItemIds(before) && PendingOf(after) == []
    ensures ValidJournal(before) ==> ValidJournal(after)
  {
    NothingPending(after);
  }

  lemma MarkedLedger(s: PersistentState, receipt: Receipt)
    requires ValidLedger(s) && ValidReceipt(receipt)
    ensures ValidLedger(MarkPendingApplied(s, receipt))
  {
    MarkedJournal(s.journal, MarkPendingApplied(s, receipt).journal);
  }

  /** Marking settles every pending entry, touches no other, and keeps the state valid and its target. */
  lemma MarkingIsValid(s: PersistentState, receipt: Receipt)
    requires Valid(s) && ValidReceipt(receipt)
    ensures Valid(MarkPendingApplied(s, receipt))
    ensures TargetMask(MarkPendingApplied(s, receipt)) == TargetMask(s)
    ensures var t := MarkPendingApplied(s, receipt);
            && t == s.(journal := t.journal, pending := [], receipt := Some(receipt)) && |t.journal| == |s.journal|
            && forall i :: 0 <= i < |s.journal| ==>
                 if s.journal[i].state.Pending? then t.journal[i] == s.journal[i].(state := Applied)
                 else t.journal[i] == s.journal[i]
  {
    MarkedLedger(s, receipt);
  }
}
