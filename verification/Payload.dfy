/** Persistent states as JSON payloads inside a checksummed envelope. */
module Payload {
  import opened Sorting
  import opened State
  import Decimal

  type Fields = map<string, Json>

  /** How reading can end: an unsupported version, malformed data, or a value validation refuses. */
  datatype Reading<+T> = Read(value: T) | Foreign | Corrupt | Refused

  function AsInt(j: Json): Option<int> {
    if j.Num? then Some(j.number) else None
  }

  function AsText(j: Json): Option<string> {
    if j.Text? then Some(j.text) else None
  }

  function AsFlag(j: Json): Option<bool> {
    if j.Bool? then Some(j.flag) else None
  }

  // ---- arrays of integers --------------------------------------------------------------

  function Ints(s: seq<int>): Json {
    Arr(seq(|s|, i requires 0 <= i < |s| => Num(s[i])))
  }

  function AsInts(j: Json): Option<seq<int>> {
    if j.Arr? && forall i :: 0 <= i < |j.items| ==> j.items[i].Num?
    then Some(seq(|j.items|, i requires 0 <= i < |j.items| => j.items[i].number))
    else None
  }

  lemma IntsRead(s: seq<int>)
    ensures AsInts(Ints(s)) == Some(s) && JsonClean(Ints(s))
  {
    assert AsInts(Ints(s)).value == s;
  }

  // ---- the journal -----------------------------------------------------------------------

  function StateName(state: EntryState): string {
    match state
    case Received => "received"
    case Pending => "pending"
    case Applied => "applied"
  }

  function StateNamed(name: string): Option<EntryState> {
    if name == "received" then Some(Received)
    else if name == "pending" then Some(Pending)
    else if name == "applied" then Some(Applied)
    else None
  }

  lemma StateNamesRead(state: EntryState)
    ensures StateNamed(StateName(state)) == Some(state)
  {}

  function EntryPayload(e: JournalEntry): Json {
    Obj(map["index" := Num(e.index), "item_id" := Num(e.itemId), "location_id" := Num(e.locationId),
            "source_player" := Num(e.sourcePlayer), "flags" := Num(e.flags), "state" := Text(StateName(e.state))])
  }

  const ENTRY_KEYS := {"index", "item_id", "location_id", "source_player", "flags", "state"}

  function ReadEntry(j: Json): Option<JournalEntry> {
    if !j.Obj? || j.fields.Keys != ENTRY_KEYS then None
    else
      var f := j.fields;
      var index, item, location := AsInt(f["index"]), AsInt(f["item_id"]), AsInt(f["location_id"]);
      var player, flags, name := AsInt(f["source_player"]), AsInt(f["flags"]), AsText(f["state"]);
      if index.None? || item.None? || location.None? || player.None? || flags.None? || name.None? then None
      else if StateNamed(name.value).None? then None
      else Some(JournalEntry(index.value, item.value, location.value, player.value, flags.value,
                             StateNamed(name.value).value))
  }

  lemma EntryReads(e: JournalEntry)
    ensures ReadEntry(EntryPayload(e)) == Some(e) && JsonClean(EntryPayload(e))
  {
    StateNamesRead(e.state);
    assert EntryPayload(e).fields.Keys == ENTRY_KEYS;
  }

  function JournalPayload(journal: seq<JournalEntry>): Json {
    Arr(seq(|journal|, i requires 0 <= i < |journal| => EntryPayload(journal[i])))
  }

  function ReadJournal(j: Json): Option<seq<JournalEntry>> {
    if j.Arr? && forall i :: 0 <= i < |j.items| ==> ReadEntry(j.items[i]).Some?
    then Some(seq(|j.items|, i requires 0 <= i < |j.items| => ReadEntry(j.items[i]).value))
    else None
  }

  lemma JournalReads(journal: seq<JournalEntry>)
    ensures ReadJournal(JournalPayload(journal)) == Some(journal) && JsonClean(JournalPayload(journal))
  {
    forall i | 0 <= i < |journal|
      ensures ReadEntry(EntryPayload(journal[i])) == Some(journal[i]) && JsonClean(EntryPayload(journal[i]))
    {
      EntryReads(journal[i]);
    }
    assert ReadJournal(JournalPayload(journal)).value == journal;
  }

  // ---- counts: decimal keys on disk, integer order in memory --------------------------------

  function CountsPayload(counts: seq<(int, int)>): Json {
    Obj(CountFields(counts))
  }

  function CountFields(counts: seq<(int, int)>): Fields {
    if counts == [] then map[]
    else
      var last := counts[|counts| - 1];
      CountFields(counts[..|counts| - 1])[Decimal.Print(last.0) := Num(last.1)]
  }

  function InsertPair(s: seq<(int, int)>, x: (int, int)): seq<(int, int)> {
    if s == [] then [x]
    else
      var last := s[|s| - 1];
      if last.0 < x.0 || (last.0 == x.0 && last.1 <= x.1) then s + [x] else InsertPair(s[..|s| - 1], x) + [last]
  }

  function SortPairs(s: seq<(int, int)>): seq<(int, int)> {
    if s == [] then [] else InsertPair(SortPairs(s[..|s| - 1]), s[|s| - 1])
  }

  function ReadId(key: string): Option<int> {
    if key != "" && Decimal.AllDigits(key) then Some(Decimal.ParseNat(key)) else None
  }

  /** A dictionary is read in whatever order its keys come. */
  ghost predicate Enumerates(order: seq<string>, keys: set<string>) {
    && (forall k :: k in order <==> k in keys)
    && (forall i, j :: 0 <= i < j < |order| ==> order[i] != order[j])
  }

  predicate ReadableCounts(f: Fields, order: seq<string>) {
    forall i :: 0 <= i < |order| ==> order[i] in f && ReadId(order[i]).Some? && f[order[i]].Num?
  }

  function CountPairs(f: Fields, order: seq<string>): (s: seq<(int, int)>)
    requires ReadableCounts(f, order)
    ensures |s| == |order|
  {
    seq(|order|, i requires 0 <= i < |order| => (ReadId(order[i]).value, f[order[i]].number))
  }

  function ReadCounts(j: Json, order: seq<string>): Option<seq<(int, int)>> {
    if j.Obj? && ReadableCounts(j.fields, order) then Some(SortPairs(CountPairs(j.fields, order))) else None
  }

  ghost predicate IncreasingKeys(s: seq<(int, int)>) {
    forall i, j :: 0 <= i < j < |s| ==> s[i].0 < s[j].0
  }

  lemma {:induction false} InsertPairKeeps(s: seq<(int, int)>, x: (int, int))
    requires IncreasingKeys(s) && forall i :: 0 <= i < |s| ==> s[i].0 != x.0
    ensures IncreasingKeys(InsertPair(s, x))
    ensures forall y :: y in InsertPair(s, x) <==> y in s || y == x
  {
    if s != [] && s[|s| - 1].0 > x.0 {
      var front, last := s[..|s| - 1], s[|s| - 1];
      InsertPairKeeps(front, x);
      assert s == front + [last];
      assert forall y :: y in InsertPair(front, x) ==> y.0 < last.0;
      assert forall i :: 0 <= i < |InsertPair(front, x)| ==> InsertPair(front, x)[i] in InsertPair(front, x);
    }
  }

  lemma {:induction false} SortPairsKeeps(s: seq<(int, int)>)
    requires forall i, j :: 0 <= i < j < |s| ==> s[i].0 != s[j].0
    ensures IncreasingKeys(SortPairs(s))
    ensures forall y :: y in SortPairs(s) <==> y in s
  {
    if s != [] {
      var front, last := s[..|s| - 1], s[|s| - 1];
      SortPairsKeeps(front);
      forall i | 0 <= i < |SortPairs(front)| ensures SortPairs(front)[i].0 != last.0 {
        assert SortPairs(front)[i] in front;
      }
      InsertPairKeeps(SortPairs(front), last);
      assert s == front + [last];
    }
  }

  lemma FirstIn(s: seq<(int, int)>)
    ensures s != [] ==> s[0] in s
  {}

  /** Pairs with increasing keys are determined by their set. */
  lemma {:induction false} PairsUnique(a: seq<(int, int)>, b: seq<(int, int)>)
    requires IncreasingKeys(a) && IncreasingKeys(b) && forall y :: y in a <==> y in b
    ensures a == b
  {
    FirstIn(a);
    FirstIn(b);
    if a != [] {
      assert a[|a| - 1] in b;
      var x, y := a[|a| - 1], b[|b| - 1];
      assert x in b && y in a;
      assert x == y;
      var front, other := a[..|a| - 1], b[..|b| - 1];
      forall p ensures p in front <==> p in other {
        assert p in front ==> p in a && p.0 < x.0;
        assert p in other ==> p in b && p.0 < y.0;
        assert p in a && p.0 < x.0 ==> p in front;
        assert p in b && p.0 < y.0 ==> p in other;
      }
      PairsUnique(front, other);
      assert a == front + [x] && b == other + [y];
    }
  }

  lemma OtherKey(a: int, b: int)
    requires a != b
    ensures Decimal.Print(a) != Decimal.Print(b)
  {
    if Decimal.Print(a) == Decimal.Print(b) {
      Decimal.PrintInjective(a, b);
    }
  }

  /** The object maps the decimal of each identifier to its count, ... */
  lemma {:induction false} CountField(counts: seq<(int, int)>, i: nat)
    requires IncreasingKeys(counts) && i < |counts|
    ensures var key := Decimal.Print(counts[i].0);
            key in CountFields(counts) && CountFields(counts)[key] == Num(counts[i].1)
  {
    var n := |counts| - 1;
    if i < n {
      CountField(counts[..n], i);
      OtherKey(counts[i].0, counts[n].0);
    }
  }

  /** ... and holds nothing else. */
  lemma {:induction false} CountKey(counts: seq<(int, int)>, key: string) returns (i: nat)
    requires key in CountFields(counts)
    ensures i < |counts| && Decimal.Print(counts[i].0) == key
  {
    i := |counts| - 1;
    if key != Decimal.Print(counts[i].0) {
      i := CountKey(counts[..i], key);
    }
  }

  lemma ReadPrintedId(id: nat)
    ensures ReadId(Decimal.Print(id)) == Some(id)
  {
    Decimal.ParsePrintNat(id);
  }

  /** Whatever order the object's keys come in, reading sorts the counts by integer again. */
  lemma CountsRead(counts: seq<(int, int)>, order: seq<string>)
    requires IncreasingKeys(counts) && forall i :: 0 <= i < |counts| ==> counts[i].0 >= 0
    requires Enumerates(order, CountFields(counts).Keys)
    ensures ReadCounts(CountsPayload(counts), order) == Some(counts)
  {
    var f := CountFields(counts);
    forall i | 0 <= i < |order|
      ensures order[i] in f && ReadId(order[i]).Some? && f[order[i]].Num?
    {
      CountAt(counts, order[i]);
    }
    var pairs := CountPairs(f, order);
    forall i, j | 0 <= i < j < |pairs| ensures pairs[i].0 != pairs[j].0 {
      CountAt(counts, order[i]);
      CountAt(counts, order[j]);
    }
    SortPairsKeeps(pairs);
    forall y ensures y in pairs <==> y in counts {
      PairIsCount(counts, order, y);
    }
    PairsUnique(SortPairs(pairs), counts);
  }

  lemma CountAt(counts: seq<(int, int)>, key: string)
    requires IncreasingKeys(counts) && (forall i :: 0 <= i < |counts| ==> counts[i].0 >= 0)
             && key in CountFields(counts)
    ensures ReadId(key).Some? && Decimal.Print(ReadId(key).value) == key && CountFields(counts)[key].Num?
    ensures (ReadId(key).value, CountFields(counts)[key].number) in counts
  {
    var i := CountKey(counts, key);
    CountField(counts, i);
    ReadPrintedId(counts[i].0);
    assert counts[i] in counts;
  }

  lemma PairIsCount(counts: seq<(int, int)>, order: seq<string>, y: (int, int))
    requires IncreasingKeys(counts) && forall i :: 0 <= i < |counts| ==> counts[i].0 >= 0
    requires Enumerates(order, CountFields(counts).Keys) && ReadableCounts(CountFields(counts), order)
    ensures y in CountPairs(CountFields(counts), order) <==> y in counts
  {
    var pairs := CountPairs(CountFields(counts), order);
    if y in pairs {
      var i :| 0 <= i < |pairs| && pairs[i] == y;
      CountAt(counts, order[i]);
    }
    if y in counts {
      var k :| 0 <= k < |counts| && counts[k] == y;
      CountField(counts, k);
      ReadPrintedId(counts[k].0);
      var key := Decimal.Print(counts[k].0);
      assert key in order;
      var i :| 0 <= i < |order| && order[i] == key;
      assert pairs[i] == y;
    }
  }

  // ---- the whole state ------------------------------------------------------------------------

  function ReceiptPayload(r: Option<Receipt>): Json {
    if r.None? then Null
    else Obj(map["command_id" := Text(r.value.commandId), "command_kind" := Text(r.value.kind),
                 "result" := Text(r.value.result)])
  }

  function ObjectPayload(j: Option<Json>): Json {
    if j.None? then Null else j.value
  }

  /** The members of the payload object. */
  datatype Key =
    InstanceId | Revision | SchemaVersion | ProtocolVersion | IntegrationVersion | SlotDataVersion | ItemHash |
    LocationHash | MissionHash | OptionsHash | DesignVersion | Seed | Team | SlotNumber | SlotName | SaveSlot |
    SaveIdentity | NextIndex | Journal | Counts | PendingIndices | JournalVersion | LastReceipt | Checked |
    Confirmed | Outbox | Orbs | Gems | Overlay | Shadow | Traps | GoalCompleted | GoalStatusSent | CleanShutdown

  function KeyName(k: Key): string {
    match k
    case InstanceId => "state_instance_id"
    case Revision => "state_revision"
    case SchemaVersion => "state_schema_version"
    case ProtocolVersion => "protocol_version"
    case IntegrationVersion => "game_integration_version"
    case SlotDataVersion => "slot_data_version"
    case ItemHash => "item_table_hash"
    case LocationHash => "location_table_hash"
    case MissionHash => "mission_table_hash"
    case OptionsHash => "resolved_options_hash"
    case DesignVersion => "design_version"
    case Seed => "seed_identifier"
    case Team => "team"
    case SlotNumber => "slot"
    case SlotName => "slot_name"
    case SaveSlot => "native_save_slot"
    case SaveIdentity => "native_save_identity"
    case NextIndex => "next_received_item_index"
    case Journal => "received_item_journal"
    case Counts => "received_item_counts"
    case PendingIndices => "pending_item_application_indices"
    case JournalVersion => "game_application_journal_version"
    case LastReceipt => "last_observed_game_command_receipt"
    case Checked => "checked_location_bits"
    case Confirmed => "server_confirmed_location_bits"
    case Outbox => "pending_location_outbox"
    case Orbs => "local_earned_precursor_orbs"
    case Gems => "local_earned_skull_gems"
    case Overlay => "active_bootstrap_overlay"
    case Shadow => "active_shadow_story_state"
    case Traps => "pending_traps"
    case GoalCompleted => "goal_completed"
    case GoalStatusSent => "goal_status_sent"
    case CleanShutdown => "last_clean_shutdown"
  }

  // One table for each range of name lengths.
  function KeyNamedA(name: string): Option<Key> {
    match |name|
    case 4 => if name == "team" then Some(Team) else if name == "slot" then Some(SlotNumber) else None
    case 9 => if name == "slot_name" then Some(SlotName) else None
    case _ => None
  }

  function KeyNamedB(name: string): Option<Key> {
    match |name|
    case 13 => if name == "pending_traps" then Some(Traps) else None
    case _ => None
  }

  function KeyNamedC(name: string): Option<Key> {
    match |name|
    case 14 => if name == "state_revision" then Some(Revision)
               else if name == "design_version" then Some(DesignVersion)
               else if name == "goal_completed" then Some(GoalCompleted)
               else None
    case 15 => if name == "item_table_hash" then Some(ItemHash)
               else if name == "seed_identifier" then Some(Seed)
               else None
    case _ => None
  }

  function KeyNamedD(name: string): Option<Key> {
    match |name|
    case 16 => if name == "protocol_version" then Some(ProtocolVersion)
               else if name == "native_save_slot" then Some(SaveSlot)
               else if name == "goal_status_sent" then Some(GoalStatusSent)
               else None
    case 17 => if name == "state_instance_id" then Some(InstanceId)
               else if name == "slot_data_version" then Some(SlotDataVersion)
               else None
    case _ => None
  }

  function KeyNamedE(name: string): Option<Key> {
    match |name|
    case 18 => if name == "mission_table_hash" then Some(MissionHash) else None
    case 19 => if name == "location_table_hash" then Some(LocationHash)
               else if name == "last_clean_shutdown" then Some(CleanShutdown)
               else None
    case 20 => if name == "state_schema_version" then Some(SchemaVersion)
               else if name == "native_save_identity" then Some(SaveIdentity)
               else if name == "received_item_counts" then Some(Counts)
               else None
    case _ => None
  }

  function KeyNamedF(name: string): Option<Key> {
    match |name|
    case 21 => if name == "resolved_options_hash" then Some(OptionsHash)
               else if name == "received_item_journal" then Some(Journal)
               else if name == "checked_location_bits" then Some(Checked)
               else None
    case 23 => if name == "pending_location_outbox" then Some(Outbox)
               else if name == "local_earned_skull_gems" then Some(Gems)
               else None
    case _ => None
  }

  function KeyNamedG(name: string): Option<Key> {
    match |name|
    case 24 => if name == "game_integration_version" then Some(IntegrationVersion)
               else if name == "next_received_item_index" then Some(NextIndex)
               else if name == "active_bootstrap_overlay" then Some(Overlay)
               else None
    case 25 => if name == "active_shadow_story_state" then Some(Shadow) else None
    case 27 => if name == "local_earned_precursor_orbs" then Some(Orbs) else None
    case _ => None
  }

  function KeyNamedH(name: string): Option<Key> {
    match |name|
    case 30 => if name == "server_confirmed_location_bits" then Some(Confirmed) else None
    case 32 => if name == "pending_item_application_indices" then Some(PendingIndices)
               else if name == "game_application_journal_version" then Some(JournalVersion)
               else None
    case 34 => if name == "last_observed_game_command_receipt" then Some(LastReceipt) else None
    case _ => None
  }

  /** The member with this name, found by the length of the name first. */
  function KeyNamed(name: string): Option<Key> {
    if |name| < 11 then KeyNamedA(name)
    else if |name| < 14 then KeyNamedB(name)
    else if |name| < 16 then KeyNamedC(name)
    else if |name| < 18 then KeyNamedD(name)
    else if |name| < 21 then KeyNamedE(name)
    else if |name| < 24 then KeyNamedF(name)
    else if |name| < 28 then KeyNamedG(name)
    else KeyNamedH(name)
  }

  lemma NamesA0()
    ensures KeyNamedA(KeyName(Team)) == Some(Team)
    ensures KeyNamedA(KeyName(SlotNumber)) == Some(SlotNumber)
    ensures KeyNamedA(KeyName(SlotName)) == Some(SlotName)
  {}

  lemma NamesB0()
    ensures KeyNamedB(KeyName(Traps)) == Some(Traps)
  {}

  lemma NamesC0()
    ensures KeyNamedC(KeyName(Revision)) == Some(Revision)
    ensures KeyNamedC(KeyName(ItemHash)) == Some(ItemHash)
    ensures KeyNamedC(KeyName(DesignVersion)) == Some(DesignVersion)
  {}

  lemma NamesC1()
    ensures KeyNamedC(KeyName(Seed)) == Some(Seed)
    ensures KeyNamedC(KeyName(GoalCompleted)) == Some(GoalCompleted)
  {}

  lemma NamesD0()
    ensures KeyNamedD(KeyName(InstanceId)) == Some(InstanceId)
    ensures KeyNamedD(KeyName(ProtocolVersion)) == Some(ProtocolVersion)
    ensures KeyNamedD(KeyName(SlotDataVersion)) == Some(SlotDataVersion)
  {}

  lemma NamesD1()
    ensures KeyNamedD(KeyName(SaveSlot)) == Some(SaveSlot)
    ensures KeyNamedD(KeyName(GoalStatusSent)) == Some(GoalStatusSent)
  {}

  lemma NamesE0()
    ensures KeyNamedE(KeyName(SchemaVersion)) == Some(SchemaVersion)
    ensures KeyNamedE(KeyName(LocationHash)) == Some(LocationHash)
    ensures KeyNamedE(KeyName(MissionHash)) == Some(MissionHash)
  {}

  lemma NamesE1()
    ensures KeyNamedE(KeyName(SaveIdentity)) == Some(SaveIdentity)
    ensures KeyNamedE(KeyName(Counts)) == Some(Counts)
    ensures KeyNamedE(KeyName(CleanShutdown)) == Some(CleanShutdown)
  {}

  lemma NamesF0()
    ensures KeyNamedF(KeyName(OptionsHash)) == Some(OptionsHash)
    ensures KeyNamedF(KeyName(Journal)) == Some(Journal)
    ensures KeyNamedF(KeyName(Checked)) == Some(Checked)
  {}

  lemma NamesF1()
    ensures KeyNamedF(KeyName(Outbox)) == Some(Outbox)
    ensures KeyNamedF(KeyName(Gems)) == Some(Gems)
  {}

  lemma NamesG0()
    ensures KeyNamedG(KeyName(IntegrationVersion)) == Some(IntegrationVersion)
    ensures KeyNamedG(KeyName(NextIndex)) == Some(NextIndex)
    ensures KeyNamedG(KeyName(Orbs)) == Some(Orbs)
  {}

  lemma NamesG1()
    ensures KeyNamedG(KeyName(Overlay)) == Some(Overlay)
    ensures KeyNamedG(KeyName(Shadow)) == Some(Shadow)
  {}

  lemma NamesH0()
    ensures KeyNamedH(KeyName(PendingIndices)) == Some(PendingIndices)
    ensures KeyNamedH(KeyName(JournalVersion)) == Some(JournalVersion)
    ensures KeyNamedH(KeyName(LastReceipt)) == Some(LastReceipt)
  {}

  lemma NamesH1()
    ensures KeyNamedH(KeyName(Confirmed)) == Some(Confirmed)
  {}

  /** Names determine members. */
  lemma KeyNamesDiffer(k: Key)
    ensures KeyNamed(KeyName(k)) == Some(k)
  {
    match k
    case Team => NamesA0();
    case SlotNumber => NamesA0();
    case SlotName => NamesA0();
    case Traps => NamesB0();
    case Revision => NamesC0();
    case ItemHash => NamesC0();
    case DesignVersion => NamesC0();
    case Seed => NamesC1();
    case GoalCompleted => NamesC1();
    case InstanceId => NamesD0();
    case ProtocolVersion => NamesD0();
    case SlotDataVersion => NamesD0();
    case SaveSlot => NamesD1();
    case GoalStatusSent => NamesD1();
    case SchemaVersion => NamesE0();
    case LocationHash => NamesE0();
    case MissionHash => NamesE0();
    case SaveIdentity => NamesE1();
    case Counts => NamesE1();
    case CleanShutdown => NamesE1();
    case OptionsHash => NamesF0();
    case Journal => NamesF0();
    case Checked => NamesF0();
    case Outbox => NamesF1();
    case Gems => NamesF1();
    case IntegrationVersion => NamesG0();
    case NextIndex => NamesG0();
    case Orbs => NamesG0();
    case Overlay => NamesG1();
    case Shadow => NamesG1();
    case PendingIndices => NamesH0();
    case JournalVersion => NamesH0();
    case LastReceipt => NamesH0();
    case Confirmed => NamesH1();
  }

  function FieldPayload(s: PersistentState, k: Key): Json {
    match k
    case InstanceId => Text(s.instanceId)
    case Revision => Num(s.revision)
    case SchemaVersion => Num(s.contract.schema)
    case ProtocolVersion => Num(s.contract.protocol)
    case IntegrationVersion => Num(s.contract.integration)
    case SlotDataVersion => Num(s.contract.slotData)
    case ItemHash => Text(s.contract.itemHash)
    case LocationHash => Text(s.contract.locationHash)
    case MissionHash => Text(s.contract.missionHash)
    case OptionsHash => Text(s.contract.optionsHash)
    case DesignVersion => Text(s.contract.design)
    case Seed => if s.binding.None? then Null else Text(s.binding.value.seed)
    case Team => if s.binding.None? then Null else Num(s.binding.value.team)
    case SlotNumber => if s.binding.None? then Null else Num(s.binding.value.number)
    case SlotName => if s.binding.None? then Null else Text(s.binding.value.name)
    case SaveSlot => Num(s.saveSlot)
    case SaveIdentity => Text(s.saveIdentity)
    case NextIndex => Num(s.nextIndex)
    case Journal => JournalPayload(s.journal)
    case Counts => CountsPayload(s.counts)
    case PendingIndices => Ints(s.pending)
    case JournalVersion => Num(s.journalVersion)
    case LastReceipt => ReceiptPayload(s.receipt)
    case Checked => Ints(s.checked)
    case Confirmed => Ints(s.confirmed)
    case Outbox => Ints(s.outbox)
    case Orbs => Num(s.orbs)
    case Gems => Num(s.gems)
    case Overlay => ObjectPayload(s.overlay)
    case Shadow => ObjectPayload(s.shadow)
    case Traps => Arr(s.traps)
    case GoalCompleted => Bool(s.goalCompleted)
    case GoalStatusSent => Bool(s.goalStatusSent)
    case CleanShutdown => Bool(s.cleanShutdown)
  }

  /** Every member is present. */
  predicate Member(k: Key) {
    true
  }

  const STATE_KEYS := set k: Key | Member(k) :: KeyName(k)

  function ToPayload(s: PersistentState): Fields {
    map name | name in STATE_KEYS :: if KeyNamed(name).Some? then FieldPayload(s, KeyNamed(name).value) else Null
  }

  lemma PayloadAt(s: PersistentState, k: Key)
    ensures ToPayload(s).Keys == STATE_KEYS
    ensures KeyName(k) in ToPayload(s) && ToPayload(s)[KeyName(k)] == FieldPayload(s, k)
  {
    KeyNamesDiffer(k);
    assert Member(k);
  }

  /** A payload by member instead of by name; absent members read as null. */
  type View = map<Key, Json>

  function ViewOf(f: Fields): View {
    map k: Key | Member(k) :: if KeyName(k) in f then f[KeyName(k)] else Null
  }

  function ViewOfState(s: PersistentState): View {
    map k: Key | Member(k) :: FieldPayload(s, k)
  }

  function Get(v: View, k: Key): Json {
    if k in v then v[k] else Null
  }

  lemma PayloadView(s: PersistentState)
    ensures ViewOf(ToPayload(s)) == ViewOfState(s)
  {
    forall k: Key | Member(k) ensures ViewOf(ToPayload(s))[k] == FieldPayload(s, k) {
      PayloadAt(s, k);
    }
  }

  lemma GetPayload(s: PersistentState, k: Key)
    ensures Get(ViewOfState(s), k) == FieldPayload(s, k)
  {
    assert Member(k);
  }

  function ReadContract(v: View): Option<Contract> {
    var schema, protocol := AsInt(Get(v, SchemaVersion)), AsInt(Get(v, ProtocolVersion));
    var integration, slotData := AsInt(Get(v, IntegrationVersion)), AsInt(Get(v, SlotDataVersion));
    var items, locations := AsText(Get(v, ItemHash)), AsText(Get(v, LocationHash));
    var missions, options := AsText(Get(v, MissionHash)), AsText(Get(v, OptionsHash));
    var design := AsText(Get(v, DesignVersion));
    if schema.None? || protocol.None? || integration.None? || slotData.None? || items.None? || locations.None?
       || missions.None? || options.None? || design.None? then None
    else Some(Contract(schema.value, protocol.value, integration.value, slotData.value,
                       items.value, locations.value, missions.value, options.value, design.value))
  }

  lemma ContractReads(s: PersistentState)
    ensures ReadContract(ViewOfState(s)) == Some(s.contract)
  {
    GetPayload(s, SchemaVersion);
    GetPayload(s, ProtocolVersion);
    GetPayload(s, IntegrationVersion);
    GetPayload(s, SlotDataVersion);
    GetPayload(s, ItemHash);
    GetPayload(s, LocationHash);
    GetPayload(s, MissionHash);
    GetPayload(s, OptionsHash);
    GetPayload(s, DesignVersion);
  }

  /** All four members of a binding, or none of them. */
  function ReadBinding(v: View): Option<Option<Slot>> {
    var seed, team, number, name := Get(v, Seed), Get(v, Team), Get(v, SlotNumber), Get(v, SlotName);
    if seed.Null? && team.Null? && number.Null? && name.Null? then Some(None)
    else if seed.Text? && team.Num? && number.Num? && name.Text? then
      Some(Some(Slot(seed.text, team.number, number.number, name.text)))
    else None
  }

  lemma BindingReads(s: PersistentState)
    ensures ReadBinding(ViewOfState(s)) == Some(s.binding)
  {
    GetPayload(s, Seed);
    GetPayload(s, Team);
    GetPayload(s, SlotNumber);
    GetPayload(s, SlotName);
  }

  const RECEIPT_KEYS := {"command_id", "command_kind", "result"}

  function ReadReceipt(j: Json): Option<Option<Receipt>> {
    if j.Null? then Some(None)
    else if !j.Obj? || j.fields.Keys != RECEIPT_KEYS then None
    else
      var id, kind := AsText(j.fields["command_id"]), AsText(j.fields["command_kind"]);
      var result := AsText(j.fields["result"]);
      if id.None? || kind.None? || result.None? then None else Some(Some(Receipt(id.value, kind.value, result.value)))
  }

  lemma ReceiptReads(r: Option<Receipt>)
    ensures ReadReceipt(ReceiptPayload(r)) == Some(r) && JsonClean(ReceiptPayload(r))
  {
    assert r.Some? ==> ReceiptPayload(r).fields.Keys == RECEIPT_KEYS;
  }

  function ReadObject(j: Json): Option<Option<Json>> {
    if j.Null? then Some(None) else if j.Obj? then Some(Some(j)) else None
  }

  function ReadObjects(j: Json): Option<seq<Json>> {
    if j.Arr? && forall i :: 0 <= i < |j.items| ==> j.items[i].Obj? then Some(j.items) else None
  }

  datatype LedgerPart = LedgerPart(
    nextIndex: int, journal: seq<JournalEntry>, counts: seq<(int, int)>, pending: seq<int>, version: int,
    receipt: Option<Receipt>)

  function ReadLedger(v: View, order: seq<string>): Option<LedgerPart> {
    var nextIndex, version := AsInt(Get(v, NextIndex)), AsInt(Get(v, JournalVersion));
    var journal, counts := ReadJournal(Get(v, Journal)), ReadCounts(Get(v, Counts), order);
    var pending, receipt := AsInts(Get(v, PendingIndices)), ReadReceipt(Get(v, LastReceipt));
    if nextIndex.None? || version.None? || journal.None? || counts.None? || pending.None? || receipt.None? then None
    else Some(LedgerPart(nextIndex.value, journal.value, counts.value, pending.value, version.value, receipt.value))
  }

  /** The counts of a valid ledger, as the object they are stored in. */
  ghost predicate ReadsCounts(s: PersistentState, order: seq<string>) {
    Enumerates(order, CountFields(s.counts).Keys)
  }

  lemma CountsAreIncreasing(s: PersistentState)
    requires ValidLedger(s)
    ensures IncreasingKeys(s.counts) && forall i :: 0 <= i < |s.counts| ==> s.counts[i].0 >= 0
  {
    var ids := ItemIds(s.journal);
    var keys := Sorted(Elements(ids));
    forall i | 0 <= i < |s.counts| ensures s.counts[i].0 >= 0 {
      assert keys[i] in keys;
      var k :| 0 <= k < |ids| && ids[k] == keys[i];
      assert ValidEntry(s.journal[k], k);
    }
  }

  lemma JournalFieldReads(s: PersistentState)
    ensures ReadJournal(Get(ViewOfState(s), Journal)) == Some(s.journal)
  {
    GetPayload(s, Journal);
    JournalReads(s.journal);
  }

  lemma CountsFieldReads(s: PersistentState, order: seq<string>)
    requires IncreasingKeys(s.counts) && (forall i :: 0 <= i < |s.counts| ==> s.counts[i].0 >= 0)
             && ReadsCounts(s, order)
    ensures ReadCounts(Get(ViewOfState(s), Counts), order) == Some(s.counts)
  {
    GetPayload(s, Counts);
    CountsRead(s.counts, order);
  }

  lemma IntFieldsRead(s: PersistentState)
    ensures var v := ViewOfState(s);
            && AsInts(Get(v, PendingIndices)) == Some(s.pending)
            && AsInts(Get(v, Checked)) == Some(s.checked)
            && AsInts(Get(v, Confirmed)) == Some(s.confirmed)
            && AsInts(Get(v, Outbox)) == Some(s.outbox)
  {
    GetPayload(s, PendingIndices);
    GetPayload(s, Checked);
    GetPayload(s, Confirmed);
    GetPayload(s, Outbox);
    IntsRead(s.pending);
    IntsRead(s.checked);
    IntsRead(s.confirmed);
    IntsRead(s.outbox);
  }

  lemma ReceiptFieldReads(s: PersistentState)
    ensures ReadReceipt(Get(ViewOfState(s), LastReceipt)) == Some(s.receipt)
  {
    GetPayload(s, LastReceipt);
    ReceiptReads(s.receipt);
  }

  lemma LedgerAssembles(v: View, order: seq<string>, p: LedgerPart)
    requires AsInt(Get(v, NextIndex)) == Some(p.nextIndex) && AsInt(Get(v, JournalVersion)) == Some(p.version)
    requires ReadJournal(Get(v, Journal)) == Some(p.journal) && ReadCounts(Get(v, Counts), order) == Some(p.counts)
    requires AsInts(Get(v, PendingIndices)) == Some(p.pending) && ReadReceipt(Get(v, LastReceipt)) == Some(p.receipt)
    ensures ReadLedger(v, order) == Some(p)
  {}

  lemma LedgerNumbersRead(s: PersistentState)
    ensures var v := ViewOfState(s);
            AsInt(Get(v, NextIndex)) == Some(s.nextIndex) && AsInt(Get(v, JournalVersion)) == Some(s.journalVersion)
  {
    GetPayload(s, NextIndex);
    GetPayload(s, JournalVersion);
  }

  lemma LedgerReads(s: PersistentState, order: seq<string>)
    requires ReadCounts(Get(ViewOfState(s), Counts), order) == Some(s.counts)
    ensures ReadLedger(ViewOfState(s), order) ==
            Some(LedgerPart(s.nextIndex, s.journal, s.counts, s.pending, s.journalVersion, s.receipt))
  {
    LedgerNumbersRead(s);
    JournalFieldReads(s);
    IntFieldsRead(s);
    ReceiptFieldReads(s);
    LedgerAssembles(ViewOfState(s), order,
                    LedgerPart(s.nextIndex, s.journal, s.counts, s.pending, s.journalVersion, s.receipt));
  }

  datatype RestPart = RestPart(
    orbs: int, gems: int, overlay: Option<Json>, shadow: Option<Json>, traps: seq<Json>,
    goalCompleted: bool, goalStatusSent: bool, cleanShutdown: bool)

  function ReadRest(v: View): Option<RestPart> {
    var orbs, gems := AsInt(Get(v, Orbs)), AsInt(Get(v, Gems));
    var overlay, shadow := ReadObject(Get(v, Overlay)), ReadObject(Get(v, Shadow));
    var traps := ReadObjects(Get(v, Traps));
    var completed, sent := AsFlag(Get(v, GoalCompleted)), AsFlag(Get(v, GoalStatusSent));
    var clean := AsFlag(Get(v, CleanShutdown));
    if orbs.None? || gems.None? || overlay.None? || shadow.None? || traps.None?
       || completed.None? || sent.None? || clean.None? then None
    else Some(RestPart(orbs.value, gems.value, overlay.value, shadow.value, traps.value,
                       completed.value, sent.value, clean.value))
  }

  lemma RestFlagsRead(s: PersistentState)
    ensures var v := ViewOfState(s);
            && AsInt(Get(v, Orbs)) == Some(s.orbs) && AsInt(Get(v, Gems)) == Some(s.gems)
            && AsFlag(Get(v, GoalCompleted)) == Some(s.goalCompleted)
            && AsFlag(Get(v, GoalStatusSent)) == Some(s.goalStatusSent)
            && AsFlag(Get(v, CleanShutdown)) == Some(s.cleanShutdown)
  {
    GetPayload(s, Orbs);
    GetPayload(s, Gems);
    GetPayload(s, GoalCompleted);
    GetPayload(s, GoalStatusSent);
    GetPayload(s, CleanShutdown);
  }

  lemma RestObjectsRead(s: PersistentState)
    requires ValidMisc(s)
    ensures var v := ViewOfState(s);
            && ReadObject(Get(v, Overlay)) == Some(s.overlay) && ReadObject(Get(v, Shadow)) == Some(s.shadow)
            && ReadObjects(Get(v, Traps)) == Some(s.traps)
  {
    GetPayload(s, Overlay);
    GetPayload(s, Shadow);
    GetPayload(s, Traps);
  }

  lemma RestReads(s: PersistentState)
    requires ValidMisc(s)
    ensures ReadRest(ViewOfState(s)) ==
            Some(RestPart(s.orbs, s.gems, s.overlay, s.shadow, s.traps, s.goalCompleted, s.goalStatusSent,
                          s.cleanShutdown))
  {
    RestFlagsRead(s);
    RestObjectsRead(s);
  }

  function Decode(v: View, order: seq<string>): Option<PersistentState> {
    var id, revision := AsText(Get(v, InstanceId)), AsInt(Get(v, Revision));
    var saveSlot, saveIdentity := AsInt(Get(v, SaveSlot)), AsText(Get(v, SaveIdentity));
    var contract, binding, ledger, rest := ReadContract(v), ReadBinding(v), ReadLedger(v, order), ReadRest(v);
    var checked, confirmed, outbox := AsInts(Get(v, Checked)), AsInts(Get(v, Confirmed)), AsInts(Get(v, Outbox));
    if id.None? || revision.None? || saveSlot.None? || saveIdentity.None? || contract.None? || binding.None?
       || ledger.None? || rest.None? || checked.None? || confirmed.None? || outbox.None? then None
    else
      var l, r := ledger.value, rest.value;
      Some(PersistentState(
        id.value, revision.value, contract.value, binding.value, saveSlot.value, saveIdentity.value,
        l.nextIndex, l.journal, l.counts, l.pending, l.version, l.receipt,
        checked.value, confirmed.value, outbox.value,
        r.orbs, r.gems, r.overlay, r.shadow, r.traps, r.goalCompleted, r.goalStatusSent, r.cleanShutdown))
  }

  lemma StateAssembles(v: View, order: seq<string>, s: PersistentState)
    requires AsText(Get(v, InstanceId)) == Some(s.instanceId) && AsInt(Get(v, Revision)) == Some(s.revision)
    requires AsInt(Get(v, SaveSlot)) == Some(s.saveSlot) && AsText(Get(v, SaveIdentity)) == Some(s.saveIdentity)
    requires ReadContract(v) == Some(s.contract) && ReadBinding(v) == Some(s.binding)
    requires ReadLedger(v, order) ==
             Some(LedgerPart(s.nextIndex, s.journal, s.counts, s.pending, s.journalVersion, s.receipt))
    requires ReadRest(v) ==
             Some(RestPart(s.orbs, s.gems, s.overlay, s.shadow, s.traps, s.goalCompleted, s.goalStatusSent,
                           s.cleanShutdown))
    requires AsInts(Get(v, Checked)) == Some(s.checked) && AsInts(Get(v, Confirmed)) == Some(s.confirmed)
    requires AsInts(Get(v, Outbox)) == Some(s.outbox)
    ensures Decode(v, order) == Some(s)
  {}

  lemma PlainFieldsRead(s: PersistentState)
    ensures var v := ViewOfState(s);
            && AsText(Get(v, InstanceId)) == Some(s.instanceId) && AsInt(Get(v, Revision)) == Some(s.revision)
            && AsInt(Get(v, SaveSlot)) == Some(s.saveSlot) && AsText(Get(v, SaveIdentity)) == Some(s.saveIdentity)
            && AsInt(Get(v, SchemaVersion)) == Some(s.contract.schema)
  {
    GetPayload(s, InstanceId);
    GetPayload(s, Revision);
    GetPayload(s, SaveSlot);
    GetPayload(s, SaveIdentity);
    GetPayload(s, SchemaVersion);
  }

  lemma PayloadDecodes(s: PersistentState, order: seq<string>)
    requires Valid(s) && ReadsCounts(s, order)
    ensures Decode(ViewOfState(s), order) == Some(s)
  {
    PlainFieldsRead(s);
    IntFieldsRead(s);
    ContractReads(s);
    BindingReads(s);
    CountsAreIncreasing(s);
    CountsFieldReads(s, order);
    LedgerReads(s, order);
    RestReads(s);
    StateAssembles(ViewOfState(s), order, s);
  }

  /** Version first, then the shape, then the values, then validation. */
  ghost function FromPayload(f: Fields, order: seq<string>): Reading<PersistentState> {
    var schema := AsInt(Get(ViewOf(f), SchemaVersion));
    if schema.None? then Corrupt
    else if schema.value != STATE_SCHEMA_VERSION then Foreign
    else if f.Keys != STATE_KEYS then Corrupt
    else
      var s := Decode(ViewOf(f), order);
      if s.None? then Corrupt
      else if Valid(s.value) then Read(s.value) else Refused
  }

  /** Every valid state is read back exactly, whatever order the object's keys come in. */
  lemma PayloadRoundTrip(s: PersistentState, order: seq<string>)
    requires Valid(s) && ReadsCounts(s, order)
    ensures FromPayload(ToPayload(s), order) == Read(s)
  {
    PayloadDecodes(s, order);
    PlainFieldsRead(s);
    PayloadAt(s, SchemaVersion);
    PayloadView(s);
  }

  // ---- the checksummed envelope --------------------------------------------------------------

  const STATE_FORMAT := "jak3-ap-state"
  const CHECKSUM_ALGORITHM := "sha256"

  const ENVELOPE_KEYS := {"format", "checksum_algorithm", "payload_sha256", "payload"}

  /** The canonical printer of JSON values, its parser, and the hash. */
  datatype Codec = Codec(render: Json -> seq<int>, parse: seq<int> -> Option<Json>, hash: seq<int> -> string)

  /** Canonical printing can be undone, prints something, and digests have 64 characters. */
  ghost predicate Faithful(c: Codec) {
    && (forall j :: JsonClean(j) ==> c.render(j) != [] && c.parse(c.render(j)) == Some(j))
    && (forall b :: |c.hash(b)| == 64)
  }

  function Envelope(c: Codec, payload: Fields): Json {
    Obj(map["format" := Text(STATE_FORMAT), "checksum_algorithm" := Text(CHECKSUM_ALGORITHM),
            "payload_sha256" := Text(c.hash(c.render(Obj(payload)))), "payload" := Obj(payload)])
  }

  function SerializeState(c: Codec, s: PersistentState): seq<int> {
    c.render(Envelope(c, ToPayload(s)))
  }

  /** The payload under an envelope that fits and whose checksum is right. */
  ghost function OpenEnvelope(c: Codec, e: Fields): Reading<Fields> {
    if "format" in e && e["format"] != Text(STATE_FORMAT) then Foreign
    else if "checksum_algorithm" in e && e["checksum_algorithm"] != Text(CHECKSUM_ALGORITHM) then Foreign
    else if e.Keys != ENVELOPE_KEYS then Corrupt
    else if !e["payload"].Obj? then Corrupt
    else if !e["payload_sha256"].Text? || |e["payload_sha256"].text| != 64 then Corrupt
    else if !JsonClean(e["payload"]) then Corrupt
    else if e["payload_sha256"].text != c.hash(c.render(e["payload"])) then Corrupt
    else Read(e["payload"].fields)
  }

  ghost function DeserializeState(c: Codec, data: seq<int>, order: seq<string>): Reading<PersistentState> {
    if data == [] then Corrupt
    else
      var envelope := c.parse(data);
      if envelope.None? || !envelope.value.Obj? then Corrupt
      else match OpenEnvelope(c, envelope.value.fields)
        case Read(payload) => FromPayload(payload, order)
        case Foreign => Foreign
        case _ => Corrupt
  }

  lemma CountsAreClean(counts: seq<(int, int)>, key: string)
    requires key in CountFields(counts)
    ensures JsonClean(CountFields(counts)[key])
  {
    if key != Decimal.Print(counts[|counts| - 1].0) {
      CountsAreClean(counts[..|counts| - 1], key);
    }
  }

  lemma FieldIsClean(s: PersistentState, k: Key)
    requires Valid(s)
    ensures JsonClean(FieldPayload(s, k))
  {
    match k
    case Journal => JournalReads(s.journal);
    case Counts =>
      forall key | key in CountFields(s.counts) ensures JsonClean(CountFields(s.counts)[key]) {
        CountsAreClean(s.counts, key);
      }
    case PendingIndices => IntsRead(s.pending);
    case LastReceipt => ReceiptReads(s.receipt);
    case Checked => IntsRead(s.checked);
    case Confirmed => IntsRead(s.confirmed);
    case Outbox => IntsRead(s.outbox);
    case _ =>
  }

  lemma PayloadIsClean(s: PersistentState)
    requires Valid(s)
    ensures JsonClean(Obj(ToPayload(s)))
  {
    var f := ToPayload(s);
    forall name | name in f ensures JsonClean(f[name]) {
      if KeyNamed(name).Some? {
        FieldIsClean(s, KeyNamed(name).value);
      }
    }
  }

  lemma EnvelopeIsClean(c: Codec, payload: Fields)
    requires JsonClean(Obj(payload))
    ensures JsonClean(Envelope(c, payload)) && Envelope(c, payload).fields.Keys == ENVELOPE_KEYS
  {}

  /** The envelope itself is transparent. */
  lemma EnvelopeOpens(c: Codec, payload: Fields)
    requires Faithful(c) && JsonClean(Obj(payload))
    ensures OpenEnvelope(c, Envelope(c, payload).fields) == Read(payload)
  {
    EnvelopeIsClean(c, payload);
  }

  /** Stored bytes are read back to the very state, for any printer that can be undone and any hash. */
  lemma StateRoundTrip(c: Codec, s: PersistentState, order: seq<string>)
    requires Faithful(c) && Valid(s) && ReadsCounts(s, order)
    ensures DeserializeState(c, SerializeState(c, s), order) == Read(s)
  {
    PayloadIsClean(s);
    PayloadRoundTrip(s, order);
    EnvelopeIsClean(c, ToPayload(s));
    EnvelopeOpens(c, ToPayload(s));
  }

  /** A payload altered under an intact envelope is found out, unless the hash collides. */
  lemma AlteredPayloadIsCorrupt(c: Codec, payload: Fields, altered: Fields)
    requires Faithful(c) && JsonClean(Obj(altered))
    requires c.hash(c.render(Obj(altered))) != c.hash(c.render(Obj(payload)))
    ensures OpenEnvelope(c, Envelope(c, payload).fields["payload" := Obj(altered)]) == Corrupt
  {
    assert Envelope(c, payload).fields["payload" := Obj(altered)].Keys == ENVELOPE_KEYS;
  }

  // ---- the payload's members, literally ----------------------------------------------------

  predicate Has(f: Fields, name: string, j: Json) {
    name in f && f[name] == j
  }

  /** How each part of a state is written: the name of its member, and its value. */
  ghost function Written(s: PersistentState, k: Key): (string, Json) {
    match k
    case InstanceId => ("state_instance_id", Text(s.instanceId))
    case Revision => ("state_revision", Num(s.revision))
    case SchemaVersion => ("state_schema_version", Num(s.contract.schema))
    case ProtocolVersion => ("protocol_version", Num(s.contract.protocol))
    case IntegrationVersion => ("game_integration_version", Num(s.contract.integration))
    case SlotDataVersion => ("slot_data_version", Num(s.contract.slotData))
    case ItemHash => ("item_table_hash", Text(s.contract.itemHash))
    case LocationHash => ("location_table_hash", Text(s.contract.locationHash))
    case MissionHash => ("mission_table_hash", Text(s.contract.missionHash))
    case OptionsHash => ("resolved_options_hash", Text(s.contract.optionsHash))
    case DesignVersion => ("design_version", Text(s.contract.design))
    case Seed => ("seed_identifier", if s.binding.None? then Null else Text(s.binding.value.seed))
    case Team => ("team", if s.binding.None? then Null else Num(s.binding.value.team))
    case SlotNumber => ("slot", if s.binding.None? then Null else Num(s.binding.value.number))
    case SlotName => ("slot_name", if s.binding.None? then Null else Text(s.binding.value.name))
    case SaveSlot => ("native_save_slot", Num(s.saveSlot))
    case SaveIdentity => ("native_save_identity", Text(s.saveIdentity))
    case NextIndex => ("next_received_item_index", Num(s.nextIndex))
    case Journal => ("received_item_journal", JournalPayload(s.journal))
    case Counts => ("received_item_counts", CountsPayload(s.counts))
    case PendingIndices => ("pending_item_application_indices", Ints(s.pending))
    case JournalVersion => ("game_application_journal_version", Num(s.journalVersion))
    case LastReceipt => ("last_observed_game_command_receipt", ReceiptPayload(s.receipt))
    case Checked => ("checked_location_bits", Ints(s.checked))
    case Confirmed => ("server_confirmed_location_bits", Ints(s.confirmed))
    case Outbox => ("pending_location_outbox", Ints(s.outbox))
    case Orbs => ("local_earned_precursor_orbs", Num(s.orbs))
    case Gems => ("local_earned_skull_gems", Num(s.gems))
    case Overlay => ("active_bootstrap_overlay", ObjectPayload(s.overlay))
    case Shadow => ("active_shadow_story_state", ObjectPayload(s.shadow))
    case Traps => ("pending_traps", Arr(s.traps))
    case GoalCompleted => ("goal_completed", Bool(s.goalCompleted))
    case GoalStatusSent => ("goal_status_sent", Bool(s.goalStatusSent))
    case CleanShutdown => ("last_clean_shutdown", Bool(s.cleanShutdown))
  }

  lemma WrittenName(s: PersistentState, k: Key)
    ensures Written(s, k).0 == KeyName(k)
  {
    match k
    case Revision =>
    case SchemaVersion =>
    case ProtocolVersion =>
    case Seed =>
    case SaveSlot =>
    case NextIndex =>
    case Journal =>
    case Checked =>
    case Confirmed =>
    case Outbox =>
    case GoalCompleted =>
    case CleanShutdown =>
    case _ =>
  }

  lemma WrittenValue(s: PersistentState, k: Key)
    ensures Written(s, k).1 == FieldPayload(s, k)
  {
    match k
    case Seed =>
    case Team =>
    case SlotNumber =>
    case SlotName =>
    case Journal =>
    case Counts =>
    case LastReceipt =>
    case Overlay =>
    case Shadow =>
    case _ =>
  }

  /** The payload writes every part of the state so. */
  lemma MembersExactly(s: PersistentState, k: Key)
    ensures Has(ToPayload(s), Written(s, k).0, Written(s, k).1)
  {
    WrittenName(s, k);
    WrittenValue(s, k);
    PayloadAt(s, k);
  }

  /** A journal entry is an object of six members; its state is a word. */
  lemma EntryMembers(e: JournalEntry)
    ensures var j := EntryPayload(e);
            && j.Obj? && Has(j.fields, "index", Num(e.index)) && Has(j.fields, "item_id", Num(e.itemId))
            && Has(j.fields, "location_id", Num(e.locationId)) && Has(j.fields, "source_player", Num(e.sourcePlayer))
            && Has(j.fields, "flags", Num(e.flags))
            && Has(j.fields, "state", Text(if e.state.Received? then "received"
                                           else if e.state.Pending? then "pending" else "applied"))
  {}

  /** What is read has every member and no other, the supported schema, and passes validation. */
  lemma ReadIsValid(f: Fields, order: seq<string>)
    ensures FromPayload(f, order).Read? ==>
              && Valid(FromPayload(f, order).value)
              && Has(f, "state_schema_version", Num(1)) && f.Keys == STATE_KEYS
    ensures FromPayload(f, order).Foreign? <==>
              && "state_schema_version" in f && f["state_schema_version"].Num?
              && f["state_schema_version"].number != 1
  {
    assert Member(SchemaVersion) && KeyName(SchemaVersion) == "state_schema_version";
  }

  /** An envelope is opened only with its own format, the named algorithm and the payload's checksum. */
  lemma OpenedIsChecked(c: Codec, e: Fields)
    ensures OpenEnvelope(c, e).Read? ==>
              && Has(e, "format", Text("jak3-ap-state")) && Has(e, "checksum_algorithm", Text("sha256"))
              && "payload" in e && e["payload"] == Obj(OpenEnvelope(c, e).value)
              && Has(e, "payload_sha256", Text(c.hash(c.render(e["payload"]))))
              && e.Keys == {"format", "checksum_algorithm", "payload_sha256", "payload"}
  {}
}
