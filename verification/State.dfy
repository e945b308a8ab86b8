/** The durable client state and the validity contract every stored state meets. */
module State {
  import opened Registry
  import opened Sorting

  datatype Option<+T> = None | Some(value: T)

  /** Normalised JSON containers; `Real` stands for a floating-point literal. */
  datatype Json =
    | Null
    | Bool(flag: bool)
    | Num(number: int)
    | Real
    | Text(text: string)
    | Arr(items: seq<Json>)
    | Obj(fields: map<string, Json>)

  /** No floating-point value occurs anywhere. */
  ghost predicate JsonClean(j: Json) {
    match j
    case Real => false
    case Arr(items) => forall i :: 0 <= i < |items| ==> JsonClean(items[i])
    case Obj(fields) => forall k :: k in fields ==> JsonClean(fields[k])
    case _ => true
  }

  /** An authenticated slot, reduced to the four fields a state binds to. */
  datatype Slot = Slot(seed: string, team: int, number: int, name: string)

  datatype NativeSave = NativeSave(slot: int, identity: string, unprogressed: bool)

  datatype EntryState = Received | Pending | Applied

  datatype JournalEntry = JournalEntry(
    index: int, itemId: int, locationId: int, sourcePlayer: int, flags: int, state: EntryState)

  datatype Receipt = Receipt(commandId: string, kind: string, result: string)

  /** Versions and table hashes, which must equal the compiled-in contract. */
  datatype Contract = Contract(
    schema: int, protocol: int, integration: int, slotData: int,
    itemHash: string, locationHash: string, missionHash: string, optionsHash: string, design: string)

  const STATE_SCHEMA_VERSION := 1
  const JOURNAL_VERSION := 1
  const SAVE_SLOT_COUNT := 4
  const SUPPORTED := Contract(STATE_SCHEMA_VERSION, 3, 2, 2, "items", "locations", "missions", "options", "0.3")

  datatype PersistentState = PersistentState(
    instanceId: string,
    revision: int,
    contract: Contract,
    binding: Option<Slot>,
    saveSlot: int,
    saveIdentity: string,
    nextIndex: int,
    journal: seq<JournalEntry>,
    counts: seq<(int, int)>,
    pending: seq<int>,
    journalVersion: int,
    receipt: Option<Receipt>,
    checked: seq<int>,
    confirmed: seq<int>,
    outbox: seq<int>,
    orbs: int,
    gems: int,
    overlay: Option<Json>,
    shadow: Option<Json>,
    traps: seq<Json>,
    goalCompleted: bool,
    goalStatusSent: bool,
    cleanShutdown: bool)

  // ---- text fields ------------------------------------------------------

  predicate IdentityText(s: string, maximum: nat) {
    1 <= |s| <= maximum && forall i :: 0 <= i < |s| ==> s[i] as int >= 32 && s[i] as int != 127
  }

  predicate IsLowerHex(c: char) {
    '0' <= c <= '9' || 'a' <= c <= 'f'
  }

  /** Canonical UUID text. */
  predicate IsUuid(s: string) {
    |s| == 36 && forall i :: 0 <= i < 36 ==>
      if i == 8 || i == 13 || i == 18 || i == 23 then s[i] == '-' else IsLowerHex(s[i])
  }

  predicate ValidSlot(s: Slot) {
    IdentityText(s.seed, 128) && s.team >= 0 && s.number >= 0 && IdentityText(s.name, 128)
  }

  // ---- the received-item ledger ------------------------------------------

  function ItemIds(journal: seq<JournalEntry>): (ids: seq<int>)
    ensures |ids| == |journal|
    ensures forall i :: 0 <= i < |journal| ==> ids[i] == journal[i].itemId
  {
    if journal == [] then [] else ItemIds(journal[..|journal| - 1]) + [journal[|journal| - 1].itemId]
  }

  /** Received items by identifier: increasing identifiers, each with its multiplicity. */
  function CountsOf(ids: seq<int>): (c: seq<(int, int)>)
  {
    var keys := Sorted(Elements(ids));
    seq(|keys|, i requires 0 <= i < |keys| => (keys[i], multiset(ids)[keys[i]]))
  }

  function PendingOf(journal: seq<JournalEntry>): (p: seq<int>)
  {
    if journal == [] then []
    else
      var last := journal[|journal| - 1];
      PendingOf(journal[..|journal| - 1]) + (if last.state.Pending? then [last.index] else [])
  }

  predicate ValidEntry(e: JournalEntry, index: int) {
    && e.index == index
    && IsItem(e.itemId)
    && -NETWORK_ID_LIMIT <= e.locationId <= NETWORK_ID_LIMIT
    && e.sourcePlayer >= 0
    && e.flags >= 0
  }

  predicate ValidJournal(journal: seq<JournalEntry>) {
    forall i :: 0 <= i < |journal| ==> ValidEntry(journal[i], i)
  }

  ghost predicate ValidLedger(s: PersistentState) {
    && s.nextIndex == |s.journal|
    && ValidJournal(s.journal)
    && s.counts == CountsOf(ItemIds(s.journal))
    && s.pending == PendingOf(s.journal)
    && s.journalVersion == JOURNAL_VERSION
    && (s.receipt.Some? ==>
          && IdentityText(s.receipt.value.commandId, 128)
          && IdentityText(s.receipt.value.kind, 64)
          && IdentityText(s.receipt.value.result, 64))
  }

  // ---- locations -----------------------------------------------------------

  ghost predicate LocationTuple(s: seq<int>) {
    StrictlyIncreasing(s) && forall i :: 0 <= i < |s| ==> IsLocation(s[i])
  }

  /** Checked locations are exactly partitioned into confirmed ones and the outbox. */
  ghost predicate ValidLocations(s: PersistentState) {
    && LocationTuple(s.checked) && LocationTuple(s.confirmed) && LocationTuple(s.outbox)
    && Elements(s.confirmed) <= Elements(s.checked)
    && Elements(s.outbox) == Elements(s.checked) - Elements(s.confirmed)
  }

  ghost predicate ValidIdentity(s: PersistentState) {
    && s.contract == SUPPORTED
    && IsUuid(s.instanceId)
    && s.revision >= 0
    && 0 <= s.saveSlot < SAVE_SLOT_COUNT
    && IdentityText(s.saveIdentity, 256)
    && (s.binding.Some? ==> ValidSlot(s.binding.value))
  }

  ghost predicate ValidJsonObject(j: Json) {
    j.Obj? && JsonClean(j)
  }

  ghost predicate ValidMisc(s: PersistentState) {
    && s.orbs >= 0 && s.gems >= 0
    && (s.overlay.Some? ==> ValidJsonObject(s.overlay.value))
    && (s.shadow.Some? ==> ValidJsonObject(s.shadow.value))
    && (forall i :: 0 <= i < |s.traps| ==> ValidJsonObject(s.traps[i]))
    && (s.goalStatusSent ==> s.goalCompleted)
  }

  /** The contract enforced on construction, on commit and on load. */
  ghost predicate Valid(s: PersistentState) {
    ValidIdentity(s) && ValidLedger(s) && ValidLocations(s) && ValidMisc(s)
  }

  /** Whether a valid state may be served for this save and authenticated slot. */
  predicate Admits(s: PersistentState, save: NativeSave, slot: Slot) {
    && s.saveIdentity == save.identity
    && s.saveSlot == save.slot
    && (s.binding.Some? ==> s.binding.value == slot)
  }

  predicate ValidSave(save: NativeSave) {
    0 <= save.slot < SAVE_SLOT_COUNT && IdentityText(save.identity, 256)
  }

  /** A fresh, unbound state for a verified unprogressed save. */
  function CreateUnbound(save: NativeSave, instanceId: string): (s: PersistentState)
    requires ValidSave(save) && IsUuid(instanceId)
    ensures Valid(s) && s.binding.None? && s.revision == 0
    ensures s.instanceId == instanceId && s.saveSlot == save.slot && s.saveIdentity == save.identity
    ensures s.journal == [] && s.checked == [] && s.receipt.None? && !s.goalCompleted && s.cleanShutdown
  {
    PersistentState(
      instanceId, 0, SUPPORTED, None, save.slot, save.identity,
      0, [], [], [], JOURNAL_VERSION, None,
      [], [], [], 0, 0, None, None, [], false, false, true)
  }
}
