/** The writer: leases, commits, recovery, quarantine and write-once authorisation. */
module Repository {
  import opened State
  import opened Disk
  import opened History

  datatype Failure =
    | BindingMismatch
    | CompatibilityMismatch
    | Corruption
    | Ineligible
    | WriterLocked
    | StaleRevision
    | SessionClosed
    | IoFailure

  datatype Result<+T> = Ok(value: T) | Err(failure: Failure)

  datatype Loaded = Missing | Damaged | Foreign | Found(state: PersistentState)

  function Load(files: Files, name: FileName): Loaded {
    if name !in files then Missing
    else match files[name]
      case Undecodable => Damaged
      case Decoded(s) => Found(s)
      case _ => Foreign
  }

  /** Why a first binding of this save identity to this slot is refused, if it is. */
  function AuthorisationFailure(files: Files, identity: string, slot: Slot): Option<Failure> {
    if !IsUuid(identity) then Some(Corruption)
    else if Authorization !in files then Some(BindingMismatch)
    else match files[Authorization]
      case Undecodable => Some(Corruption)
      case Granted(i, s) => if i == identity && s == slot then None else Some(BindingMismatch)
      case _ => Some(CompatibilityMismatch)
  }

  /** What opening a directory amounts to, before any file is touched. */
  datatype Plan =
    | Refuse(failure: Failure)
    | Quarantine(primary: bool, backup: bool)
    | Serve(state: PersistentState)
    | Rebuild(state: PersistentState, replacing: bool)
    | Start

  /** Provenance first, then agreement with the save and the slot. */
  function Judge(files: Files, save: NativeSave, slot: Slot, s: PersistentState, plan: Plan): Plan {
    var refusal := if s.binding.None? then AuthorisationFailure(files, save.identity, slot) else None;
    if refusal.Some? then Refuse(refusal.value)
    else if !Admits(s, save, slot) then Refuse(BindingMismatch)
    else plan
  }

  ghost function Decide(files: Files, save: NativeSave, slot: Slot): Plan {
    match Load(files, Primary)
    case Found(p) => Judge(files, save, slot, p, Serve(p))
    case Foreign => Refuse(CompatibilityMismatch)
    case Damaged =>
      (match Load(files, Backup)
       case Missing => Quarantine(true, false)
       case Foreign => Refuse(CompatibilityMismatch)
       case Damaged => Quarantine(true, true)
       case Found(b) => Judge(files, save, slot, b, Rebuild(b, true)))
    case Missing =>
      (match Load(files, Backup)
       case Found(b) => Judge(files, save, slot, b, Rebuild(b, false))
       case Foreign => Refuse(CompatibilityMismatch)
       case Damaged => Quarantine(false, true)
       case Missing =>
         var refusal := AuthorisationFailure(files, save.identity, slot);
         if refusal.Some? then Refuse(refusal.value)
         else if exists n :: n in files && IsQuarantineCandidate(n) then Refuse(Corruption)
         else if !save.unprogressed then Refuse(Ineligible)
         else Start)
  }

  function AtRevision(s: PersistentState, revision: int): (r: PersistentState)
    ensures r.revision == revision && r.(revision := s.revision) == s
  {
    s.(revision := revision)
  }

  /** Bound to the slot and marked in use. */
  function Marked(s: PersistentState, slot: Slot): PersistentState {
    s.(binding := if s.binding.None? then Some(slot) else s.binding, cleanShutdown := false)
  }

  /** A served state: marked, and one revision on if that changed anything. */
  function Opened(s: PersistentState, slot: Slot): PersistentState {
    if s.binding.None? || s.cleanShutdown then AtRevision(Marked(s, slot), s.revision + 1) else s
  }

  /** Opening binds an unbound state and marks it in use, one revision on if that changed it, and nothing else. */
  lemma OpenedExactly(s: PersistentState, slot: Slot)
    ensures var t := Opened(s, slot);
            && t.binding == (if s.binding.None? then Some(slot) else s.binding) && !t.cleanShutdown
            && t.revision == s.revision + (if s.binding.None? || s.cleanShutdown then 1 else 0)
            && t.(binding := s.binding, cleanShutdown := s.cleanShutdown, revision := s.revision) == s
  {}

  predicate Serves(s: PersistentState, save: NativeSave, slot: Slot) {
    Admits(s, save, slot) && s.binding == Some(slot)
  }

  lemma MarkedIsValid(s: PersistentState, slot: Slot)
    requires Valid(s) && ValidSlot(slot)
    ensures Valid(Marked(s, slot))
  {}

  /** The state the plan starts from. */
  function Source(plan: Plan, save: NativeSave, freshId: string): PersistentState
    requires plan.Serve? || plan.Rebuild? || plan.Start?
    requires ValidSave(save) && IsUuid(freshId)
  {
    match plan
    case Serve(s) => s
    case Rebuild(s, _) => s
    case Start => CreateUnbound(save, freshId)
  }

  ghost predicate SameAt(a: Files, b: Files, n: FileName) {
    (n in a <==> n in b) && (n in a ==> a[n] == b[n])
  }

  ghost predicate SameCore(a: Files, b: Files) {
    SameAt(a, b, Primary) && SameAt(a, b, Backup) && SameAt(a, b, Authorization)
  }

  predicate IsCore(n: FileName) {
    n.Primary? || n.Backup? || n.Authorization?
  }

  /** Every file that was there, apart from the primary, the backup and the authorisation, still is. */
  ghost predicate KeepsOthers(before: Files, after: Files) {
    forall n :: n in before && !IsCore(n) ==> n in after && after[n] == before[n]
  }

  lemma KeepsOthersTwice(a: Files, b: Files, c: Files)
    requires KeepsOthers(a, b) && KeepsOthers(b, c)
    ensures KeepsOthers(a, c)
  {}

  function QuarantineName(name: FileName, n: nat): FileName {
    if name.Primary? then CorruptPrimary(n) else CorruptBackup(n)
  }

  /** A new quarantine name holds what was under this name. */
  ghost predicate SetAside(before: Files, after: Files, name: FileName) {
    name in before &&
    exists n :: QuarantineName(name, n) !in before && Carries(after, QuarantineName(name, n), before[name])
  }

  ghost predicate Carries(files: Files, name: FileName, content: Content) {
    name in files && files[name] == content
  }

  /** Like KeepsOthers, with leftover temporaries free to move. */
  ghost predicate KeepsRest(before: Files, after: Files) {
    forall n :: n in before && !IsCore(n) && !n.Temp? ==> Carries(after, n, before[n])
  }

  lemma SetAsideLater(before: Files, middle: Files, after: Files, name: FileName)
    requires SetAside(before, middle, name) && KeepsRest(middle, after)
    ensures SetAside(before, after, name)
  {
    var n :| QuarantineName(name, n) !in before && Carries(middle, QuarantineName(name, n), before[name]);
    assert Carries(after, QuarantineName(name, n), before[name]);
  }

  /** The flagged files, and only they, were moved aside. */
  ghost predicate QuarantinedAs(before: Files, after: Files, primary: bool, backup: bool) {
    && (if primary then Primary !in after && SetAside(before, after, Primary) else SameAt(before, after, Primary))
    && (if backup then Backup !in after && SetAside(before, after, Backup) else SameAt(before, after, Backup))
  }

  ghost predicate NoTemporaries(files: Files) {
    forall n :: n in files ==> !n.Temp?
  }

  /** Every leftover temporary now sits, unchanged, under an interrupted name of its own. */
  ghost predicate MovedAside(before: Files, after: Files, moved: map<FileName, nat>) {
    && (forall t :: t in before && t.Temp? ==>
          t in moved && Interrupted(moved[t]) !in before && Carries(after, Interrupted(moved[t]), before[t]))
    && (forall t, u :: t in moved && u in moved && moved[t] == moved[u] ==> t == u)
  }

  lemma MovedAsideEarlier(earlier: Files, before: Files, after: Files, moved: map<FileName, nat>)
    requires KeepsOthers(earlier, before) && MovedAside(before, after, moved)
    ensures MovedAside(earlier, after, moved)
  {
    forall t | t in earlier && t.Temp?
      ensures t in moved && Interrupted(moved[t]) !in earlier && Carries(after, Interrupted(moved[t]), earlier[t])
    {
      assert t in before && before[t] == earlier[t];
    }
  }

  /** What opening preserves beside the state it serves. */
  ghost predicate Preserves(plan: Plan, before: Files, after: Files, r: Result<PersistentState>) {
    && (plan.Quarantine? && r == Err(Corruption) ==> QuarantinedAs(before, after, plan.primary, plan.backup))
    && (plan.Rebuild? && plan.replacing && r.Ok? ==> SetAside(before, after, Primary))
  }

  /** A successful open leaves no temporary behind and has lost none. */
  ghost predicate Tidied(before: Files, after: Files) {
    NoTemporaries(after) && exists moved :: MovedAside(before, after, moved)
  }

  lemma TidiedEarlier(earlier: Files, before: Files, after: Files)
    requires KeepsOthers(earlier, before) && Tidied(before, after)
    ensures Tidied(earlier, after)
  {
    var moved :| MovedAside(before, after, moved);
    MovedAsideEarlier(earlier, before, after, moved);
  }

  lemma PreservedLater(plan: Plan, before: Files, middle: Files, after: Files, s: PersistentState,
                       r: Result<PersistentState>)
    requires Preserves(plan, before, middle, Ok(s)) && KeepsRest(middle, after) && !plan.Quarantine?
    ensures Preserves(plan, before, after, r)
  {
    if plan.Rebuild? && plan.replacing {
      SetAsideLater(before, middle, after, Primary);
    }
  }

  ghost predicate Writable(name: FileName, content: Content) {
    (content.Decoded? ==> Valid(content.state)) && (content.Granted? <==> name.AuthorizationTemp?)
  }

  ghost predicate AllStatesValid(files: Files) {
    forall n :: HoldsState(files, n) ==> Valid(files[n].state)
  }

  lemma {:induction false} StoredStatesAreValid(ops: seq<Op>)
    requires LegalLog(ops)
    ensures AllStatesValid(Replay(ops))
  {
    if ops != [] {
      StoredStatesAreValid(ops[..|ops| - 1]);
    }
  }

  /** How loading may end under a plan; `started` is the fresh state where one may be created. */
  ghost predicate LoadMeets(plan: Plan, started: Option<PersistentState>, before: Files, after: Files,
                            r: Result<PersistentState>) {
    match plan
    case Refuse(f) => r == Err(f) && after == before
    case Quarantine(_, _) => (r == Err(Corruption) || r == Err(IoFailure)) && Recover(after).None?
    case Serve(s) => r == Ok(s) && after == before
    case Rebuild(s, _) => (r == Ok(s) || r == Err(IoFailure)) && Recover(after) == Some(s)
    case Start =>
      && started.Some? && (r == Ok(started.value) || r == Err(IoFailure))
      && (Recover(after) == None || Recover(after) == started)
  }

  /** How opening may end under a plan. */
  ghost predicate OpenMeets(plan: Plan, save: NativeSave, slot: Slot, freshId: string, r: Result<PersistentState>)
    requires ValidSave(save) && IsUuid(freshId)
  {
    match plan
    case Refuse(f) => r == Err(f)
    case Quarantine(_, _) => (r == Err(Corruption) || r == Err(IoFailure))
    case _ => r == Ok(Opened(Source(plan, save, freshId), slot)) || r == Err(IoFailure)
  }

  /** A plan that serves an unbound state has checked its provenance already. */
  lemma ServedIsGranted(before: Files, after: Files, save: NativeSave, slot: Slot, freshId: string)
    requires ValidSave(save) && IsUuid(freshId) && SameAt(before, after, Authorization)
    requires var plan := Decide(before, save, slot);
             (plan.Serve? || plan.Rebuild? || plan.Start?) && Source(plan, save, freshId).binding.None?
    ensures AuthorisationFailure(after, save.identity, slot).None?
  {}

  /** Whatever the directory went through, only the slot the identity was authorised for is served. */
  lemma OnlyAuthorisedSlotServed(log: seq<Op>, save: NativeSave, slot: Slot)
    requires LegalLog(log)
    requires var plan := Decide(Replay(log), save, slot); plan.Serve? || plan.Rebuild? || plan.Start?
    ensures AuthorisedSlot(log) == Some(slot)
  {
    LogIsRun(log);
    BindingAgreement(StatesOf(log), log, |log|);
  }

  /**
    What an open serves or rebuilds is what the files recover to, the end of the
    chain of commits; it starts afresh or refuses where they recover to nothing.
  */
  lemma PlannedIsRecovered(log: seq<Op>, save: NativeSave, slot: Slot)
    requires LegalLog(log)
    ensures var plan, files := Decide(Replay(log), save, slot), Replay(log);
            && (plan.Serve? || plan.Rebuild? ==> Recover(files) == Some(plan.state))
            && (plan.Start? || plan.Quarantine? ==> Recover(files).None?)
    ensures Run(StatesOf(log), log)
    ensures var plan, chain := Decide(Replay(log), save, slot), Chain(StatesOf(log), log, |log|);
            plan.Serve? || plan.Rebuild? ==> chain != [] && chain[|chain| - 1] == plan.state
  {
    LogIsRun(log);
    CommitsFormOneChain(StatesOf(log), log, |log|);
    RecoveredAsPlanned(Replay(log), save, slot);
  }

  lemma RecoveredAsPlanned(files: Files, save: NativeSave, slot: Slot)
    ensures var plan := Decide(files, save, slot);
            && (plan.Serve? || plan.Rebuild? ==> Recover(files) == Some(plan.state))
            && (plan.Start? || plan.Quarantine? ==> Recover(files).None?)
  {}

  /**
    An open creates a state exactly where no older state can be left: a leftover
    temporary alone makes it refuse.
  */
  lemma StartsExactly(files: Files, save: NativeSave, slot: Slot)
    ensures Decide(files, save, slot).Start? <==>
              Blank(files) && AuthorisationFailure(files, save.identity, slot).None? && save.unprogressed
  {
    assert forall n :: n in files && IsQuarantineCandidate(n) ==> n.Temp? || IsArtifact(n);
  }

  /** After a loss of the primary that is where nothing backed it and no write was interrupted. */
  lemma LossStartsExactly(files: Files, save: NativeSave, slot: Slot)
    ensures Decide(files - {Primary}, save, slot).Start? <==>
              && !Backed(files) && (forall n :: n in files ==> !n.Temp?)
              && AuthorisationFailure(files, save.identity, slot).None? && save.unprogressed
  {
    var after := files - {Primary};
    StartsExactly(after, save, slot);
    assert forall n :: IsArtifact(n) || n.Temp? ==> (n in files <==> n in after);
  }

  // ---- when an open serves, rebuilds, starts, moves aside, or refuses ---------------------

  ghost predicate GrantHolds(files: Files, identity: string, slot: Slot) {
    IsUuid(identity) && Authorization in files && files[Authorization] == Granted(identity, slot)
  }

  /** The state belongs to this save, and to this slot by its binding or by the grant. */
  ghost predicate Entitled(files: Files, save: NativeSave, slot: Slot, s: PersistentState) {
    && s.saveIdentity == save.identity && s.saveSlot == save.slot
    && (s.binding == Some(slot) || (s.binding.None? && GrantHolds(files, save.identity, slot)))
  }

  /** Nothing to read under this name, or nothing that decodes. */
  ghost predicate Unreadable(files: Files, name: FileName) {
    name in files ==> files[name] == Undecodable
  }

  ghost predicate HoldsForeign(files: Files, name: FileName) {
    name in files && (files[name].Incompatible? || files[name].Granted?)
  }

  lemma AuthorisedExactly(files: Files, identity: string, slot: Slot)
    ensures var failure := AuthorisationFailure(files, identity, slot);
            && (failure.None? <==> GrantHolds(files, identity, slot))
            && (failure == Some(Corruption) <==>
                  !IsUuid(identity) || (Authorization in files && files[Authorization] == Undecodable))
            && (failure == Some(CompatibilityMismatch) <==>
                  && IsUuid(identity) && Authorization in files
                  && (files[Authorization].Incompatible? || files[Authorization].Decoded?))
            && (failure == Some(BindingMismatch) <==>
                  && IsUuid(identity)
                  && (Authorization in files ==>
                        files[Authorization].Granted? && files[Authorization] != Granted(identity, slot)))
  {}

  /** A primary that decodes and is entitled is served, and nothing else is. */
  lemma ServesExactly(files: Files, save: NativeSave, slot: Slot, s: PersistentState)
    ensures Decide(files, save, slot) == Serve(s) <==> Holds(files, Primary, s) && Entitled(files, save, slot, s)
  {
    AuthorisedExactly(files, save.identity, slot);
  }

  /** Behind a missing or undecodable primary an entitled backup is rebuilt, and nothing else is. */
  lemma RebuildsExactly(files: Files, save: NativeSave, slot: Slot, s: PersistentState, replacing: bool)
    ensures Decide(files, save, slot) == Rebuild(s, replacing) <==>
              && Unreadable(files, Primary) && replacing == (Primary in files)
              && Holds(files, Backup, s) && Entitled(files, save, slot, s)
  {
    AuthorisedExactly(files, save.identity, slot);
  }

  /** Damaged files are moved aside exactly where neither of the two decodes and one is there. */
  lemma QuarantinesExactly(files: Files, save: NativeSave, slot: Slot, primary: bool, backup: bool)
    ensures Decide(files, save, slot) == Quarantine(primary, backup) <==>
              && Unreadable(files, Primary) && Unreadable(files, Backup)
              && primary == (Primary in files) && backup == (Backup in files) && (primary || backup)
  {}

  /** The state an open would serve, entitled or not. */
  ghost predicate Candidate(files: Files, s: PersistentState) {
    Holds(files, Primary, s) || (Unreadable(files, Primary) && Holds(files, Backup, s))
  }

  /** What an open refuses, and with which failure. */
  ghost predicate RefusalCause(files: Files, save: NativeSave, slot: Slot, failure: Failure) {
    var denied := AuthorisationFailure(files, save.identity, slot);
    if HoldsForeign(files, Primary) || (Unreadable(files, Primary) && HoldsForeign(files, Backup)) then
      failure == CompatibilityMismatch
    else if Primary !in files && Backup !in files then
      if denied.Some? then denied == Some(failure)
      else if exists n :: n in files && IsQuarantineCandidate(n) then failure == Corruption
      else !save.unprogressed && failure == Ineligible
    else
      exists s :: Candidate(files, s) && RefusesCandidate(save, slot, s, denied, failure)
  }

  /** An unbound candidate without a grant is refused for that; any other one if it is not this save's and slot's. */
  ghost predicate RefusesCandidate(save: NativeSave, slot: Slot, s: PersistentState, denied: Option<Failure>,
                                   failure: Failure) {
    if s.binding.None? && denied.Some? then denied == Some(failure)
    else
      && failure == BindingMismatch
      && (s.saveIdentity != save.identity || s.saveSlot != save.slot || (s.binding.Some? && s.binding != Some(slot)))
  }

  lemma RefusesExactly(files: Files, save: NativeSave, slot: Slot, failure: Failure)
    ensures Decide(files, save, slot) == Refuse(failure) <==> RefusalCause(files, save, slot, failure)
  {
    if HoldsState(files, Primary) {
      assert Candidate(files, files[Primary].state);
    } else if Unreadable(files, Primary) && HoldsState(files, Backup) {
      assert Candidate(files, files[Backup].state);
    }
  }

  /** What a crash while opening may leave: the old state, the loaded one, or the opened one. */
  ghost function OpenStates(plan: Plan, before: Option<PersistentState>, save: NativeSave, slot: Slot, freshId: string)
    : set<Option<PersistentState>>
    requires ValidSave(save) && IsUuid(freshId)
  {
    match plan
    case Refuse(_) => {before}
    case Quarantine(_, _) => {before}
    case _ => var s := Source(plan, save, freshId); {before, Some(s), Some(Opened(s, slot))}
  }

  /** What loading may leave, finished or not, is among them. */
  lemma LoadedAllowed(before: Files, after: Files, save: NativeSave, slot: Slot, freshId: string,
                      r: Result<PersistentState>)
    requires ValidSave(save) && IsUuid(freshId)
    requires LoadMeets(Decide(before, save, slot), Some(CreateUnbound(save, freshId)), before, after, r)
    ensures Recover(after) in OpenStates(Decide(before, save, slot), Recover(before), save, slot, freshId)
  {}

  /** Whether opening could lead to a first binding. */
  predicate GrantNeeded(files: Files) {
    match Load(files, Primary)
    case Found(p) => p.binding.None?
    case Foreign => false
    case primary =>
      match Load(files, Backup)
      case Found(b) => b.binding.None?
      case backup => primary.Missing? && backup.Missing?
  }

  lemma GrantNeededExactly(files: Files)
    ensures GrantNeeded(files) <==>
              (exists s :: Candidate(files, s) && s.binding.None?) || (Primary !in files && Backup !in files)
  {
    if HoldsState(files, Primary) {
      assert Candidate(files, files[Primary].state);
    } else if Unreadable(files, Primary) && HoldsState(files, Backup) {
      assert Candidate(files, files[Backup].state);
    }
  }

  function CommitRefusal(files: Files, state: PersistentState, expected: int): Option<Failure> {
    if state.revision != expected then Some(StaleRevision)
    else match Load(files, Primary)
      case Missing => Some(StaleRevision)
      case Damaged => Some(Corruption)
      case Foreign => Some(CompatibilityMismatch)
      case Found(current) =>
        if current.instanceId != state.instanceId || current.revision != expected then Some(StaleRevision) else None
  }

  /** What a commit answers to the primary it meets: a current one takes the successor unless an operation raises. */
  ghost predicate PrimaryAnswers(files: Files, next: PersistentState, expected: int, r: Result<PersistentState>,
                                 raised: bool) {
    if next.revision != expected || Primary !in files then r == Err(StaleRevision)
    else match files[Primary]
      case Undecodable => r == Err(Corruption)
      case Decoded(current) =>
        if current.instanceId != next.instanceId || current.revision != expected then r == Err(StaleRevision)
        else if raised then r == Err(IoFailure)
        else r == Ok(next.(revision := expected + 1))
      case _ => r == Err(CompatibilityMismatch)
  }

  /** What a session answers: its own refusals come first. */
  ghost predicate SessionAnswers(closed: bool, state: PersistentState, save: NativeSave, files: Files,
                                 next: PersistentState, r: Result<PersistentState>, raised: bool) {
    if closed then r == Err(SessionClosed)
    else if next.instanceId != state.instanceId then r == Err(StaleRevision)
    else if next.binding != state.binding || next.saveIdentity != save.identity || next.saveSlot != save.slot then
      r == Err(BindingMismatch)
    else PrimaryAnswers(files, next, state.revision, r, raised)
  }

  lemma WriteEffect(files: Files, name: FileName, content: Content)
    ensures Effect(Effect(files, Create(name)), Write(name, content)) == files[name := content]
  {}

  lemma ReplaceEffect(files: Files, temporary: FileName, target: FileName, content: Content)
    requires temporary !in files && temporary != target
    ensures var replaced := Effect(files[temporary := content], Rename(temporary, target));
            replaced == files[target := content] == Effect(replaced, Unlink(temporary))
  {
    var written := files[temporary := content];
    assert written - {temporary} == files;
  }

  lemma UnlinkScratch(files: Files, name: FileName)
    requires IsScratch(name)
    ensures SameCore(Effect(files, Unlink(name)), files)
  {}

  lemma RenamedAside(files: Files, name: FileName, n: nat)
    requires name in files && (name.Primary? || name.Backup?) && QuarantineName(name, n) !in files
    ensures var after := Effect(files, Rename(name, QuarantineName(name, n)));
            && name !in after && SameAt(after, files, Authorization) && SetAside(files, after, name)
            && KeepsOthers(files, after)
            && (name.Primary? ==> SameAt(after, files, Backup)) && (name.Backup? ==> SameAt(after, files, Primary))
  {
    var after := Effect(files, Rename(name, QuarantineName(name, n)));
    assert Carries(after, QuarantineName(name, n), files[name]);
  }

  lemma ScratchShows(files: Files, name: FileName, content: Content)
    requires IsScratch(name) && name !in files
    ensures SameCore(files[name := content], files) && KeepsOthers(files, files[name := content])
  {}

  lemma PublishKeeps(before: Files, files: Files, temporary: FileName)
    requires KeepsOthers(before, files) && temporary in files && temporary !in before
    ensures KeepsOthers(before, (files - {temporary})[Primary := files[temporary]])
  {}

  lemma CoreShows(files: Files, name: FileName, content: Content)
    requires IsCore(name)
    ensures KeepsOthers(files, files[name := content])
  {}

  /** Some leftovers are moved, the others are still to come. */
  ghost predicate MovingAside(before: Files, now: Files, moved: map<FileName, nat>, orphans: set<FileName>) {
    && (forall t :: t in orphans ==> t.Temp? && t in before && t in now && now[t] == before[t] && t !in moved)
    && (forall t :: t in now && t.Temp? ==> t in orphans)
    && (forall t :: t in before && t.Temp? ==> t in orphans || t in moved)
    && (forall t :: t in moved ==>
          t in before && Interrupted(moved[t]) !in before && Carries(now, Interrupted(moved[t]), before[t]))
    && (forall t, u :: t in moved && u in moved && moved[t] == moved[u] ==> t == u)
    && SameCore(before, now) && KeepsRest(before, now)
  }

  /** The same, for use as one fact. */
  ghost predicate Moving(before: Files, now: Files, moved: map<FileName, nat>, orphans: set<FileName>) {
    forall left :: left == orphans ==> MovingAside(before, now, moved, left)
  }

  lemma MovingEnds(before: Files, now: Files, moved: map<FileName, nat>, orphans: set<FileName>)
    requires Moving(before, now, moved, orphans)
    ensures SameCore(now, before) && KeepsRest(before, now)
    ensures orphans == {} ==> NoTemporaries(now) && MovedAside(before, now, moved)
  {
    assert MovingAside(before, now, moved, orphans);
  }

  lemma MoveOneAside(before: Files, now: Files, moved: map<FileName, nat>, orphans: set<FileName>, orphan: FileName,
                     n: nat)
    requires MovingAside(before, now, moved, orphans) && orphan in orphans && Interrupted(n) !in now
    ensures MovingAside(before, (now - {orphan})[Interrupted(n) := now[orphan]], moved[orphan := n], orphans - {orphan})
  {
    var after, grown := (now - {orphan})[Interrupted(n) := now[orphan]], moved[orphan := n];
    assert Interrupted(n) !in before by {
      assert Interrupted(n) in before ==> Carries(now, Interrupted(n), before[Interrupted(n)]);
    }
    forall t | t in grown
      ensures t in before && Interrupted(grown[t]) !in before && Carries(after, Interrupted(grown[t]), before[t])
    {
      if t != orphan {
        assert Carries(now, Interrupted(moved[t]), before[t]);
      }
    }
  }

  lemma SetAsideEarlier(earlier: Files, before: Files, after: Files, name: FileName)
    requires KeepsOthers(earlier, before) && SameAt(earlier, before, name)
    ensures SetAside(before, after, name) ==> SetAside(earlier, after, name)
  {
    if SetAside(before, after, name) {
      var n :| QuarantineName(name, n) !in before && Carries(after, QuarantineName(name, n), before[name]);
      assert QuarantineName(name, n) !in earlier;
    }
  }

  class StateRepository {
    const disk: Directory
    /** Whether some session of this process owns the writer lease. */
    var locked: bool

    constructor (disk: Directory)
      ensures this.disk == disk && !locked
    {
      this.disk := disk;
      locked := false;
    }

    /** Something raised since then exactly if this did not go well. */
    ghost predicate Counted(before: nat, well: bool)
      reads disk`failures
    {
      before <= disk.failures && (well <==> disk.failures == before)
    }

    /** An operation on a temporary file, invisible to any reader. */
    method Scratch(op: Op) returns (ok: bool)
      requires disk.Valid() && (op.Create? || op.Write? || op.Unlink?) && Legal(disk.files, op)
      requires op.Create? ==> NumberOf(op.name) < disk.counter
      modifies disk
      ensures Counted(old(disk.failures), ok)
      ensures disk.Valid() && old(disk.ops) <= disk.ops && disk.counter == old(disk.counter)
      ensures CommitPoints(disk.ops) == CommitPoints(old(disk.ops))
      ensures disk.files == if ok then Effect(old(disk.files), op) else old(disk.files)
    {
      ok := disk.Perform(op);
      CommitPointsAppend(old(disk.ops), op);
    }

    /** Create, write and sync one temporary file; on failure try to remove it. */
    method WriteTemporary(name: FileName, content: Content) returns (ok: bool)
      requires disk.Valid() && IsScratch(name) && name !in disk.files && NumberOf(name) < disk.counter
      requires Writable(name, content)
      modifies disk
      ensures Counted(old(disk.failures), ok)
      ensures disk.Valid() && old(disk.ops) <= disk.ops && disk.counter == old(disk.counter)
      ensures CommitPoints(disk.ops) == CommitPoints(old(disk.ops))
      ensures ok ==> disk.files == old(disk.files)[name := content]
      ensures !ok ==> disk.files == old(disk.files) || disk.files == old(disk.files)[name := Undecodable]
    {
      ok := Scratch(Create(name));
      if ok {
        ok := Scratch(Write(name, content));
        WriteEffect(old(disk.files), name, content);
        if !ok {
          var _ := Scratch(Unlink(name));
          assert old(disk.files)[name := Undecodable] - {name} == old(disk.files);
        }
      }
    }

    /** Replace one file atomically; `shown` tells whether the target now has the new content. */
    method ReplaceFile(temporary: FileName, target: FileName, content: Content) returns (ok: bool, ghost shown: bool)
      requires disk.Valid() && IsScratch(temporary) && temporary !in disk.files && NumberOf(temporary) < disk.counter
      requires Writable(temporary, content) && target in {Primary, Backup, Authorization}
      requires LegalRename(disk.files[temporary := content], temporary, target)
      modifies disk
      ensures Counted(old(disk.failures), ok)
      ensures disk.Valid() && old(disk.ops) <= disk.ops && disk.counter == old(disk.counter)
      ensures ok ==> shown
      ensures shown ==> disk.files == old(disk.files)[target := content]
      ensures !shown ==> SameCore(disk.files, old(disk.files))
      ensures KeepsOthers(old(disk.files), disk.files)
      ensures CommitPoints(disk.ops) ==
              CommitPoints(old(disk.ops)) + (if shown && target == Primary then [Rename(temporary, target)] else [])
    {
      shown := false;
      ok := WriteTemporary(temporary, content);
      ScratchShows(old(disk.files), temporary, content);
      ScratchShows(old(disk.files), temporary, Undecodable);
      CoreShows(old(disk.files), target, content);
      if ok {
        ReplaceEffect(old(disk.files), temporary, target, content);
        CommitPointsAppend(disk.ops, Rename(temporary, target));
        ok := disk.Perform(Rename(temporary, target));
        shown := ok;
        ghost var files := disk.files;
        var removed := Scratch(Unlink(temporary));
        UnlinkScratch(files, temporary);
        ok := ok && removed;
      }
    }

    /** A name no file has yet. */
    method FreshTemporary() returns (name: FileName)
      requires disk.Valid()
      modifies disk`counter
      ensures disk.Valid() && disk.files == old(disk.files) && disk.ops == old(disk.ops)
      ensures name.Temp? && name !in disk.files && NumberOf(name) < disk.counter
    {
      var n := disk.FreshNumber();
      name := Temp(n);
    }

    /** A fault injected, or an interruption raised, between two file operations. */
    method Fault() returns (raised: bool)
      requires disk.Valid()
      modifies disk`failures
      ensures disk.Valid() && Counted(old(disk.failures), !raised)
    {
      raised := *;
      if raised {
        disk.failures := disk.failures + 1;
      }
    }

    method RefreshBackup() returns (ok: bool)
      requires disk.Valid() && HoldsState(disk.files, Primary) && Valid(disk.files[Primary].state)
      modifies disk
      ensures Counted(old(disk.failures), ok)
      ensures disk.Valid() && old(disk.ops) <= disk.ops
      ensures ok ==> disk.files == old(disk.files)[Backup := old(disk.files[Primary])]
      ensures SameCore(disk.files, old(disk.files))
              || SameCore(disk.files, old(disk.files)[Backup := old(disk.files[Primary])])
      ensures KeepsOthers(old(disk.files), disk.files)
      ensures CommitPoints(disk.ops) == CommitPoints(old(disk.ops))
    {
      var temporary := FreshTemporary();
      ghost var shown;
      ok, shown := ReplaceFile(temporary, Backup, disk.files[Primary]);
    }

    method Publish(temporary: FileName) returns (ok: bool, ghost published: bool)
      requires disk.Valid() && temporary.Temp? && temporary in disk.files && Publishes(disk.files, temporary)
      modifies disk
      ensures Counted(old(disk.failures), ok)
      ensures disk.Valid() && old(disk.ops) <= disk.ops
      ensures ok ==> published
      ensures published ==> disk.files == (old(disk.files) - {temporary})[Primary := old(disk.files[temporary])]
      ensures !published ==> disk.files == old(disk.files)
      ensures CommitPoints(disk.ops) == CommitPoints(old(disk.ops))
              + (if published then [Rename(temporary, Primary)] else [])
    {
      CommitPointsAppend(disk.ops, Rename(temporary, Primary));
      ok := disk.Perform(Rename(temporary, Primary));
      published := ok;
      if ok {
        var raised := Fault();
        var removed := Scratch(Unlink(temporary));
        assert disk.files == (old(disk.files) - {temporary})[Primary := old(disk.files[temporary])];
        ok := removed && !raised;
      }
    }

    /** The first two of three steps: the temporary file and the backup. */
    method PrepareState(next: PersistentState) returns (ok: bool, temporary: FileName)
      requires disk.Valid() && HoldsState(disk.files, Primary) && Valid(disk.files[Primary].state) && Valid(next)
      modifies disk
      ensures Counted(old(disk.failures), ok)
      ensures disk.Valid() && old(disk.ops) <= disk.ops
      ensures SameAt(disk.files, old(disk.files), Primary) && SameAt(disk.files, old(disk.files), Authorization)
      ensures KeepsOthers(old(disk.files), disk.files)
      ensures temporary.Temp? && temporary !in old(disk.files)
      ensures ok ==> Holds(disk.files, temporary, next) && Carries(disk.files, Backup, old(disk.files[Primary]))
      ensures CommitPoints(disk.ops) == CommitPoints(old(disk.ops))
    {
      temporary := FreshTemporary();
      ok := WriteTemporary(temporary, Decoded(next));
      ScratchShows(old(disk.files), temporary, Decoded(next));
      ScratchShows(old(disk.files), temporary, Undecodable);
      var raised := Fault();
      ok := ok && !raised;
      if ok {
        ghost var written := disk.files;
        ok := RefreshBackup();
        KeepsOthersTwice(old(disk.files), written, disk.files);
        raised := Fault();
        ok := ok && !raised;
      }
    }

    /** Temporary file, then backup, then primary. */
    method WriteState(next: PersistentState) returns (ok: bool, ghost published: bool)
      requires disk.Valid() && HoldsState(disk.files, Primary) && Valid(disk.files[Primary].state)
      requires Valid(next) && Succeeds(disk.files, disk.files[Primary].state, next)
      modifies disk
      ensures Counted(old(disk.failures), ok)
      ensures disk.Valid() && old(disk.ops) <= disk.ops
      ensures ok ==> published
      ensures published ==> Holds(disk.files, Primary, next) && Carries(disk.files, Backup, old(disk.files[Primary]))
      ensures !published ==> SameAt(disk.files, old(disk.files), Primary)
      ensures SameAt(disk.files, old(disk.files), Authorization) && KeepsOthers(old(disk.files), disk.files)
      ensures |CommitPoints(disk.ops)| == |CommitPoints(old(disk.ops))| + (if published then 1 else 0)
    {
      published := false;
      var temporary;
      ok, temporary := PrepareState(next);
      if ok {
        ghost var trailing := disk.files;
        ok, published := Publish(temporary);
        PublishKeeps(old(disk.files), trailing, temporary);
      }
    }

    /** Commit against the revision on disk. */
    method Commit(state: PersistentState, expected: int) returns (r: Result<PersistentState>, ghost published: bool)
      requires disk.Valid() && Valid(state)
      requires CommitRefusal(disk.files, state, expected).None? ==>
                 BindingAllowed(disk.files, disk.files[Primary].state, state)
      modifies disk
      ensures PrimaryAnswers(old(disk.files), state, expected, r, disk.failures != old(disk.failures))
      ensures Counted(old(disk.failures), r != Err(IoFailure))
      ensures disk.Valid() && old(disk.ops) <= disk.ops
      ensures var refusal := CommitRefusal(old(disk.files), state, expected);
              var next := AtRevision(state, expected + 1);
              if refusal.Some? then
                r == Err(refusal.value) && disk.files == old(disk.files) && disk.ops == old(disk.ops) && !published
              else
                && (r == Ok(next) || r == Err(IoFailure))
                && (r.Ok? ==> published)
                && (!published ==> SameAt(disk.files, old(disk.files), Primary))
      ensures published ==> Holds(disk.files, Primary, AtRevision(state, expected + 1)) && Backup in disk.files
      ensures SameAt(disk.files, old(disk.files), Authorization) && KeepsOthers(old(disk.files), disk.files)
      ensures |CommitPoints(disk.ops)| == |CommitPoints(old(disk.ops))| + (if published then 1 else 0)
      ensures !published ==> Recover(disk.files) == Recover(old(disk.files))
    {
      published := false;
      var refusal := CommitRefusal(disk.files, state, expected);
      if refusal.Some? {
        return Err(refusal.value), published;
      }
      StoredStatesAreValid(disk.ops);
      assert HoldsState(disk.files, Primary);
      var next := AtRevision(state, expected + 1);
      var ok: bool;
      ok, published := WriteState(next);
      r := if ok then Ok(next) else Err(IoFailure);
    }

    /** Record, once, which slot a proposed save identity belongs to. */
    method AuthorizeSaveIdentity(identity: string, slot: Slot) returns (r: Result<()>)
      requires disk.Valid()
      modifies disk
      ensures disk.Valid() && old(disk.ops) <= disk.ops
      ensures r.Ok? ==> AuthorisationFailure(disk.files, identity, slot).None?
      ensures Authorization in old(disk.files) || !IsUuid(identity) ==>
                disk.files == old(disk.files) && disk.ops == old(disk.ops)
                && r == (var f := AuthorisationFailure(disk.files, identity, slot);
                         if f.Some? then Err(f.value) else Ok(()))
      ensures Authorization !in old(disk.files) && IsUuid(identity) ==>
                && (r == Ok(()) || r == Err(Corruption)) && Counted(old(disk.failures), r.Ok?)
                && (Authorization in disk.files ==> disk.files[Authorization] == Granted(identity, slot))
      ensures SameAt(disk.files, old(disk.files), Primary) && SameAt(disk.files, old(disk.files), Backup)
      ensures KeepsOthers(old(disk.files), disk.files)
      ensures CommitPoints(disk.ops) == CommitPoints(old(disk.ops))
    {
      if !IsUuid(identity) {
        return Err(Corruption);
      }
      if Authorization in disk.files {
        var failure := AuthorisationFailure(disk.files, identity, slot);
        return if failure.Some? then Err(failure.value) else Ok(());
      }
      var n := disk.FreshNumber();
      ghost var shown;
      var ok: bool;
      ok, shown := ReplaceFile(AuthorizationTemp(n), Authorization, Granted(identity, slot));
      r := if ok then Ok(()) else Err(Corruption);
    }

    /** Move a damaged file aside, for good. */
    method QuarantineFile(name: FileName) returns (ok: bool)
      requires disk.Valid() && (name.Primary? || name.Backup?) && name in disk.files && disk.files[name].Undecodable?
      modifies disk
      ensures Counted(old(disk.failures), ok)
      ensures disk.Valid() && old(disk.ops) <= disk.ops
      ensures ok ==> name !in disk.files && SetAside(old(disk.files), disk.files, name)
      ensures !ok ==> disk.files == old(disk.files)
      ensures SameAt(disk.files, old(disk.files), Authorization) && KeepsOthers(old(disk.files), disk.files)
      ensures name.Primary? ==> SameAt(disk.files, old(disk.files), Backup)
      ensures name.Backup? ==> SameAt(disk.files, old(disk.files), Primary)
      ensures CommitPoints(disk.ops) == CommitPoints(old(disk.ops))
    {
      var n := disk.FreshNumber();
      var target := QuarantineName(name, n);
      CommitPointsAppend(disk.ops, Rename(name, target));
      RenamedAside(disk.files, name, n);
      ok := disk.Perform(Rename(name, target));
    }

    /** Move every damaged one of the two files aside and refuse. */
    method QuarantineDamaged() returns (failure: Failure)
      requires disk.Valid() && !HoldsState(disk.files, Primary) && !HoldsState(disk.files, Backup)
      requires Load(disk.files, Primary) in {Missing, Damaged} && Load(disk.files, Backup) in {Missing, Damaged}
      modifies disk
      ensures Counted(old(disk.failures), failure != IoFailure)
      ensures disk.Valid() && old(disk.ops) <= disk.ops
      ensures failure in {Corruption, IoFailure} && Recover(disk.files).None?
      ensures failure == Corruption ==>
                QuarantinedAs(old(disk.files), disk.files, Primary in old(disk.files), Backup in old(disk.files))
      ensures SameAt(disk.files, old(disk.files), Authorization) && KeepsOthers(old(disk.files), disk.files)
      ensures CommitPoints(disk.ops) == CommitPoints(old(disk.ops))
    {
      var ok := true;
      if Primary in disk.files {
        ok := QuarantineFile(Primary);
      }
      ghost var middle := disk.files;
      if ok && Backup in disk.files {
        ok := QuarantineFile(Backup);
        SetAsideEarlier(old(disk.files), middle, disk.files, Backup);
      }
      KeepsOthersTwice(old(disk.files), middle, disk.files);
      if Primary in old(disk.files) && SetAside(old(disk.files), middle, Primary) {
        SetAsideLater(old(disk.files), middle, disk.files, Primary);
      }
      failure := if ok then Corruption else IoFailure;
    }

    /** Check first-binding provenance before recovery can change the disk. */
    method Preflight(save: NativeSave, slot: Slot) returns (r: Result<()>)
      requires disk.Valid()
      ensures var failure := AuthorisationFailure(disk.files, save.identity, slot);
              r == if GrantNeeded(disk.files) && failure.Some? then Err(failure.value) else Ok(())
    {
      var needed := false;
      match Load(disk.files, Primary) {
        case Found(p) => needed := p.binding.None?;
        case Foreign => return Ok(());
        case Damaged =>
          match Load(disk.files, Backup) {
            case Found(b) => needed := b.binding.None?;
            case _ => return Ok(());
          }
        case Missing =>
          match Load(disk.files, Backup) {
            case Found(b) => needed := b.binding.None?;
            case Missing => needed := true;
            case _ => return Ok(());
          }
      }
      var failure := AuthorisationFailure(disk.files, save.identity, slot);
      r := if needed && failure.Some? then Err(failure.value) else Ok(());
    }

    method RestoreBackup() returns (ok: bool)
      requires disk.Valid() && Primary !in disk.files && HoldsState(disk.files, Backup)
      requires Valid(disk.files[Backup].state)
      modifies disk
      ensures Counted(old(disk.failures), ok)
      ensures disk.Valid() && old(disk.ops) <= disk.ops
      ensures ok ==> disk.files == old(disk.files)[Primary := old(disk.files[Backup])]
      ensures |CommitPoints(disk.ops)| <= |CommitPoints(old(disk.ops))| + 1
      ensures Recover(disk.files) == Some(old(disk.files[Backup].state))
      ensures SameAt(disk.files, old(disk.files), Authorization) && KeepsOthers(old(disk.files), disk.files)
    {
      var temporary := FreshTemporary();
      ghost var shown;
      ok, shown := ReplaceFile(temporary, Primary, disk.files[Backup]);
    }

    /** Load the primary, recover from the backup, or start a fresh state. */
    method LoadOrCreate(save: NativeSave, slot: Slot, freshId: string) returns (r: Result<PersistentState>)
      requires disk.Valid() && ValidSave(save) && IsUuid(freshId)
      requires GrantNeeded(disk.files) ==> AuthorisationFailure(disk.files, save.identity, slot).None?
      modifies disk
      ensures Counted(old(disk.failures), r != Err(IoFailure))
      ensures disk.Valid() && old(disk.ops) <= disk.ops
      ensures SameAt(disk.files, old(disk.files), Authorization)
      ensures |CommitPoints(disk.ops)| <= |CommitPoints(old(disk.ops))| + 1
      ensures LoadMeets(Decide(old(disk.files), save, slot), Some(CreateUnbound(save, freshId)), old(disk.files),
                        disk.files, r)
      ensures Preserves(Decide(old(disk.files), save, slot), old(disk.files), disk.files, r)
      ensures KeepsOthers(old(disk.files), disk.files)
      ensures Decide(old(disk.files), save, slot).Refuse? ==> disk.ops == old(disk.ops)
      ensures r.Ok? ==> Holds(disk.files, Primary, r.value) && Valid(r.value) && Admits(r.value, save, slot)
    {
      StoredStatesAreValid(disk.ops);
      match Load(disk.files, Primary) {
        case Found(p) =>
          assert HoldsState(disk.files, Primary);
          r := if Admits(p, save, slot) then Ok(p) else Err(BindingMismatch);
        case Foreign =>
          r := Err(CompatibilityMismatch);
        case Missing =>
          r := WithoutPrimary(save, slot, freshId);
        case Damaged =>
          r := WithDamagedPrimary(save, slot);
      }
    }

    method WithoutPrimary(save: NativeSave, slot: Slot, freshId: string) returns (r: Result<PersistentState>)
      requires disk.Valid() && ValidSave(save) && IsUuid(freshId) && Primary !in disk.files
      requires GrantNeeded(disk.files) ==> AuthorisationFailure(disk.files, save.identity, slot).None?
      modifies disk
      ensures Counted(old(disk.failures), r != Err(IoFailure))
      ensures disk.Valid() && old(disk.ops) <= disk.ops
      ensures SameAt(disk.files, old(disk.files), Authorization)
      ensures |CommitPoints(disk.ops)| <= |CommitPoints(old(disk.ops))| + 1
      ensures LoadMeets(Decide(old(disk.files), save, slot), Some(CreateUnbound(save, freshId)), old(disk.files),
                        disk.files, r)
      ensures Preserves(Decide(old(disk.files), save, slot), old(disk.files), disk.files, r)
      ensures KeepsOthers(old(disk.files), disk.files)
      ensures Decide(old(disk.files), save, slot).Refuse? ==> disk.ops == old(disk.ops)
      ensures r.Ok? ==> Holds(disk.files, Primary, r.value) && Valid(r.value) && Admits(r.value, save, slot)
    {
      StoredStatesAreValid(disk.ops);
      var ok: bool;
      match Load(disk.files, Backup) {
        case Found(b) =>
          assert HoldsState(disk.files, Backup);
          if Admits(b, save, slot) {
            ok := RestoreBackup();
            r := if ok then Ok(b) else Err(IoFailure);
          } else {
            r := Err(BindingMismatch);
          }
        case Foreign =>
          r := Err(CompatibilityMismatch);
        case Damaged =>
          var failure := QuarantineDamaged();
          r := Err(failure);
        case Missing =>
          if exists n :: n in disk.files && IsQuarantineCandidate(n) {
            r := Err(Corruption);
          } else if !save.unprogressed {
            r := Err(Ineligible);
          } else {
            r := StartState(save, freshId);
          }
      }
    }

    method StartState(save: NativeSave, freshId: string) returns (r: Result<PersistentState>)
      requires disk.Valid() && ValidSave(save) && IsUuid(freshId)
      requires Primary !in disk.files && Backup !in disk.files
      requires forall n :: n in disk.files ==> !IsQuarantineCandidate(n)
      modifies disk
      ensures Counted(old(disk.failures), r != Err(IoFailure))
      ensures disk.Valid() && old(disk.ops) <= disk.ops
      ensures SameAt(disk.files, old(disk.files), Authorization) && KeepsOthers(old(disk.files), disk.files)
      ensures |CommitPoints(disk.ops)| <= |CommitPoints(old(disk.ops))| + 1
      ensures var s := CreateUnbound(save, freshId);
              && (r == Ok(s) || r == Err(IoFailure))
              && (r.Ok? ==> Holds(disk.files, Primary, s))
              && (Recover(disk.files) == None || Recover(disk.files) == Some(s))
    {
      var s := CreateUnbound(save, freshId);
      var temporary := FreshTemporary();
      ghost var shown;
      var ok: bool;
      ok, shown := ReplaceFile(temporary, Primary, Decoded(s));
      r := if ok then Ok(s) else Err(IoFailure);
    }

    method WithDamagedPrimary(save: NativeSave, slot: Slot) returns (r: Result<PersistentState>)
      requires disk.Valid() && Load(disk.files, Primary).Damaged?
      requires GrantNeeded(disk.files) ==> AuthorisationFailure(disk.files, save.identity, slot).None?
      modifies disk
      ensures Counted(old(disk.failures), r != Err(IoFailure))
      ensures disk.Valid() && old(disk.ops) <= disk.ops
      ensures SameAt(disk.files, old(disk.files), Authorization)
      ensures |CommitPoints(disk.ops)| <= |CommitPoints(old(disk.ops))| + 1
      ensures LoadMeets(Decide(old(disk.files), save, slot), None, old(disk.files), disk.files, r)
      ensures Preserves(Decide(old(disk.files), save, slot), old(disk.files), disk.files, r)
      ensures KeepsOthers(old(disk.files), disk.files)
      ensures Decide(old(disk.files), save, slot).Refuse? ==> disk.ops == old(disk.ops)
      ensures r.Ok? ==> Holds(disk.files, Primary, r.value) && Valid(r.value) && Admits(r.value, save, slot)
    {
      StoredStatesAreValid(disk.ops);
      var ok: bool;
      match Load(disk.files, Backup) {
        case Foreign =>
          r := Err(CompatibilityMismatch);
        case Found(b) =>
          assert HoldsState(disk.files, Backup);
          if !Admits(b, save, slot) {
            r := Err(BindingMismatch);
          } else {
            ok := QuarantineFile(Primary);
            if ok {
              ghost var middle := disk.files;
              ok := RestoreBackup();
              KeepsOthersTwice(old(disk.files), middle, disk.files);
              SetAsideLater(old(disk.files), middle, disk.files, Primary);
            }
            r := if ok then Ok(b) else Err(IoFailure);
          }
        case _ =>
          var failure := QuarantineDamaged();
          r := Err(failure);
      }
    }

    method QuarantineOrphan(orphan: FileName) returns (ok: bool, ghost n: nat)
      requires disk.Valid() && orphan.Temp? && orphan in disk.files
      modifies disk
      ensures Counted(old(disk.failures), ok)
      ensures disk.Valid() && old(disk.ops) <= disk.ops
      ensures Interrupted(n) !in old(disk.files)
      ensures disk.files ==
              if ok then (old(disk.files) - {orphan})[Interrupted(n) := old(disk.files)[orphan]]
              else old(disk.files)
      ensures CommitPoints(disk.ops) == CommitPoints(old(disk.ops))
    {
      var number := disk.FreshNumber();
      n := number;
      CommitPointsAppend(disk.ops, Rename(orphan, Interrupted(number)));
      ok := disk.Perform(Rename(orphan, Interrupted(number)));
    }

    method MoveOrphan(orphan: FileName, ghost orphans: set<FileName>, ghost moved: map<FileName, nat>,
                      ghost start: Files)
      returns (ok: bool, ghost grown: map<FileName, nat>)
      requires disk.Valid() && Moving(start, disk.files, moved, orphans) && orphan in orphans
      modifies disk
      ensures Counted(old(disk.failures), ok)
      ensures disk.Valid() && old(disk.ops) <= disk.ops
      ensures CommitPoints(disk.ops) == CommitPoints(old(disk.ops))
      ensures Moving(start, disk.files, grown, if ok then orphans - {orphan} else orphans)
    {
      assert MovingAside(start, disk.files, moved, orphans);
      ghost var n;
      grown := moved;
      ok, n := QuarantineOrphan(orphan);
      if ok {
        MoveOneAside(start, old(disk.files), moved, orphans, orphan, n);
        grown := moved[orphan := n];
      }
    }

    /** Leftover temporaries of interrupted writes are moved aside, never removed. */
    method QuarantineOrphans() returns (ok: bool, ghost moved: map<FileName, nat>)
      requires disk.Valid()
      modifies disk
      ensures Counted(old(disk.failures), ok)
      ensures disk.Valid() && old(disk.ops) <= disk.ops
      ensures SameCore(disk.files, old(disk.files)) && KeepsRest(old(disk.files), disk.files)
      ensures CommitPoints(disk.ops) == CommitPoints(old(disk.ops))
      ensures ok ==> NoTemporaries(disk.files) && MovedAside(old(disk.files), disk.files, moved)
    {
      ghost var left;
      ok, left, moved := MoveOrphans();
      MovingEnds(old(disk.files), disk.files, moved, left);
    }

    method MoveOrphans() returns (ok: bool, ghost left: set<FileName>, ghost moved: map<FileName, nat>)
      requires disk.Valid()
      modifies disk
      ensures Counted(old(disk.failures), ok)
      ensures disk.Valid() && old(disk.ops) <= disk.ops
      ensures CommitPoints(disk.ops) == CommitPoints(old(disk.ops))
      ensures Moving(old(disk.files), disk.files, moved, left) && (ok ==> left == {})
    {
      var orphans := set n | n in disk.files && n.Temp?;
      ok, left, moved := true, orphans, map[];
      while ok && orphans != {}
        invariant disk.Valid() && old(disk.ops) <= disk.ops
        invariant CommitPoints(disk.ops) == CommitPoints(old(disk.ops))
        invariant Moving(old(disk.files), disk.files, moved, left) && left == orphans
        invariant Counted(old(disk.failures), ok)
        decreases orphans, ok
      {
        var orphan :| orphan in orphans;
        ok, moved := MoveOrphan(orphan, left, moved, old(disk.files));
        orphans := if ok then orphans - {orphan} else orphans;
        left := orphans;
      }
    }

    /** Bind if needed and mark in use. */
    method MarkInUse(s: PersistentState, slot: Slot) returns (state: PersistentState, changed: bool)
      ensures state == Marked(s, slot) && (changed <==> s.binding.None? || s.cleanShutdown)
    {
      state, changed := s, false;
      if state.binding.None? {
        state := state.(binding := Some(slot));
        changed := true;
      }
      if state.cleanShutdown {
        state := state.(cleanShutdown := false);
        changed := true;
      }
    }

    /** Bind if needed, mark in use, and commit what changed. */
    method BindAndMark(s: PersistentState, save: NativeSave, slot: Slot)
      returns (r: Result<PersistentState>)
      requires disk.Valid() && Holds(disk.files, Primary, s) && Valid(s) && ValidSlot(slot)
      requires Admits(s, save, slot)
      requires s.binding.None? ==> AuthorisationFailure(disk.files, save.identity, slot).None?
      modifies disk
      ensures Counted(old(disk.failures), r != Err(IoFailure))
      ensures disk.Valid() && old(disk.ops) <= disk.ops
      ensures SameAt(disk.files, old(disk.files), Authorization) && KeepsOthers(old(disk.files), disk.files)
      ensures s.binding.Some? && !s.cleanShutdown ==> disk.ops == old(disk.ops) && disk.files == old(disk.files)
      ensures r == Ok(Opened(s, slot)) || r == Err(IoFailure)
      ensures r.Ok? ==> Holds(disk.files, Primary, r.value)
      ensures Recover(disk.files) == Some(s) || Recover(disk.files) == Some(Opened(s, slot))
      ensures |CommitPoints(disk.ops)| <= |CommitPoints(old(disk.ops))| + 1
    {
      var state, changed := MarkInUse(s, slot);
      if changed {
        MarkedIsValid(s, slot);
        assert Opened(s, slot) == AtRevision(state, state.revision + 1);
        ghost var published;
        r, published := Commit(state, state.revision);
      } else {
        r := Ok(state);
      }
    }

    method FinishOpening(s: PersistentState, save: NativeSave, slot: Slot) returns (r: Result<PersistentState>)
      requires disk.Valid() && Holds(disk.files, Primary, s) && Valid(s) && ValidSlot(slot)
      requires Admits(s, save, slot)
      requires s.binding.None? ==> AuthorisationFailure(disk.files, save.identity, slot).None?
      modifies disk
      ensures Counted(old(disk.failures), r != Err(IoFailure))
      ensures disk.Valid() && old(disk.ops) <= disk.ops
      ensures r == Ok(Opened(s, slot)) || r == Err(IoFailure)
      ensures r.Ok? ==> Holds(disk.files, Primary, r.value) && Serves(r.value, save, slot)
      ensures r.Ok? ==> Tidied(old(disk.files), disk.files)
      ensures KeepsRest(old(disk.files), disk.files)
      ensures Recover(disk.files) == Some(s) || Recover(disk.files) == Some(Opened(s, slot))
      ensures |CommitPoints(disk.ops)| <= |CommitPoints(old(disk.ops))| + 1
    {
      r := BindAndMark(s, save, slot);
      if r.Ok? {
        ghost var marked, moved := disk.files, map[];
        var ok: bool;
        ok, moved := QuarantineOrphans();
        if ok {
          MovedAsideEarlier(old(disk.files), marked, disk.files, moved);
        } else {
          r := Err(IoFailure);
        }
      }
    }

    /** Load, then bind and mark; `loaded` is the log between these two phases. */
    method LoadAndMark(save: NativeSave, slot: Slot, freshId: string)
      returns (r: Result<PersistentState>, ghost loaded: seq<Op>)
      requires disk.Valid() && ValidSave(save) && ValidSlot(slot) && IsUuid(freshId)
      requires GrantNeeded(disk.files) ==> AuthorisationFailure(disk.files, save.identity, slot).None?
      modifies disk
      ensures Counted(old(disk.failures), r != Err(IoFailure))
      ensures disk.Valid() && old(disk.ops) <= loaded <= disk.ops && LegalLog(loaded)
      ensures OpenMeets(Decide(old(disk.files), save, slot), save, slot, freshId, r)
      ensures Preserves(Decide(old(disk.files), save, slot), old(disk.files), disk.files, r)
      ensures r.Ok? ==> Tidied(old(disk.files), disk.files)
      ensures r.Ok? ==> Holds(disk.files, Primary, r.value) && Serves(r.value, save, slot)
      ensures Decide(old(disk.files), save, slot).Refuse? ==> disk.ops == old(disk.ops) && disk.files == old(disk.files)
      ensures |CommitPoints(loaded)| <= |CommitPoints(old(disk.ops))| + 1
      ensures |CommitPoints(disk.ops)| <= |CommitPoints(loaded)| + 1
      ensures var allowed := OpenStates(Decide(old(disk.files), save, slot), Recover(old(disk.files)), save, slot,
                                        freshId);
              Recover(Replay(loaded)) in allowed && Recover(disk.files) in allowed
    {
      r := LoadOrCreate(save, slot, freshId);
      loaded := disk.ops;
      LoadedAllowed(old(disk.files), disk.files, save, slot, freshId, r);
      if r.Ok? {
        if r.value.binding.None? {
          ServedIsGranted(old(disk.files), disk.files, save, slot, freshId);
        }
        ghost var middle := disk.files;
        var s := r.value;
        assert Recover(middle) == Some(s);
        r := FinishOpening(s, save, slot);
        PreservedLater(Decide(old(disk.files), save, slot), old(disk.files), middle, disk.files, s, r);
        if r.Ok? {
          TidiedEarlier(old(disk.files), middle, disk.files);
        }
      }
    }

    /** Everything done under the writer lease to open a session. */
    method OpenLocked(save: NativeSave, slot: Slot, freshId: string) returns (r: Result<PersistentState>)
      requires disk.Valid() && ValidSave(save) && ValidSlot(slot) && IsUuid(freshId)
      modifies disk
      ensures Counted(old(disk.failures), r != Err(IoFailure))
      ensures disk.Valid() && old(disk.ops) <= disk.ops
      ensures OpenMeets(Decide(old(disk.files), save, slot), save, slot, freshId, r)
      ensures Preserves(Decide(old(disk.files), save, slot), old(disk.files), disk.files, r)
      ensures r.Ok? ==> Tidied(old(disk.files), disk.files)
      ensures r.Ok? ==> Holds(disk.files, Primary, r.value) && Serves(r.value, save, slot)
      ensures Decide(old(disk.files), save, slot).Refuse? ==> disk.ops == old(disk.ops) && disk.files == old(disk.files)
      ensures CrashStates(disk.ops, |old(disk.ops)|,
                          OpenStates(Decide(old(disk.files), save, slot), Recover(old(disk.files)), save, slot,
                                     freshId))
    {
      var preflight := Preflight(save, slot);
      if preflight.Err? {
        OnePhase(disk.ops, disk.ops, {Recover(disk.files)});
        r := Err(preflight.failure);
      } else {
        ghost var log, loaded := disk.ops, [];
        ghost var allowed := OpenStates(Decide(disk.files, save, slot), Recover(disk.files), save, slot, freshId);
        assert Recover(disk.files) in allowed;
        r, loaded := LoadAndMark(save, slot, freshId);
        TwoPhases(log, loaded, disk.ops, allowed);
      }
    }

    /** Open game-observed state with first-binding provenance enforced. */
    method OpenLive(save: NativeSave, slot: Slot, freshId: string) returns (r: Result<StateSession>)
      requires disk.Valid() && ValidSave(save) && ValidSlot(slot) && IsUuid(freshId)
      modifies this, disk
      ensures Counted(old(disk.failures), r.Ok? || r.failure != IoFailure)
      ensures disk.Valid() && old(disk.ops) <= disk.ops
      ensures old(locked) ==>
              r == Err(WriterLocked) && locked && disk.files == old(disk.files) && disk.ops == old(disk.ops)
      ensures !old(locked) ==> locked == r.Ok?
      ensures !old(locked) && r.Err? ==>
                OpenMeets(Decide(old(disk.files), save, slot), save, slot, freshId, Err(r.failure))
                && Preserves(Decide(old(disk.files), save, slot), old(disk.files), disk.files, Err(r.failure))
                && (Decide(old(disk.files), save, slot).Refuse? ==>
                    disk.files == old(disk.files) && disk.ops == old(disk.ops))
      ensures r.Ok? ==>
                && fresh(r.value) && r.value.Valid() && r.value.repository == this && !r.value.closed
                && r.value.save == save && r.value.slot == slot
                && OpenMeets(Decide(old(disk.files), save, slot), save, slot, freshId, Ok(r.value.state))
                && Preserves(Decide(old(disk.files), save, slot), old(disk.files), disk.files, Ok(r.value.state))
                && Tidied(old(disk.files), disk.files)
                && Holds(disk.files, Primary, r.value.state)
                && r.value.state.binding == Some(slot) && !r.value.state.cleanShutdown
      ensures !old(locked) ==>
                CrashStates(disk.ops, |old(disk.ops)|,
                            OpenStates(Decide(old(disk.files), save, slot), Recover(old(disk.files)), save, slot,
                                       freshId))
    {
      if locked {
        return Err(WriterLocked);
      }
      locked := true;
      var outcome := OpenLocked(save, slot, freshId);
      if outcome.Err? {
        locked := false;
        return Err(outcome.failure);
      }
      StoredStatesAreValid(disk.ops);
      assert HoldsState(disk.files, Primary);
      var session := new StateSession(this, save, slot, outcome.value);
      r := Ok(session);
    }

    /** A state bound to this slot is served again, unless an operation raises. */
    method Reopen(save: NativeSave, slot: Slot, freshId: string, s: PersistentState)
      returns (r: Result<StateSession>)
      requires disk.Valid() && ValidSave(save) && ValidSlot(slot) && IsUuid(freshId) && !locked
      requires Candidate(disk.files, s) && Entitled(disk.files, save, slot, s)
      modifies this, disk
      ensures Counted(old(disk.failures), r.Ok?)
      ensures r.Ok? ==>
                && r.value.Valid() && Holds(disk.files, Primary, r.value.state)
                && r.value.state ==
                   s.(binding := Some(slot), cleanShutdown := false, revision := r.value.state.revision)
                && r.value.state.revision == s.revision + (if s.binding.None? || s.cleanShutdown then 1 else 0)
    {
      ServesExactly(disk.files, save, slot, s);
      RebuildsExactly(disk.files, save, slot, s, Primary in disk.files);
      OpenedExactly(s, slot);
      r := OpenLive(save, slot, freshId);
    }

    /** Damage at rest, between two calls. */
    method Suffer(damage: Op)
      requires disk.Valid() && Damages(damage) && Legal(disk.files, damage)
      modifies disk
      ensures disk.Valid() && old(disk.ops) <= disk.ops
      ensures disk.files == old(disk.files) || disk.files == Effect(old(disk.files), damage)
    {
      var _ := disk.Perform(damage);
    }
  }

  /** What the session's memory says of the disk: the same revision means the same state. */
  ghost predicate Coherent(files: Files, state: PersistentState) {
    HoldsState(files, Primary)
    && files[Primary].state.instanceId == state.instanceId && files[Primary].state.revision == state.revision
    ==> files[Primary].state == state
  }

  /** The disk is not at the session's revision of its instance. */
  ghost predicate Superseded(files: Files, state: PersistentState) {
    !(&& HoldsState(files, Primary)
      && files[Primary].state.instanceId == state.instanceId && files[Primary].state.revision == state.revision)
  }

  lemma DamageKeepsSessions(files: Files, damage: Op, state: PersistentState)
    requires Damages(damage) && Legal(files, damage)
    ensures Coherent(files, state) ==> Coherent(Effect(files, damage), state)
    ensures Superseded(files, state) ==> Superseded(Effect(files, damage), state)
  {}

  /** The files once recovered to this state. */
  ghost predicate Recorded(log: seq<Op>, state: PersistentState) {
    exists j :: 0 <= j <= |log| && Recover(Replay(log[..j])) == Some(state)
  }

  lemma RecordedNow(log: seq<Op>, state: PersistentState)
    requires Recover(Replay(log)) == Some(state)
    ensures Recorded(log, state)
  {
    assert log[..|log|] == log;
  }

  lemma RecordedLater(log: seq<Op>, longer: seq<Op>, state: PersistentState)
    requires Recorded(log, state) && log <= longer
    ensures Recorded(longer, state)
  {
    var j :| 0 <= j <= |log| && Recover(Replay(log[..j])) == Some(state);
    assert longer[..j] == log[..j];
  }

  /** One operation of a commit: no damage, and nothing is published but this successor of this state. */
  ghost predicate PublishesOnly(log: seq<Op>, l: nat, before: PersistentState, next: PersistentState)
    requires l < |log|
  {
    var files, op := Replay(log[..l]), log[l];
    && !Damages(op)
    && (IsPublish(files, op) ==>
          files[Primary].state == before && files[op.source].state == AtRevision(next, before.revision + 1))
  }

  /** All a commit of this successor logs. */
  ghost predicate PublishesNext(log: seq<Op>, from: nat, before: PersistentState, next: PersistentState) {
    forall l :: from <= l < |log| ==> PublishesOnly(log, l, before, next)
  }

  lemma DamageNeverAdvances(log: seq<Op>, l: nat, before: PersistentState, after: PersistentState)
    requires LegalLog(log) && l < |log| && Damages(log[l])
    requires Recover(Replay(log[..l])) == Some(before) && Recover(Replay(log[..l + 1])) == Some(after)
    ensures after.revision <= before.revision
  {
    LogIsRun(log);
    BackupAlwaysTrails(StatesOf(log), log, l);
    LoggedStep(log, l);
  }

  /** The log grew by at most one commit point, which made the one state the other. */
  ghost predicate OneSuccession(log: seq<Op>, longer: seq<Op>, before: PersistentState, after: PersistentState) {
    && LegalLog(longer) && log <= longer && after.revision > before.revision
    && Recover(Replay(log)) == Some(before)
    && (|| |CommitPoints(longer)| == |CommitPoints(log)|
        || (|CommitPoints(longer)| == |CommitPoints(log)| + 1 && Recover(Replay(longer)) == Some(after)))
  }

  /** The operations of a commit, given what they did to the recovered state. */
  lemma OnePublication(log: seq<Op>, longer: seq<Op>, before: PersistentState, next: PersistentState)
    requires OneSuccession(log, longer, before, AtRevision(next, before.revision + 1))
    ensures PublishesNext(longer, |log|, before, next)
  {
    forall l | |log| <= l < |longer| ensures PublishesOnly(longer, l, before, next) {
      PublicationAt(log, longer, l, before, next);
    }
  }

  lemma PublicationAt(log: seq<Op>, longer: seq<Op>, l: nat, before: PersistentState, next: PersistentState)
    requires OneSuccession(log, longer, before, AtRevision(next, before.revision + 1)) && |log| <= l < |longer|
    ensures PublishesOnly(longer, l, before, next)
  {
    var after := AtRevision(next, before.revision + 1);
    if IsCommitPoint(longer[l]) {
      RecoveredAround(log, longer, l, before, after);
      if Damages(longer[l]) {
        DamageNeverAdvances(longer, l, before, after);
      } else {
        LoggedStep(longer, l);
        RecoverStep(Replay(longer[..l]), longer[l]);
      }
    }
  }

  lemma RecoveredAround(log: seq<Op>, longer: seq<Op>, l: nat, before: PersistentState, after: PersistentState)
    requires OneSuccession(log, longer, before, after) && |log| <= l < |longer| && IsCommitPoint(longer[l])
    ensures Recover(Replay(longer[..l])) == Some(before) && Recover(Replay(longer[..l + 1])) == Some(after)
  {
    assert longer[..|log|] == log && longer[..|longer|] == longer && longer[..l + 1] == longer[..l] + [longer[l]];
    LogIsRun(longer);
    CommitPointsAppend(longer[..l], longer[l]);
    CommitPointsGrow(longer, |log|, l);
    CommitPointsGrow(longer, l + 1, |longer|);
    RecoverBetweenCommitPoints(StatesOf(longer), longer, |log|, l);
    RecoverBetweenCommitPoints(StatesOf(longer), longer, l + 1, |longer|);
  }

  /** A valid state, for use as one fact. */
  ghost predicate Sound(state: PersistentState) {
    forall s :: s == state ==> Valid(s)
  }

  lemma NextIsSound(state: PersistentState, next: PersistentState)
    requires Sound(state) && Valid(next)
    ensures Sound(AtRevision(next, state.revision + 1))
  {
    assert Valid(state);
  }

  lemma AcceptedExactly(files: Files, state: PersistentState, next: PersistentState)
    requires Coherent(files, state) && next.instanceId == state.instanceId
    ensures CommitRefusal(files, next, state.revision).None? <==>
              next.revision == state.revision && Holds(files, Primary, state)
    ensures Superseded(files, state) ==> !Holds(files, Primary, state)
  {}

  class StateSession {
    const repository: StateRepository
    const save: NativeSave
    const slot: Slot
    var state: PersistentState
    var closed: bool

    ghost predicate Valid()
      reads this, repository, repository.disk
    {
      && repository.disk.Valid()
      && Sound(state)
      && Serves(state, save, slot)
      && Coherent(repository.disk.files, state)
      && Recorded(repository.disk.ops, state)
      && (!closed ==> repository.locked)
    }

    constructor (repository: StateRepository, save: NativeSave, slot: Slot, state: PersistentState)
      requires repository.disk.Valid() && repository.locked && State.Valid(state)
      requires Serves(state, save, slot)
      requires Holds(repository.disk.files, Primary, state)
      ensures Valid() && !closed
      ensures this.repository == repository && this.save == save && this.slot == slot && this.state == state
    {
      this.repository, this.save, this.slot, this.state, this.closed := repository, save, slot, state, false;
      RecordedNow(repository.disk.ops, state);
    }

    /** Hand the successor to the repository once session and slot agree with it. */
    method Forward(next: PersistentState) returns (r: Result<PersistentState>, ghost published: bool)
      requires Valid() && State.Valid(next)
      modifies this`state, repository.disk
      ensures repository.Counted(old(repository.disk.failures), r != Err(IoFailure))
      ensures SessionAnswers(old(closed), old(state), save, old(repository.disk.files), next, r,
                             repository.disk.failures != old(repository.disk.failures))
      ensures Valid() && old(repository.disk.ops) <= repository.disk.ops
      ensures r.Ok? ==>
                && !closed && published && old(Holds(repository.disk.files, Primary, state))
                && next.instanceId == old(state.instanceId) && next.binding == old(state.binding)
                && state == AtRevision(next, old(state.revision) + 1) == r.value
      ensures r.Err? ==> state == old(state)
      ensures r.Err? && r.failure != IoFailure ==>
                repository.disk.files == old(repository.disk.files) && repository.disk.ops == old(repository.disk.ops)
      ensures old(Superseded(repository.disk.files, state)) ==> r.Err? && r.failure != IoFailure
      ensures published ==>
                Holds(repository.disk.files, Primary, AtRevision(next, old(state.revision) + 1))
                && Backup in repository.disk.files
      ensures !published ==> Recover(repository.disk.files) == Recover(old(repository.disk.files))
      ensures |CommitPoints(repository.disk.ops)| == |CommitPoints(old(repository.disk.ops))|
              + (if published then 1 else 0)
    {
      published := false;
      if closed {
        r := Err(SessionClosed);
      } else if next.instanceId != state.instanceId {
        r := Err(StaleRevision);
      } else if next.binding != state.binding || !Admits(next, save, slot) {
        r := Err(BindingMismatch);
      } else {
        NextIsSound(state, next);
        r, published := Submit(next, state.revision);
        if r.Ok? {
          RecordedNow(repository.disk.ops, r.value);
          state := r.value;
        }
      }
    }

    /** The same, once they agree. */
    method Submit(next: PersistentState, expected: int) returns (r: Result<PersistentState>, ghost published: bool)
      requires repository.disk.Valid() && Coherent(repository.disk.files, state) && Recorded(repository.disk.ops, state)
      requires State.Valid(next) && next.instanceId == state.instanceId && next.binding == state.binding
      requires expected == state.revision
      modifies repository.disk
      ensures repository.Counted(old(repository.disk.failures), r != Err(IoFailure))
      ensures PrimaryAnswers(old(repository.disk.files), next, expected, r,
                             repository.disk.failures != old(repository.disk.failures))
      ensures repository.disk.Valid() && old(repository.disk.ops) <= repository.disk.ops
      ensures Coherent(repository.disk.files, state) && Recorded(repository.disk.ops, state)
      ensures r.Ok? ==>
                && published && r.value == AtRevision(next, expected + 1)
                && old(Holds(repository.disk.files, Primary, state))
      ensures r.Err? && r.failure != IoFailure ==>
                repository.disk.files == old(repository.disk.files) && repository.disk.ops == old(repository.disk.ops)
      ensures old(Superseded(repository.disk.files, state)) ==> r.Err? && r.failure != IoFailure
      ensures published ==>
                Holds(repository.disk.files, Primary, AtRevision(next, expected + 1)) && Backup in repository.disk.files
      ensures !published ==> Recover(repository.disk.files) == Recover(old(repository.disk.files))
      ensures |CommitPoints(repository.disk.ops)| == |CommitPoints(old(repository.disk.ops))|
              + (if published then 1 else 0)
    {
      ghost var log := repository.disk.ops;
      AcceptedExactly(repository.disk.files, state, next);
      r, published := repository.Commit(next, expected);
      RecordedLater(log, repository.disk.ops, state);
    }

    /** Replace the durable state by its successor, or leave both memory and chain as they were. */
    method Commit(next: PersistentState) returns (r: Result<PersistentState>)
      requires Valid() && State.Valid(next)
      modifies this`state, repository.disk
      ensures repository.Counted(old(repository.disk.failures), r != Err(IoFailure))
      ensures SessionAnswers(old(closed), old(state), save, old(repository.disk.files), next, r,
                             repository.disk.failures != old(repository.disk.failures))
      ensures Valid() && old(repository.disk.ops) <= repository.disk.ops
      ensures r.Ok? ==>
                && !closed && old(Holds(repository.disk.files, Primary, state))
                && next.instanceId == old(state.instanceId) && next.binding == old(state.binding)
                && state == AtRevision(next, old(state.revision) + 1) == r.value
                && Holds(repository.disk.files, Primary, state)
      ensures r.Err? ==> state == old(state)
      ensures r.Err? && r.failure != IoFailure ==>
                repository.disk.files == old(repository.disk.files) && repository.disk.ops == old(repository.disk.ops)
      ensures old(Superseded(repository.disk.files, state)) ==>
                && r.Err? && Superseded(repository.disk.files, state)
                && repository.disk.files == old(repository.disk.files)
                && repository.disk.ops == old(repository.disk.ops)
      ensures CrashStates(repository.disk.ops, |old(repository.disk.ops)|,
                          {Recover(old(repository.disk.files)), Some(AtRevision(next, old(state.revision) + 1))})
      ensures r.Err? && Recover(repository.disk.files) != Recover(old(repository.disk.files)) ==>
                Superseded(repository.disk.files, state)
      ensures PublishesNext(repository.disk.ops, |old(repository.disk.ops)|, old(state), next)
    {
      ghost var log := repository.disk.ops;
      ghost var allowed := {Recover(repository.disk.files), Some(AtRevision(next, state.revision + 1))};
      ghost var published;
      ghost var current := !Superseded(repository.disk.files, state);
      r, published := Forward(next);
      assert Recover(repository.disk.files) in allowed;
      if current {
        OnePublication(log, repository.disk.ops, old(state), next);
      }
      OnePhase(log, repository.disk.ops, allowed);
    }

    /** Mark a clean shutdown if possible; the lease is given back whatever happens. */
    method Close(clean: bool) returns (r: Result<()>)
      requires Valid()
      modifies this, repository, repository.disk
      ensures Valid() && closed && old(repository.disk.ops) <= repository.disk.ops
      ensures old(closed) ==>
                r == Ok(()) && repository.locked == old(repository.locked)
                && state == old(state) && repository.disk.ops == old(repository.disk.ops)
      ensures !old(closed) ==> !repository.locked
      ensures old(Holds(repository.disk.files, Primary, state)) ==>
                r.Ok? || repository.disk.failures > old(repository.disk.failures)
      ensures clean && r.Ok? && !old(closed) ==>
                && state.cleanShutdown
                && (!old(state.cleanShutdown) ==> Holds(repository.disk.files, Primary, state))
      ensures !clean ==> r.Ok? && state == old(state) && repository.disk.ops == old(repository.disk.ops)
    {
      r := Ok(());
      if closed {
        return;
      }
      if clean && !state.cleanShutdown {
        assert State.Valid(state);
        var committed := Commit(state.(cleanShutdown := true));
        if committed.Err? {
          r := Err(committed.failure);
        }
      }
      closed := true;
      repository.locked := false;
    }
  }

  // ---- a session the disk moved on without ------------------------------------------------

  /** What can happen while a session is open: its own commits, new authorisations, and damage. */
  datatype Happening =
    | Attempt(next: PersistentState)
    | Authorise(identity: string, slot: Slot)
    | Harm(damage: Op)

  predicate CanStrike(files: Files, damage: Op) {
    match damage
    case Decay(name, content) => name in files && (content.Undecodable? || content.Incompatible?)
    case LosePrimary => Primary in files
    case _ => false
  }

  /** The file holds what it held, if it still decodes. */
  ghost predicate OnlyHarmed(before: Files, after: Files, name: FileName) {
    HoldsState(after, name) ==> SameAt(before, after, name)
  }

  ghost predicate StatesOnlyHarmed(before: Files, after: Files) {
    OnlyHarmed(before, after, Primary) && OnlyHarmed(before, after, Backup)
  }

  lemma OnlyHarmedTwice(a: Files, b: Files, c: Files)
    requires StatesOnlyHarmed(a, b) && StatesOnlyHarmed(b, c)
    ensures StatesOnlyHarmed(a, c)
  {}

  /** Every commit that was attempted failed. */
  ghost predicate AllRefused(happenings: seq<Happening>, results: seq<Option<Result<PersistentState>>>) {
    && |results| <= |happenings|
    && forall i :: 0 <= i < |results| && happenings[i].Attempt? ==> results[i].Some? && results[i].value.Err?
  }

  lemma OneMoreRefused(happenings: seq<Happening>, results: seq<Option<Result<PersistentState>>>,
                       result: Option<Result<PersistentState>>)
    requires AllRefused(happenings, results) && |results| < |happenings|
    requires happenings[|results|].Attempt? ==> result.Some? && result.value.Err?
    ensures AllRefused(happenings, results + [result])
  {}

  /** The disk moved on without this session, which does not know. */
  ghost predicate Outdated(session: StateSession, state: PersistentState)
    reads session, session.repository, session.repository.disk
  {
    forall s :: s == session ==> s.Valid() && s.state == state && Superseded(s.repository.disk.files, state)
  }

  /** A superseded session can never write again, whatever happens around its attempts. */
  method NeverWritesAgain(session: StateSession, happenings: seq<Happening>)
    returns (results: seq<Option<Result<PersistentState>>>)
    requires Outdated(session, session.state)
    requires forall i :: 0 <= i < |happenings| && happenings[i].Attempt? ==> State.Valid(happenings[i].next)
    modifies session`state, session.repository.disk
    ensures Outdated(session, old(session.state))
    ensures StatesOnlyHarmed(old(session.repository.disk.files), session.repository.disk.files)
    ensures |results| == |happenings| && AllRefused(happenings, results)
  {
    results := [];
    for i := 0 to |happenings|
      invariant Outdated(session, old(session.state))
      invariant StatesOnlyHarmed(old(session.repository.disk.files), session.repository.disk.files)
      invariant |results| == i && AllRefused(happenings, results)
    {
      ghost var before := session.repository.disk.files;
      var result := Endure(session, happenings[i]);
      OnlyHarmedTwice(old(session.repository.disk.files), before, session.repository.disk.files);
      OneMoreRefused(happenings, results, result);
      results := results + [result];
    }
  }

  method Endure(session: StateSession, happening: Happening) returns (result: Option<Result<PersistentState>>)
    requires Outdated(session, session.state)
    requires happening.Attempt? ==> State.Valid(happening.next)
    modifies session`state, session.repository.disk
    ensures Outdated(session, old(session.state))
    ensures StatesOnlyHarmed(old(session.repository.disk.files), session.repository.disk.files)
    ensures happening.Attempt? ==> result.Some? && result.value.Err?
  {
    result := None;
    ghost var log := session.repository.disk.ops;
    match happening
    case Attempt(next) =>
      var outcome := session.Commit(next);
      result := Some(outcome);
    case Authorise(identity, slot) =>
      var _ := session.repository.AuthorizeSaveIdentity(identity, slot);
      RecordedLater(log, session.repository.disk.ops, session.state);
    case Harm(damage) =>
      if CanStrike(session.repository.disk.files, damage) {
        DamageKeepsSessions(session.repository.disk.files, damage, session.state);
        session.repository.Suffer(damage);
        RecordedLater(log, session.repository.disk.ops, session.state);
      }
  }
}
