/**
  What holds in every directory a run can leave behind, whatever commits,
  crashes, refusals, recoveries and damage it went through.
*/
module History {
  import opened Sorting
  import opened State
  import opened Disk

  /** The state a restarted client would read: the files as one atomic cell. */
  function Recover(files: Files): Option<PersistentState> {
    if HoldsState(files, Primary) then Some(files[Primary].state)
    else if Primary in files && !files[Primary].Undecodable? then None
    else if HoldsState(files, Backup) then Some(files[Backup].state)
    else None
  }

  ghost predicate IsPublish(files: Files, op: Op) {
    op.Rename? && op.target == Primary && op.source in files && Publishes(files, op.source)
  }

  ghost predicate IsBegin(files: Files, op: Op) {
    op.Rename? && op.target == Primary && op.source in files && Begins(files, op.source)
  }

  /**
    The files refine one cell: apart from damage, an operation leaves the
    recovered state alone, replaces it by its successor, or creates the first one.
  */
  lemma RecoverStep(files: Files, op: Op)
    requires Legal(files, op) && !Damages(op)
    ensures !IsPublish(files, op) && !IsBegin(files, op) ==> Recover(Effect(files, op)) == Recover(files)
    ensures IsPublish(files, op) ==>
              && Recover(files) == Some(files[Primary].state)
              && Recover(Effect(files, op)) == Some(files[op.source].state)
              && Succeeds(files, files[Primary].state, files[op.source].state)
    ensures IsBegin(files, op) ==>
              && Recover(files).None?
              && Recover(Effect(files, op)) == Some(files[op.source].state)
  {}

  /** Operations that can change the recovered state. */
  predicate IsCommitPoint(op: Op) {
    (op.Rename? && op.target == Primary) || op.Decay? || op.LosePrimary?
  }

  function CommitPoints(ops: seq<Op>): seq<Op> {
    if ops == [] then []
    else
      var last := ops[|ops| - 1];
      CommitPoints(ops[..|ops| - 1]) + (if IsCommitPoint(last) then [last] else [])
  }

  lemma CommitPointsAppend(ops: seq<Op>, op: Op)
    ensures CommitPoints(ops + [op]) == CommitPoints(ops) + (if IsCommitPoint(op) then [op] else [])
  {
    assert (ops + [op])[..|ops|] == ops;
  }

  lemma {:induction false} CommitPointsGrow(ops: seq<Op>, j: nat, k: nat)
    requires j <= k <= |ops|
    ensures CommitPoints(ops[..j]) <= CommitPoints(ops[..k])
    decreases k - j
  {
    if j < k {
      CommitPointsGrow(ops, j, k - 1);
      assert ops[..k] == ops[..k - 1] + [ops[k - 1]];
      CommitPointsAppend(ops[..k - 1], ops[k - 1]);
    }
  }

  lemma {:induction false} RecoverBetweenCommitPoints(states: seq<Files>, ops: seq<Op>, j: nat, k: nat)
    requires Run(states, ops) && j <= k <= |ops|
    requires |CommitPoints(ops[..j])| == |CommitPoints(ops[..k])|
    ensures Recover(states[j]) == Recover(states[k])
    decreases k - j
  {
    if j < k {
      assert ops[..k] == ops[..k - 1] + [ops[k - 1]];
      CommitPointsAppend(ops[..k - 1], ops[k - 1]);
      CommitPointsGrow(ops, j, k - 1);
      RecoverBetweenCommitPoints(states, ops, j, k - 1);
      assert StepAt(states, ops, k - 1);
      RecoverStep(states[k - 1], ops[k - 1]);
    }
  }

  /**
    If a stretch of a run has at most one commit point, a crash anywhere in it
    leaves either what was there at its beginning or what is there at its end.
  */
  lemma CrashLeavesOldOrNew(states: seq<Files>, ops: seq<Op>, j: nat, k: nat)
    requires Run(states, ops) && j <= k <= |ops|
    requires |CommitPoints(ops)| <= |CommitPoints(ops[..j])| + 1
    ensures Recover(states[k]) == Recover(states[j]) || Recover(states[k]) == Recover(states[|ops|])
  {
    CommitPointsGrow(ops, j, k);
    CommitPointsGrow(ops, k, |ops|);
    assert ops[..|ops|] == ops;
    if |CommitPoints(ops[..k])| == |CommitPoints(ops[..j])| {
      RecoverBetweenCommitPoints(states, ops, j, k);
    } else {
      RecoverBetweenCommitPoints(states, ops, k, |ops|);
    }
  }

  /** Every directory logged from position `from` on recovers to one of these. */
  ghost predicate CrashStates(ops: seq<Op>, from: nat, allowed: set<Option<PersistentState>>) {
    forall k :: from <= k <= |ops| ==> Recover(Replay(ops[..k])) in allowed
  }

  lemma PhasesCompose(first: seq<Op>, second: seq<Op>, from: nat, allowed: set<Option<PersistentState>>)
    requires first <= second && CrashStates(first, from, allowed) && CrashStates(second, |first|, allowed)
    ensures CrashStates(second, from, allowed)
  {
    forall k | from <= k <= |second| ensures Recover(Replay(second[..k])) in allowed {
      if k <= |first| {
        assert second[..k] == first[..k];
      }
    }
  }

  lemma CrashAt(before: seq<Op>, after: seq<Op>, k: nat)
    requires LegalLog(after) && before <= after && |before| <= k <= |after|
    requires |CommitPoints(after)| <= |CommitPoints(before)| + 1
    ensures Recover(Replay(after[..k])) == Recover(Replay(before))
            || Recover(Replay(after[..k])) == Recover(Replay(after))
  {
    LogIsRun(after);
    assert after[..|before|] == before && after[..|after|] == after;
    CrashLeavesOldOrNew(StatesOf(after), after, |before|, k);
  }

  lemma OnePhase(before: seq<Op>, after: seq<Op>, allowed: set<Option<PersistentState>>)
    requires LegalLog(after) && before <= after
    requires |CommitPoints(after)| <= |CommitPoints(before)| + 1
    requires Recover(Replay(before)) in allowed && Recover(Replay(after)) in allowed
    ensures CrashStates(after, |before|, allowed)
  {
    forall k | |before| <= k <= |after| ensures Recover(Replay(after[..k])) in allowed {
      CrashAt(before, after, k);
    }
  }

  /** Two consecutive stretches with one commit point each. */
  lemma TwoPhases(first: seq<Op>, second: seq<Op>, third: seq<Op>, allowed: set<Option<PersistentState>>)
    requires LegalLog(second) && LegalLog(third) && first <= second <= third
    requires |CommitPoints(second)| <= |CommitPoints(first)| + 1
    requires |CommitPoints(third)| <= |CommitPoints(second)| + 1
    requires Recover(Replay(first)) in allowed && Recover(Replay(second)) in allowed
             && Recover(Replay(third)) in allowed
    ensures CrashStates(third, |first|, allowed)
  {
    OnePhase(first, second, allowed);
    OnePhase(second, third, allowed);
    PhasesCompose(second, third, |first|, allowed);
  }

  // ---- the backup trails by at most one revision -----------------------------

  ghost predicate BackupTrails(files: Files) {
    HoldsState(files, Primary) && HoldsState(files, Backup) ==>
      var p, b := files[Primary].state, files[Backup].state;
      && b.instanceId == p.instanceId
      && b.revision <= p.revision <= b.revision + 1
      && (b.binding == p.binding || b.binding.None?)
  }

  lemma {:induction false} BackupAlwaysTrails(states: seq<Files>, ops: seq<Op>, k: nat)
    requires Run(states, ops) && k < |states|
    ensures BackupTrails(states[k])
  {
    if k > 0 {
      BackupAlwaysTrails(states, ops, k - 1);
      assert StepAt(states, ops, k - 1);
    }
  }

  /**
    Losing or damaging the primary at any point of any run costs at most one
    revision of the same instance, or recovery refuses.
  */
  lemma DamagedPrimaryCostsOneRevision(states: seq<Files>, ops: seq<Op>, k: nat, damage: Op)
    requires Run(states, ops) && k < |states| && HoldsState(states[k], Primary)
    requires damage.LosePrimary? || (damage.Decay? && damage.name == Primary && Legal(states[k], damage))
    ensures var before, after := states[k][Primary].state, Recover(Effect(states[k], damage));
            after.Some? ==>
              && after.value.instanceId == before.instanceId
              && before.revision - 1 <= after.value.revision <= before.revision
              && (after.value.binding == before.binding || after.value.binding.None?)
    ensures Recover(Effect(states[k], damage)).Some? <==>
              HoldsState(states[k], Backup) && (damage.LosePrimary? || damage.content.Undecodable?)
  {
    BackupAlwaysTrails(states, ops, k);
  }

  // ---- one save identity, one slot -------------------------------------------

  ghost predicate IsGrant(op: Op) {
    op.Rename? && op.target == Authorization
  }

  /** The slot the save identity was authorised for during the first k operations. */
  ghost function AuthorisedBy(states: seq<Files>, ops: seq<Op>, k: nat): Option<Slot>
    requires Run(states, ops) && k < |states|
  {
    if k == 0 then None
    else if IsGrant(ops[k - 1]) then Some(GrantedSlot(states, ops, k))
    else AuthorisedBy(states, ops, k - 1)
  }

  ghost function GrantedSlot(states: seq<Files>, ops: seq<Op>, k: nat): Slot
    requires Run(states, ops) && 0 < k < |states| && IsGrant(ops[k - 1])
  {
    assert StepAt(states, ops, k - 1);
    states[k - 1][ops[k - 1].source].slot
  }

  ghost function AuthorisedSlot(log: seq<Op>): Option<Slot>
    requires LegalLog(log)
  {
    LogIsRun(log);
    AuthorisedBy(StatesOf(log), log, |log|)
  }

  ghost predicate BoundOnlyTo(files: Files, slot: Option<Slot>) {
    && (Authorization in files <==> slot.Some?)
    && (Authorization in files && files[Authorization].Granted? ==> Some(files[Authorization].slot) == slot)
    && (HoldsState(files, Primary) && files[Primary].state.binding.Some? ==> files[Primary].state.binding == slot)
    && (HoldsState(files, Backup) && files[Backup].state.binding.Some? ==> files[Backup].state.binding == slot)
  }

  lemma {:induction false} BindingAgreement(states: seq<Files>, ops: seq<Op>, k: nat)
    requires Run(states, ops) && k < |states|
    ensures BoundOnlyTo(states[k], AuthorisedBy(states, ops, k))
  {
    if k > 0 {
      BindingAgreement(states, ops, k - 1);
      assert StepAt(states, ops, k - 1);
    }
  }

  /** Authorisation is write-once: later operations never name another slot. */
  lemma {:induction false} AuthorisedForGood(states: seq<Files>, ops: seq<Op>, j: nat, k: nat)
    requires Run(states, ops) && j <= k < |states| && AuthorisedBy(states, ops, j).Some?
    ensures AuthorisedBy(states, ops, k) == AuthorisedBy(states, ops, j)
    decreases k - j
  {
    if j < k {
      AuthorisedForGood(states, ops, j, k - 1);
      BindingAgreement(states, ops, k - 1);
      assert StepAt(states, ops, k - 1);
    }
  }

  /** Two bound states recovered at any two points of a run carry the same slot. */
  lemma RecoveredBindingsAgree(states: seq<Files>, ops: seq<Op>, j: nat, k: nat)
    requires Run(states, ops) && j <= k < |states|
    requires Recover(states[j]).Some? && Recover(states[j]).value.binding.Some?
    requires Recover(states[k]).Some? && Recover(states[k]).value.binding.Some?
    ensures Recover(states[j]).value.binding == Recover(states[k]).value.binding == AuthorisedBy(states, ops, k)
  {
    BindingAgreement(states, ops, j);
    BindingAgreement(states, ops, k);
    AuthorisedForGood(states, ops, j, k);
  }

  // ---- a fresh state is created once --------------------------------------------

  ghost predicate IsArtifact(name: FileName) {
    name.CorruptPrimary? || name.CorruptBackup? || name.Interrupted?
  }

  /** A backup, or a file moved aside, survives everything that can follow. */
  ghost predicate Backed(files: Files) {
    Backup in files || exists n :: n in files && IsArtifact(n)
  }

  lemma BackedStep(files: Files, op: Op)
    requires Legal(files, op) && Backed(files)
    ensures Backed(Effect(files, op))
  {
    var after := Effect(files, op);
    if Backup in files {
      assert Backup !in after ==> op.target in after && IsArtifact(op.target);
    } else {
      var n :| n in files && IsArtifact(n);
      assert n in after;
    }
  }

  lemma {:induction false} BackedForGood(states: seq<Files>, ops: seq<Op>, j: nat, k: nat)
    requires Run(states, ops) && j <= k < |states| && Backed(states[j])
    ensures Backed(states[k])
    decreases k - j
  {
    if j < k {
      BackedForGood(states, ops, j, k - 1);
      assert StepAt(states, ops, k - 1);
      BackedStep(states[k - 1], ops[k - 1]);
    }
  }

  /** Once backed, no later operation creates a replacement, even if the primary is lost. */
  lemma NeverRecreatedOnceBacked(states: seq<Files>, ops: seq<Op>, j: nat, k: nat)
    requires Run(states, ops) && j <= k < |ops| && Backed(states[j])
    ensures !IsBegin(states[k], ops[k])
  {
    BackedForGood(states, ops, j, k);
    assert IsBegin(states[k], ops[k]) ==> forall n :: n in states[k] && IsArtifact(n) ==> n == ops[k].source;
    assert StepAt(states, ops, k);
  }

  lemma {:induction false} PublishedStaysKnown(states: seq<Files>, ops: seq<Op>, i: nat, k: nat)
    requires Run(states, ops) && i < k < |states| && IsBegin(states[i], ops[i])
    requires forall l :: i < l < k && ops[l].LosePrimary? ==> Backed(states[l])
    ensures Primary in states[k] || Backed(states[k])
    decreases k
  {
    assert StepAt(states, ops, k - 1);
    if i + 1 < k {
      PublishedStaysKnown(states, ops, i, k - 1);
      if Backed(states[k - 1]) {
        BackedStep(states[k - 1], ops[k - 1]);
      } else if Primary !in states[k] {
        assert ops[k - 1].target in states[k] && IsArtifact(ops[k - 1].target);
      }
    }
  }

  /** A second creation is possible only across a loss of a primary with no backup and nothing moved aside. */
  lemma CreatedOnce(states: seq<Files>, ops: seq<Op>, i: nat, j: nat)
    requires Run(states, ops) && i < j < |ops|
    requires IsBegin(states[i], ops[i]) && IsBegin(states[j], ops[j])
    ensures exists l :: i < l < j && ops[l].LosePrimary? && !Backed(states[l])
  {
    if forall l :: i < l < j && ops[l].LosePrimary? ==> Backed(states[l]) {
      PublishedStaysKnown(states, ops, i, j);
      if Backed(states[j]) {
        NeverRecreatedOnceBacked(states, ops, j, j);
      }
      assert false;
    }
  }

  /** A call leaves the temporaries it found alone, or sets them aside. */
  predicate Leaves(found: Files, op: Op) {
    && (op.Unlink? || op.Write? ==> op.name !in found || !op.name.Temp?)
    && (op.Rename? && op.source in found && op.source.Temp? ==> op.target.Interrupted?)
  }

  /** What calls do from here on, without damage, that ends in a creation. */
  ghost predicate Recreates(log: seq<Op>, more: seq<Op>) {
    && more != [] && LegalLog(log + more)
    && (forall i :: 0 <= i < |more| ==> !Damages(more[i]) && Leaves(Replay(log), more[i]))
    && IsBegin(Replay(log + more[..|more| - 1]), more[|more| - 1])
  }

  /** Nothing of an older state is left. */
  ghost predicate Blank(files: Files) {
    Primary !in files && !Backed(files) && forall n :: n in files ==> !n.Temp?
  }

  /** An older state, or a temporary found earlier, is left. */
  ghost predicate Blocked(found: Files, files: Files) {
    Primary in files || Backed(files) || exists n :: n in found && n in files && n.Temp?
  }

  lemma BlockedStays(found: Files, files: Files, op: Op)
    requires Legal(files, op) && !Damages(op) && Leaves(found, op) && Blocked(found, files)
    ensures Blocked(found, Effect(files, op)) && !IsBegin(files, op)
  {
    var after := Effect(files, op);
    if Backed(files) {
      BackedStep(files, op);
      NotBegunWhenBacked(files, op);
    } else if Primary in files {
      assert Primary !in after ==> op.target in after && IsArtifact(op.target);
    } else {
      var n :| n in found && n in files && n.Temp?;
      assert n !in after ==> op.target in after && IsArtifact(op.target);
    }
  }

  lemma BlockedOnce(found: Files, log: seq<Op>, l: nat)
    requires LegalLog(log) && l < |log| && !Damages(log[l]) && Leaves(found, log[l])
    requires Blocked(found, Replay(log[..l]))
    ensures Blocked(found, Replay(log[..l + 1])) && !IsBegin(Replay(log[..l]), log[l])
  {
    LoggedStep(log, l);
    BlockedStays(found, Replay(log[..l]), log[l]);
  }

  lemma {:induction false} BlockedBefore(found: Files, log: seq<Op>, from: nat, l: nat)
    requires LegalLog(log) && from <= l <= |log| && Blocked(found, Replay(log[..from]))
    requires forall i :: from <= i < |log| ==> !Damages(log[i]) && Leaves(found, log[i])
    ensures Blocked(found, Replay(log[..l]))
    decreases l
  {
    if from < l {
      BlockedBefore(found, log, from, l - 1);
      BlockedOnce(found, log, l - 1);
    }
  }

  lemma NotRecreated(log: seq<Op>, more: seq<Op>)
    requires Recreates(log, more)
    ensures Blank(Replay(log))
  {
    var whole, l := log + more, |log| + |more| - 1;
    assert whole[..|log|] == log && whole[..l] == log + more[..|more| - 1] && whole[l] == more[|more| - 1];
    if !Blank(Replay(log)) {
      BlockedBefore(Replay(log), whole, |log|, l);
      BlockedOnce(Replay(log), whole, l);
    }
  }

  lemma NotBegunWhenBacked(files: Files, op: Op)
    requires Backed(files) && Legal(files, op)
    ensures !IsBegin(files, op)
  {
    if Backup !in files {
      var n :| n in files && IsArtifact(n);
      assert IsQuarantineCandidate(n) && !n.Temp?;
    }
  }

  lemma BlankCanBegin(log: seq<Op>, s: PersistentState) returns (more: seq<Op>)
    requires LegalLog(log) && Blank(Replay(log)) && Valid(s) && s.revision == 0 && s.binding.None?
    ensures Recreates(log, more)
  {
    var create, write, rename := Create(Temp(0)), Write(Temp(0), Decoded(s)), Rename(Temp(0), Primary);
    var ready := log + [create] + [write];
    ReadyToBegin(log, s);
    LogAppend(ready, rename);
    more := [create, write, rename];
    assert log + more == ready + [rename] && log + more[..2] == ready;
  }

  lemma ReadyToBegin(log: seq<Op>, s: PersistentState)
    requires LegalLog(log) && Blank(Replay(log)) && Valid(s) && s.revision == 0 && s.binding.None?
    ensures var ready := log + [Create(Temp(0))] + [Write(Temp(0), Decoded(s))];
            && LegalLog(ready) && Replay(ready) == Replay(log)[Temp(0) := Decoded(s)]
            && Begins(Replay(ready), Temp(0))
  {
    var files, create, write := Replay(log), Create(Temp(0)), Write(Temp(0), Decoded(s));
    LogAppend(log, create);
    LogAppend(log + [create], write);
    assert Replay(log + [create] + [write]) == files[Temp(0) := Decoded(s)];
    TemporaryCanBegin(files, s);
  }

  lemma TemporaryCanBegin(files: Files, s: PersistentState)
    requires Blank(files) && s.revision == 0 && s.binding.None?
    ensures Begins(files[Temp(0) := Decoded(s)], Temp(0))
  {
    var ready := files[Temp(0) := Decoded(s)];
    forall n | n in ready && IsQuarantineCandidate(n) ensures n == Temp(0) {
      assert n in files ==> !IsArtifact(n);
    }
  }

  /**
    Exactly when calls can create a fresh state from here on without damage: there
    is no primary, no backup, no file that was moved aside, and no temporary.
  */
  lemma RecreatedExactly(log: seq<Op>, s: PersistentState)
    requires LegalLog(log) && Valid(s) && s.revision == 0 && s.binding.None?
    ensures (exists more :: Recreates(log, more)) <==> Blank(Replay(log))
  {
    if Blank(Replay(log)) {
      var more := BlankCanBegin(log, s);
    } else if exists more :: Recreates(log, more) {
      var more :| Recreates(log, more);
      NotRecreated(log, more);
    }
  }

  /** Losing the primary makes that possible exactly where nothing backs it and no write was interrupted. */
  lemma LossRecreatesExactly(log: seq<Op>, s: PersistentState)
    requires LegalLog(log) && Primary in Replay(log) && Valid(s) && s.revision == 0 && s.binding.None?
    ensures (exists more :: Recreates(log + [LosePrimary], more)) <==>
              !Backed(Replay(log)) && forall n :: n in Replay(log) ==> !n.Temp?
  {
    LogAppend(log, LosePrimary);
    RecreatedExactly(log + [LosePrimary], s);
    var files, after := Replay(log), Replay(log + [LosePrimary]);
    assert forall n :: IsArtifact(n) || n.Temp? ==> (n in files <==> n in after);
  }

  /** Such a loss in a run: created, lost before the first commit, created again. */
  lemma LossBeforeBackupRecreates(save: NativeSave, first: string, second: string)
    returns (states: seq<Files>, ops: seq<Op>)
    requires ValidSave(save) && IsUuid(first) && IsUuid(second)
    ensures Run(states, ops) && |ops| == 7
    ensures IsBegin(states[2], ops[2]) && ops[3].LosePrimary? && IsBegin(states[6], ops[6])
  {
    var a, b := Decoded(CreateUnbound(save, first)), Decoded(CreateUnbound(save, second));
    ops := [Create(Temp(0)), Write(Temp(0), a), Rename(Temp(0), Primary), LosePrimary,
            Create(Temp(1)), Write(Temp(1), b), Rename(Temp(1), Primary)];
    states := [map[], map[Temp(0) := Undecodable], map[Temp(0) := a], map[Primary := a], map[],
               map[Temp(1) := Undecodable], map[Temp(1) := b], map[Primary := b]];
  }

  /** Any state past its creation, bound ones included, is backed. */
  lemma {:induction false} CommittedIsBacked(states: seq<Files>, ops: seq<Op>, k: nat)
    requires Run(states, ops) && k < |states|
    ensures HoldsState(states[k], Primary)
            && (states[k][Primary].state.revision > 0 || states[k][Primary].state.binding.Some?)
            ==> Backed(states[k])
  {
    if k > 0 {
      CommittedIsBacked(states, ops, k - 1);
      assert StepAt(states, ops, k - 1);
      if Backed(states[k - 1]) {
        BackedStep(states[k - 1], ops[k - 1]);
      }
    }
  }

  /**
    Once a bound state has been published, every later bound state has its slot
    and the save identity is never given a fresh state again.
  */
  lemma SettledForGood(log: seq<Op>, longer: seq<Op>, s: PersistentState)
    requires LegalLog(log) && LegalLog(longer) && log <= longer
    requires Holds(Replay(log), Primary, s) && s.binding.Some?
    ensures Recover(Replay(longer)).Some? && Recover(Replay(longer)).value.binding.Some? ==>
              Recover(Replay(longer)).value.binding == s.binding
    ensures forall k :: |log| <= k < |longer| ==> !IsBegin(Replay(longer[..k]), longer[k])
  {
    LogIsRun(longer);
    var states := StatesOf(longer);
    assert longer[..|log|] == log && states[|log|] == Replay(log);
    CommittedIsBacked(states, longer, |log|);
    if Recover(Replay(longer)).Some? && Recover(Replay(longer)).value.binding.Some? {
      RecoveredBindingsAgree(states, longer, |log|, |longer|);
    }
    forall k | |log| <= k < |longer| ensures !IsBegin(Replay(longer[..k]), longer[k]) {
      NeverBegunAgain(longer, |log|, k);
    }
  }

  lemma NeverBegunAgain(log: seq<Op>, j: nat, k: nat)
    requires LegalLog(log) && j <= k < |log| && Backed(Replay(log[..j]))
    ensures !IsBegin(Replay(log[..k]), log[k])
  {
    LogIsRun(log);
    NeverRecreatedOnceBacked(StatesOf(log), log, j, k);
  }

  // ---- one linear chain of commits -------------------------------------------------

  ghost predicate AllOfInstance(files: Files, id: string) {
    && (HoldsState(files, Primary) ==> files[Primary].state.instanceId == id)
    && (HoldsState(files, Backup) ==> files[Backup].state.instanceId == id)
  }

  lemma {:induction false} OneInstance(states: seq<Files>, ops: seq<Op>, j: nat, k: nat, id: string)
    requires Run(states, ops) && j <= k < |states| && AllOfInstance(states[j], id)
    requires forall l :: j <= l < k ==> !IsBegin(states[l], ops[l])
    ensures AllOfInstance(states[k], id)
    decreases k - j
  {
    if j < k {
      OneInstance(states, ops, j, k - 1, id);
      assert StepAt(states, ops, k - 1);
    }
  }

  function Trimmed(chain: seq<PersistentState>, now: Option<PersistentState>): seq<PersistentState> {
    if now.Some? && chain != [] && chain[|chain| - 1] != now.value then chain[..|chain| - 1] else chain
  }

  /**
    The states committed so far, oldest first. A first state starts a chain, a
    commit extends it, and damage that forces a fallback drops its last element.
  */
  ghost function Chain(states: seq<Files>, ops: seq<Op>, k: nat): seq<PersistentState>
    requires Run(states, ops) && k < |states|
  {
    if k == 0 then []
    else
      var before, op := states[k - 1], ops[k - 1];
      var chain := Chain(states, ops, k - 1);
      if IsBegin(before, op) then [before[op.source].state]
      else if IsPublish(before, op) then chain + [before[op.source].state]
      else if Damages(op) then Trimmed(chain, Recover(states[k]))
      else chain
  }

  /** Same instance, revisions counting from zero, and at most one change of binding. */
  ghost predicate Linear(chain: seq<PersistentState>) {
    && (forall i :: 0 <= i < |chain| ==>
          chain[i].revision == i && chain[i].instanceId == chain[0].instanceId)
    && (forall i :: 0 < i < |chain| ==>
          chain[i].binding == chain[i - 1].binding || chain[i - 1].binding.None?)
  }

  ghost predicate ChainCovers(chain: seq<PersistentState>, files: Files) {
    && Linear(chain)
    && (Recover(files).Some? ==> chain != [] && Recover(files).value == chain[|chain| - 1])
    && (HoldsState(files, Backup) ==>
          && chain != []
          && (|| files[Backup].state == chain[|chain| - 1]
              || (|chain| > 1 && files[Backup].state == chain[|chain| - 2])))
  }

  lemma ChainPublish(chain: seq<PersistentState>, files: Files, op: Op)
    requires ChainCovers(chain, files) && Legal(files, op) && IsPublish(files, op)
    ensures ChainCovers(chain + [files[op.source].state], Effect(files, op))
  {
    var next := files[op.source].state;
    var longer := chain + [next];
    assert chain[|chain| - 1] == files[Primary].state;
    assert Linear(longer) by {
      assert forall i :: 0 <= i < |chain| ==> longer[i] == chain[i];
      assert next.instanceId == chain[0].instanceId && next.revision == |chain|;
    }
  }

  lemma ChainDamage(chain: seq<PersistentState>, files: Files, op: Op)
    requires ChainCovers(chain, files) && Legal(files, op) && Damages(op)
    ensures ChainCovers(Trimmed(chain, Recover(Effect(files, op))), Effect(files, op))
  {
    var after := Effect(files, op);
    var kept := Trimmed(chain, Recover(after));
    assert Linear(kept);
    assert HoldsState(after, Backup) ==> HoldsState(files, Backup) && after[Backup] == files[Backup];
    assert HoldsState(after, Primary) ==> HoldsState(files, Primary) && after[Primary] == files[Primary];
  }

  lemma ChainKeep(chain: seq<PersistentState>, files: Files, op: Op)
    requires ChainCovers(chain, files) && Legal(files, op)
    requires !IsBegin(files, op) && !IsPublish(files, op) && !Damages(op)
    ensures ChainCovers(chain, Effect(files, op))
  {
    RecoverStep(files, op);
    var after := Effect(files, op);
    assert HoldsState(after, Backup) ==>
        || (HoldsState(files, Backup) && after[Backup] == files[Backup])
        || (HoldsState(files, Primary) && after[Backup] == files[Primary]);
  }

  /**
    At every point of every run the committed states form one linear chain and
    the files recover to its end.
  */
  lemma {:induction false} CommitsFormOneChain(states: seq<Files>, ops: seq<Op>, k: nat)
    requires Run(states, ops) && k < |states|
    ensures ChainCovers(Chain(states, ops, k), states[k])
  {
    if k > 0 {
      CommitsFormOneChain(states, ops, k - 1);
      var chain, before, op := Chain(states, ops, k - 1), states[k - 1], ops[k - 1];
      assert StepAt(states, ops, k - 1);
      if IsBegin(before, op) {
        assert Linear([before[op.source].state]);
      } else if IsPublish(before, op) {
        ChainPublish(chain, before, op);
      } else if Damages(op) {
        ChainDamage(chain, before, op);
      } else {
        ChainKeep(chain, before, op);
      }
    }
  }

  // ---- what was durable once stays durable, damage apart --------------------------------

  ghost predicate Checks(s: Option<PersistentState>, location: int) {
    s.Some? && location in Elements(s.value.checked)
  }

  /** A commit that forgets no checked location, as every client commit is. */
  ghost predicate KeepsChecks(files: Files, op: Op) {
    IsPublish(files, op) ==> Elements(files[Primary].state.checked) <= Elements(files[op.source].state.checked)
  }

  /**
    A location that was durable at some point of a log is recovered after any crash
    of any continuation, until damage intervenes.
  */
  lemma {:induction false} DurableUntilDamaged(log: seq<Op>, j: nat, k: nat, location: int)
    requires LegalLog(log) && j <= k <= |log| && Checks(Recover(Replay(log[..j])), location)
    requires forall l :: j <= l < k ==> !Damages(log[l]) && KeepsChecks(Replay(log[..l]), log[l])
    ensures Checks(Recover(Replay(log[..k])), location)
    decreases k - j
  {
    if j < k {
      DurableUntilDamaged(log, j, k - 1, location);
      LoggedStep(log, k - 1);
      RecoverStep(Replay(log[..k - 1]), log[k - 1]);
    }
  }

  /**
    The damage reaches the file that is read, and no copy that has the location is
    read instead: it hides the backup, or finds none with the location in it.
  */
  predicate Costs(files: Files, damage: Op, location: int) {
    if HoldsState(files, Primary) then
      && (damage.LosePrimary? || (damage.Decay? && damage.name == Primary))
      && (|| (damage.Decay? && damage.content.Incompatible?)
          || !HoldsState(files, Backup)
          || location !in Elements(files[Backup].state.checked))
    else
      damage.Decay? && (damage.name == Backup || (damage.name == Primary && damage.content.Incompatible?))
  }

  /**
    Which damage takes a durable location away can be read off the directory it
    meets; if a state is recovered all the same, it is the copy one revision back.
  */
  lemma LostExactlyWithItsRevision(states: seq<Files>, ops: seq<Op>, k: nat, damage: Op, location: int)
    requires Run(states, ops) && k < |states| && Checks(Recover(states[k]), location)
    requires Damages(damage) && Legal(states[k], damage)
    ensures var before, after := Recover(states[k]).value, Recover(Effect(states[k], damage));
            && (!Checks(after, location) <==> Costs(states[k], damage, location))
            && (!Checks(after, location) && after.Some? ==>
                  after.value.instanceId == before.instanceId && after.value.revision == before.revision - 1)
  {
    CommitsFormOneChain(states, ops, k);
    var chain := Chain(states, ops, k);
    assert Recover(states[k]).value == chain[|chain| - 1];
  }
}
