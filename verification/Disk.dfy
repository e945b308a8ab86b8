/**
  The files that belong to one native save, as raw file operations see them.

  Every operation is logged together with the directory contents after it. A
  process can die after any operation, so the logged contents are exactly the
  directories a restarted client may find.
*/
module Disk {
  import opened State

  datatype FileName =
    | Primary
    | Backup
    | Temp(id: nat)
    | Interrupted(id: nat)
    | CorruptPrimary(id: nat)
    | CorruptBackup(id: nat)
    | Authorization
    | AuthorizationTemp(id: nat)

  /** `Undecodable` also stands for a file that cannot be read. */
  datatype Content =
    | Undecodable
    | Incompatible
    | Decoded(state: PersistentState)
    | Granted(identity: string, slot: Slot)

  type Files = map<FileName, Content>

  datatype Op =
    | Create(name: FileName)
    | Write(name: FileName, content: Content)
    | Unlink(name: FileName)
    | Rename(source: FileName, target: FileName)
      // The environment: damage at rest, and loss of the primary.
    | Decay(name: FileName, content: Content)
    | LosePrimary

  function Effect(files: Files, op: Op): Files {
    match op
    case Create(name) => files[name := Undecodable]
    case Write(name, content) => files[name := content]
    case Unlink(name) => files - {name}
    case Rename(source, target) =>
      if source in files then (files - {source})[target := files[source]] else files
    case Decay(name, content) => files[name := content]
    case LosePrimary => files - {Primary}
  }

  predicate Holds(files: Files, name: FileName, state: PersistentState) {
    name in files && files[name] == Decoded(state)
  }

  predicate HoldsState(files: Files, name: FileName) {
    name in files && files[name].Decoded?
  }

  predicate IsScratch(name: FileName) {
    name.Temp? || name.AuthorizationTemp?
  }

  /** Names whose presence forbids creating a replacement state. */
  predicate IsQuarantineCandidate(name: FileName) {
    name.CorruptPrimary? || name.CorruptBackup? || name.Temp? || name.Interrupted?
  }

  /** The authorised binding: unchanged, or a first binding that was granted. */
  predicate BindingAllowed(files: Files, before: PersistentState, after: PersistentState) {
    || after.binding == before.binding
    || (&& before.binding.None? && after.binding.Some?
        && Authorization in files
        && files[Authorization] == Granted(after.saveIdentity, after.binding.value))
  }

  predicate Succeeds(files: Files, before: PersistentState, after: PersistentState) {
    && after.instanceId == before.instanceId
    && after.revision == before.revision + 1
    && BindingAllowed(files, before, after)
  }

  /** The primary is replaced by its successor, the backup already holding the old primary. */
  predicate Publishes(files: Files, source: FileName) {
    && HoldsState(files, source) && HoldsState(files, Primary)
    && Holds(files, Backup, files[Primary].state)
    && Succeeds(files, files[Primary].state, files[source].state)
  }

  /** A missing primary is rebuilt from the backup. */
  predicate Restores(files: Files, source: FileName) {
    && HoldsState(files, source)
    && Primary !in files
    && Holds(files, Backup, files[source].state)
  }

  /** A first state is published; nothing but its own temporary may look like an older state. */
  ghost predicate Begins(files: Files, source: FileName) {
    && HoldsState(files, source)
    && files[source].state.revision == 0 && files[source].state.binding.None?
    && Primary !in files && Backup !in files
    && forall n :: n in files && IsQuarantineCandidate(n) ==> n == source
  }

  ghost predicate LegalRename(files: Files, source: FileName, target: FileName) {
    && source in files
    && match (source, target)
       case (Temp(_), Primary) => Publishes(files, source) || Restores(files, source) || Begins(files, source)
       case (Temp(_), Backup) => HoldsState(files, Primary) && Holds(files, source, files[Primary].state)
       case (Temp(_), Interrupted(_)) => target !in files
       case (Primary, CorruptPrimary(_)) => target !in files && files[Primary] == Undecodable
       case (Backup, CorruptBackup(_)) => target !in files && files[Backup] == Undecodable
       case (AuthorizationTemp(_), Authorization) => Authorization !in files && files[source].Granted?
       case _ => false
  }

  /** What the repository ever does to the directory, and what the environment may do. */
  ghost predicate Legal(files: Files, op: Op) {
    match op
    case Create(name) => IsScratch(name) && name !in files
    case Write(name, content) =>
      && IsScratch(name) && name in files
      && (content.Decoded? ==> Valid(content.state))
      && (content.Granted? <==> name.AuthorizationTemp?)
    case Unlink(name) => IsScratch(name)
    case Rename(source, target) => LegalRename(files, source, target)
    case Decay(name, content) => name in files && (content.Undecodable? || content.Incompatible?)
    case LosePrimary => Primary in files
  }

  ghost predicate Damages(op: Op) {
    op.Decay? || op.LosePrimary?
  }

  ghost predicate StepAt(states: seq<Files>, ops: seq<Op>, i: int)
    requires |states| == |ops| + 1 && 0 <= i < |ops|
  {
    Legal(states[i], ops[i]) && states[i + 1] == Effect(states[i], ops[i])
  }

  /** A history of one save directory that started empty. */
  ghost predicate Run(states: seq<Files>, ops: seq<Op>) {
    && |states| == |ops| + 1
    && states[0] == map[]
    && forall i :: 0 <= i < |ops| ==> StepAt(states, ops, i)
  }

  /** The directory after these operations, started empty. */
  ghost function Replay(ops: seq<Op>): Files {
    if ops == [] then map[] else Effect(Replay(ops[..|ops| - 1]), ops[|ops| - 1])
  }

  ghost predicate LegalLog(ops: seq<Op>) {
    ops == [] ||
    (LegalLog(ops[..|ops| - 1]) && Legal(Replay(ops[..|ops| - 1]), ops[|ops| - 1]))
  }

  lemma LogAppend(ops: seq<Op>, op: Op)
    requires LegalLog(ops) && Legal(Replay(ops), op)
    ensures LegalLog(ops + [op]) && Replay(ops + [op]) == Effect(Replay(ops), op)
  {
    assert (ops + [op])[..|ops|] == ops;
  }

  lemma {:induction false} LogPrefix(ops: seq<Op>, k: nat)
    requires LegalLog(ops) && k <= |ops|
    ensures LegalLog(ops[..k])
  {
    if k < |ops| {
      LogPrefix(ops[..|ops| - 1], k);
      assert ops[..|ops| - 1][..k] == ops[..k];
    } else {
      assert ops[..k] == ops;
    }
  }

  ghost function StatesOf(ops: seq<Op>): seq<Files> {
    seq(|ops| + 1, k requires 0 <= k <= |ops| => Replay(ops[..k]))
  }

  lemma LoggedStep(ops: seq<Op>, i: nat)
    requires LegalLog(ops) && i < |ops|
    ensures Legal(Replay(ops[..i]), ops[i]) && Replay(ops[..i + 1]) == Effect(Replay(ops[..i]), ops[i])
  {
    LogPrefix(ops, i + 1);
    assert ops[..i + 1][..i] == ops[..i];
  }

  /** The log of operations determines a run. */
  lemma LogIsRun(ops: seq<Op>)
    requires LegalLog(ops)
    ensures Run(StatesOf(ops), ops) && StatesOf(ops)[|ops|] == Replay(ops)
  {
    assert ops[..|ops|] == ops;
    forall i | 0 <= i < |ops| ensures StepAt(StatesOf(ops), ops, i) {
      LoggedStep(ops, i);
    }
  }

  function NumberOf(name: FileName): nat {
    match name
    case Primary => 0
    case Backup => 0
    case Authorization => 0
    case Temp(id) => id
    case Interrupted(id) => id
    case CorruptPrimary(id) => id
    case CorruptBackup(id) => id
    case AuthorizationTemp(id) => id
  }

  class Directory {
    var files: Files
    /** Fresh suffixes for temporary and quarantined names. */
    var counter: nat
    ghost var ops: seq<Op>
    /** How many operations raised. */
    ghost var failures: nat

    ghost predicate Valid()
      reads this`files, this`counter, this`ops
    {
      && LegalLog(ops) && files == Replay(ops)
      && forall n :: n in files && (IsScratch(n) || IsQuarantineCandidate(n)) ==> NumberOf(n) < counter
    }

    constructor ()
      ensures Valid() && files == map[] && ops == []
    {
      files, counter := map[], 0;
      ops, failures := [], 0;
    }

    method FreshNumber() returns (n: nat)
      requires Valid()
      modifies this`counter
      ensures Valid()
      ensures old(counter) == n && counter == n + 1
    {
      n := counter;
      counter := counter + 1;
    }

    /** One file operation: it happens entirely, or it raises and nothing changes. */
    method Perform(op: Op) returns (ok: bool)
      requires Valid() && Legal(files, op)
      requires op.Create? ==> NumberOf(op.name) < counter
      requires op.Rename? ==> NumberOf(op.target) < counter || !IsQuarantineCandidate(op.target)
      modifies this`files, this`ops, this`failures
      ensures Valid()
      ensures failures == old(failures) + if ok then 0 else 1
      ensures ok ==> files == Effect(old(files), op) && ops == old(ops) + [op]
      ensures !ok ==> files == old(files) && ops == old(ops)
    {
      ok := *;
      if ok {
        LogAppend(ops, op);
        files := Effect(files, op);
        ops := ops + [op];
      } else {
        failures := failures + 1;
      }
    }
  }
}
