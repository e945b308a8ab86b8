/**
  Installing bridge sources and proving them active. A marker file is written
  before any source is replaced and removed only once the game has shown that
  it runs what is on disk, so a crash anywhere in between is never forgotten.
*/
module Install {
  import opened State

  type Content = string

  datatype Path = Module(index: nat) | Manifest | Types | Project | Marker

  type Files = map<Path, Content>

  /** The declared sources: every module and the manifest. */
  predicate IsSource(p: Path) {
    p.Module? || p.Manifest?
  }

  function SourcesOf(files: Files): Files {
    map p | p in files && IsSource(p) :: files[p]
  }

  datatype Moment = Moment(files: Files, proven: Files)

  /** Whatever differs from what was last proven active is marked. */
  predicate Marked(m: Moment) {
    SourcesOf(m.files) != m.proven ==> Marker in m.files
  }

  ghost predicate SameBut(a: Files, b: Files, p: Path) {
    a - {p} == b - {p}
  }

  /** One atomic step: a single file changed, or only what counts as proven did. */
  ghost predicate OneStep(a: Moment, b: Moment) {
    (a.proven == b.proven && exists p :: SameBut(a.files, b.files, p)) || a.files == b.files
  }

  /** Everything a crash could have left behind so far: each moment one step on, and each of them marked. */
  ghost predicate History(moments: seq<Moment>) {
    && moments != []
    && (forall i :: 0 <= i < |moments| ==> Marked(moments[i]))
    && (forall i :: 0 <= i < |moments| - 1 ==> OneStep(moments[i], moments[i + 1]))
  }

  lemma HistoryGrows(moments: seq<Moment>, m: Moment)
    requires History(moments) && Marked(m) && OneStep(moments[|moments| - 1], m)
    ensures History(moments + [m])
  {}

  /** A source set to install. */
  datatype Bundle = Bundle(modules: seq<Content>, manifest: Content, types: Content, project: Content, hash: Content)

  predicate IsPath(b: Bundle, p: Path) {
    p.Module? ==> p.index < |b.modules|
  }

  function Wanted(b: Bundle, p: Path): Content
    requires IsPath(b, p)
  {
    match p
    case Module(i) => b.modules[i]
    case Manifest => b.manifest
    case Types => b.types
    case Project => b.project
    case Marker => b.hash
  }

  predicate Differs(files: Files, b: Bundle, p: Path)
    requires IsPath(b, p)
  {
    p !in files || files[p] != Wanted(b, p)
  }

  /** The places that have to change, in the order they are written. */
  function Changes(files: Files, b: Bundle): (c: seq<Path>)
    ensures forall p :: p in c <==> IsPath(b, p) && p != Marker && Differs(files, b, p)
  {
    ModuleChanges(files, b, |b.modules|)
    + (if Differs(files, b, Manifest) then [Manifest] else [])
    + (if Differs(files, b, Types) then [Types] else [])
    + (if Differs(files, b, Project) then [Project] else [])
  }

  function ModuleChanges(files: Files, b: Bundle, n: nat): (c: seq<Path>)
    requires n <= |b.modules|
    ensures forall p :: p in c <==> p.Module? && p.index < n && Differs(files, b, p)
  {
    if n == 0 then []
    else ModuleChanges(files, b, n - 1) + (if Differs(files, b, Module(n - 1)) then [Module(n - 1)] else [])
  }

  predicate Obliges(c: seq<Path>) {
    exists i :: 0 <= i < |c| && IsSource(c[i])
  }

  /** Every path as the bundle wants it. */
  ghost predicate Holds(files: Files, b: Bundle) {
    forall p :: IsPath(b, p) && p != Marker ==> p in files && files[p] == Wanted(b, p)
  }

  /** The same, place by place. */
  ghost predicate InPlace(files: Files, b: Bundle) {
    && (forall i :: 0 <= i < |b.modules| ==> Carries(files, Module(i), b.modules[i]))
    && Carries(files, Manifest, b.manifest) && Carries(files, Types, b.types) && Carries(files, Project, b.project)
  }

  predicate Carries(files: Files, p: Path, content: Content) {
    p in files && files[p] == content
  }

  lemma HoldsExactly(files: Files, b: Bundle)
    ensures Holds(files, b) <==> InPlace(files, b)
  {
    if InPlace(files, b) {
      forall p | IsPath(b, p) && p != Marker ensures p in files && files[p] == Wanted(b, p) {
        if p.Module? {
          assert Carries(files, Module(p.index), b.modules[p.index]);
        }
      }
    }
    if Holds(files, b) {
      forall i | 0 <= i < |b.modules| ensures Carries(files, Module(i), b.modules[i]) {
        assert IsPath(b, Module(i));
      }
      assert IsPath(b, Manifest) && IsPath(b, Types) && IsPath(b, Project);
    }
  }

  /** An install obliges to a reload exactly if a module or the manifest is not in place yet. */
  lemma ObligesExactly(files: Files, b: Bundle)
    ensures Obliges(Changes(files, b)) <==>
              !((forall i :: 0 <= i < |b.modules| ==> Carries(files, Module(i), b.modules[i]))
                && Carries(files, Manifest, b.manifest))
  {
    var c := Changes(files, b);
    if Obliges(c) {
      var i :| 0 <= i < |c| && IsSource(c[i]);
      assert c[i] in c && Differs(files, b, c[i]);
    }
    forall p | IsPath(b, p) && IsSource(p) && Differs(files, b, p) ensures Obliges(c) {
      var i :| 0 <= i < |c| && c[i] == p;
    }
    forall i | 0 <= i < |b.modules| && !Carries(files, Module(i), b.modules[i]) ensures Obliges(c) {
      assert Differs(files, b, Module(i));
    }
  }

  /** Modules in their order, then the manifest, the types, and the project file. */
  predicate Precedes(p: Path, q: Path) {
    match p
    case Module(i) => q.Module? ==> i < q.index
    case Manifest => q.Types? || q.Project?
    case Types => q.Project?
    case _ => false
  }

  ghost predicate InOrder(c: seq<Path>) {
    forall i, j :: 0 <= i < j < |c| ==> Precedes(c[i], c[j])
  }

  lemma ChangesInOrder(files: Files, b: Bundle)
    ensures InOrder(Changes(files, b))
  {
    ModulesInOrder(files, b, |b.modules|);
    var modules := ModuleChanges(files, b, |b.modules|);
    assert forall p :: p in modules ==> p.Module?;
    var declared := modules + (if Differs(files, b, Manifest) then [Manifest] else []);
    var typed := declared + (if Differs(files, b, Types) then [Types] else []);
    if Differs(files, b, Manifest) {
      OneMoreInOrder(modules, Manifest);
    }
    if Differs(files, b, Types) {
      OneMoreInOrder(declared, Types);
    }
    if Differs(files, b, Project) {
      OneMoreInOrder(typed, Project);
    }
  }

  lemma OneMoreInOrder(c: seq<Path>, p: Path)
    requires InOrder(c) && forall q :: q in c ==> Precedes(q, p)
    ensures InOrder(c + [p])
  {
    var longer := c + [p];
    forall i, j | 0 <= i < j < |longer| ensures Precedes(longer[i], longer[j]) {
      assert longer[i] == c[i] && c[i] in c;
      assert j < |c| ==> longer[j] == c[j];
    }
  }

  lemma {:induction false} ModulesInOrder(files: Files, b: Bundle, n: nat)
    requires n <= |b.modules|
    ensures InOrder(ModuleChanges(files, b, n))
  {
    if n > 0 {
      ModulesInOrder(files, b, n - 1);
      if Differs(files, b, Module(n - 1)) {
        OneMoreInOrder(ModuleChanges(files, b, n - 1), Module(n - 1));
      }
    }
  }

  ghost predicate AllPaths(b: Bundle, changes: seq<Path>) {
    forall i :: 0 <= i < |changes| ==> IsPath(b, changes[i])
  }

  ghost predicate Written(files: Files, b: Bundle, changes: seq<Path>)
    requires AllPaths(b, changes)
  {
    forall i :: 0 <= i < |changes| ==> changes[i] in files && files[changes[i]] == Wanted(b, changes[i])
  }

  /** Nothing but these paths, and perhaps the marker, changed. */
  ghost predicate OnlyThese(before: Files, after: Files, changes: seq<Path>) {
    forall p :: p !in changes && p != Marker ==> (p in after <==> p in before) && (p in after ==> after[p] == before[p])
  }

  lemma WrittenHolds(before: Files, after: Files, b: Bundle)
    requires AllPaths(b, Changes(before, b)) && Written(after, b, Changes(before, b))
             && OnlyThese(before, after, Changes(before, b))
    ensures Holds(after, b)
  {
    var changes := Changes(before, b);
    forall p | IsPath(b, p) && p != Marker ensures p in after && after[p] == Wanted(b, p) {
      if p in changes {
        var i :| 0 <= i < |changes| && changes[i] == p;
        assert p in after && after[p] == Wanted(b, p);
      } else {
        assert !Differs(before, b, p);
      }
    }
  }

  /** The files after the first k changes. */
  ghost function Progress(files: Files, b: Bundle, changes: seq<Path>, k: nat): Files
    requires AllPaths(b, changes) && k <= |changes|
  {
    if k == 0 then files else Progress(files, b, changes, k - 1)[changes[k - 1] := Wanted(b, changes[k - 1])]
  }

  lemma {:induction false} ProgressWrites(files: Files, b: Bundle, changes: seq<Path>, k: nat)
    requires AllPaths(b, changes) && k <= |changes|
    ensures forall i :: 0 <= i < k ==>
              changes[i] in Progress(files, b, changes, k)
              && Progress(files, b, changes, k)[changes[i]] == Wanted(b, changes[i])
    ensures forall p :: p !in changes ==> SameAt(Progress(files, b, changes, k), files, p)
  {
    if k > 0 {
      ProgressWrites(files, b, changes, k - 1);
    }
  }

  /** The moments of k changes, one file at a time and in this order. */
  ghost predicate StepsOf(moments: seq<Moment>, files: Files, proven: Files, b: Bundle, changes: seq<Path>)
    requires AllPaths(b, changes) && |moments| <= |changes|
  {
    forall i :: 0 <= i < |moments| ==> moments[i] == Moment(Progress(files, b, changes, i + 1), proven)
  }

  ghost predicate SameAt(a: Files, b: Files, p: Path) {
    (p in a <==> p in b) && (p in a ==> a[p] == b[p])
  }

  class Installation {
    var files: Files
    /** The sources last proven active, and every moment so far, the present one last. */
    ghost var proven: Files
    ghost var moments: seq<Moment>
    /** How many file operations reported a failure. */
    ghost var failures: nat

    ghost predicate Valid()
      reads this
    {
      History(moments) && moments[|moments| - 1] == Moment(files, proven)
    }

    /** The history went on from there, with the same sources proven. */
    ghost predicate Continues(before: seq<Moment>)
      reads this
    {
      before <= moments && forall i :: |before| <= i < |moments| ==> moments[i].proven == proven
    }

    constructor (files: Files)
      ensures Valid() && this.files == files && proven == SourcesOf(files) && |moments| == 1
    {
      this.files, proven, moments := files, SourcesOf(files), [Moment(files, SourcesOf(files))];
      failures := 0;
    }

    /** A client that starts after a crash finds one of the moments. */
    constructor Restart(found: Moment)
      requires Marked(found)
      ensures Valid() && files == found.files && proven == found.proven && moments == [found]
    {
      files, proven, moments, failures := found.files, found.proven, [found], 0;
    }

    /** Replace one file atomically. A failure may be reported before or after the replacement. */
    method Write(p: Path, content: Content) returns (ok: bool)
      requires Valid() && (IsSource(p) ==> Marker in files)
      modifies this`files, this`moments, this`failures
      ensures Valid()
      ensures (files == old(files)[p := content] && moments == old(moments) + [Moment(files, proven)])
              || (!ok && files == old(files) && moments == old(moments))
      ensures failures == old(failures) + if ok then 0 else 1
    {
      var done: bool := *;
      ok := *;
      if done {
        WriteIsOneStep(files, p, content);
        Step(files[p := content], p);
      } else {
        ok := false;
      }
      failures := failures + if ok then 0 else 1;
    }

    method Remove(p: Path) returns (ok: bool)
      requires Valid() && p != Marker && (IsSource(p) ==> Marker in files)
      modifies this`files, this`moments, this`failures
      ensures Valid()
      ensures (files == old(files) - {p} && moments == old(moments) + [Moment(files, proven)])
              || (!ok && files == old(files) && moments == old(moments))
      ensures failures == old(failures) + if ok then 0 else 1
    {
      ok := *;
      if ok {
        RemoveIsOneStep(files, p);
        Step(files - {p}, p);
      }
      failures := failures + if ok then 0 else 1;
    }

    /** One atomic change of one file; a crash may follow. */
    method Step(next: Files, ghost p: Path)
      requires Valid() && Marked(Moment(next, proven)) && SameBut(files, next, p)
      modifies this`files, this`moments
      ensures Valid() && files == next && moments == old(moments) + [Moment(next, proven)]
    {
      HistoryGrows(moments, Moment(next, proven));
      files := next;
      moments := moments + [Moment(files, proven)];
    }

    /** Put every changed file back, as far as operations succeed; nothing else is touched. */
    method RollBack(originals: Files, changed: seq<Path>)
      requires Valid() && Marker !in changed && (Obliges(changed) ==> Marker in files)
      modifies this`files, this`moments, this`failures
      ensures Valid() && Continues(old(moments)) && failures >= old(failures)
      ensures forall p :: p !in changed ==> SameAt(files, old(files), p)
      ensures failures == old(failures) ==> forall p :: p in changed ==> SameAt(files, originals, p)
    {
      for i := 0 to |changed|
        invariant Valid() && Continues(old(moments)) && failures >= old(failures)
        invariant Obliges(changed) ==> SameAt(files, old(files), Marker)
        invariant forall p :: p !in changed ==> SameAt(files, old(files), p)
        invariant failures == old(failures) ==> forall k :: 0 <= k < i ==> SameAt(files, originals, changed[k])
      {
        ghost var before := files;
        var ok := Restore(originals, changed[i]);
        assert changed[i] in changed;
        forall p | p !in changed ensures SameAt(files, old(files), p) {
          assert SameAt(files, before, p) && SameAt(before, old(files), p);
        }
        if failures == old(failures) {
          forall k | 0 <= k <= i ensures SameAt(files, originals, changed[k]) {
            assert changed[k] != changed[i] ==>
                SameAt(files, before, changed[k]) && SameAt(before, originals, changed[k]);
          }
        }
      }
    }

    method Restore(originals: Files, p: Path) returns (ok: bool)
      requires Valid() && p != Marker && (IsSource(p) ==> Marker in files)
      modifies this`files, this`moments, this`failures
      ensures Valid() && Continues(old(moments))
      ensures forall q :: q != p ==> SameAt(files, old(files), q)
      ensures ok ==> SameAt(files, originals, p)
      ensures failures == old(failures) + if ok then 0 else 1
    {
      if p in originals {
        ok := Write(p, originals[p]);
      } else {
        ok := Remove(p);
      }
    }

    /** Write the changes in order, stopping at the first failure. */
    method WriteChanges(b: Bundle, changes: seq<Path>) returns (ok: bool, ghost done: nat)
      requires Valid() && Marker !in changes && (Obliges(changes) ==> Marker in files)
      requires AllPaths(b, changes)
      modifies this`files, this`moments, this`failures
      ensures Valid() && old(moments) <= moments && |moments| == |old(moments)| + done
      ensures failures == old(failures) + if ok then 0 else 1
      ensures done <= |changes| && (ok ==> done == |changes|) && files == Progress(old(files), b, changes, done)
      ensures StepsOf(moments[|old(moments)|..], old(files), proven, b, changes)
    {
      ok, done := true, 0;
      var i := 0;
      while ok && i < |changes|
        invariant 0 <= i <= |changes| && done <= i && (ok ==> done == i)
        invariant failures == old(failures) + if ok then 0 else 1
        invariant Valid() && old(moments) <= moments && |moments| == |old(moments)| + done
        invariant Obliges(changes) ==> Marker in files
        invariant files == Progress(old(files), b, changes, done)
        invariant StepsOf(moments[|old(moments)|..], old(files), proven, b, changes)
      {
        ghost var before := moments;
        ok := Write(changes[i], Wanted(b, changes[i]));
        if moments != before {
          done := done + 1;
          StepsGrow(before[|old(moments)|..], old(files), proven, b, changes);
          assert moments[|old(moments)|..] == before[|old(moments)|..] + [Moment(files, proven)];
        }
        i := i + 1;
      }
    }

    /** Write the changes; on failure put back what was there. */
    method Replace(b: Bundle, changes: seq<Path>) returns (ok: bool)
      requires Valid() && Marker !in changes && (Obliges(changes) ==> Marker in files) && AllPaths(b, changes)
      modifies this`files, this`moments, this`failures
      ensures Valid() && Continues(old(moments))
      ensures ok ==> Written(files, b, changes)
      ensures changes == [] ==> ok && files == old(files) && moments == old(moments)
      ensures OnlyThese(old(files), files, changes) && SameAt(files, old(files), Marker)
      ensures failures >= old(failures) && (ok <==> failures == old(failures))
      ensures !ok && failures == old(failures) + 1 ==> forall p :: SameAt(files, old(files), p)
    {
      if changes == [] {
        return true;
      }
      var originals := map p | p in files && p in changes :: files[p];
      ghost var done;
      ok, done := WriteChanges(b, changes);
      ProgressWrites(old(files), b, changes, done);
      if !ok {
        ghost var failed := failures;
        RollBack(originals, changes);
        if failures == failed {
          forall p ensures SameAt(files, old(files), p) {
            assert p in changes ==> SameAt(files, originals, p);
          }
        }
      }
    }

    /** Record the obligation before any source is touched. */
    method Oblige(hash: Content) returns (ok: bool)
      requires Valid()
      modifies this`files, this`moments, this`failures
      ensures Valid() && Continues(old(moments))
      ensures files == old(files)[Marker := hash] || (!ok && files == old(files))
      ensures SourcesOf(files) == SourcesOf(old(files))
      ensures failures == old(failures) + if ok then 0 else 1
    {
      ok := Write(Marker, hash);
      MarkerIsNoSource(old(files), hash);
    }

    /**
      Install or repair a bundle. Success leaves exactly the bundle; a single failure
      is rolled back but for the marker; an up-to-date tree is not touched.
      The marker is in place at every moment at which a source differs.
    */
    method InstallBundle(b: Bundle) returns (ok: bool, reloadRequired: bool)
      requires Valid()
      modifies this`files, this`moments, this`failures
      ensures Valid() && Continues(old(moments))
      ensures ok ==> InPlace(files, b)
      ensures !Obliges(Changes(old(files), b)) ==> SameAt(files, old(files), Marker)
      ensures ok && Obliges(Changes(old(files), b)) ==> Marker in files && files[Marker] == b.hash
      ensures SourcesOf(files) != SourcesOf(old(files)) ==> Marker in files
      ensures Changes(old(files), b) == [] ==> ok && files == old(files) && moments == old(moments)
      ensures reloadRequired <==> Marker in files
      ensures Marker in old(files) ==> Marker in files
      ensures failures >= old(failures) && (ok <==> failures == old(failures))
      ensures !ok && failures == old(failures) + 1 ==> forall p :: p != Marker ==> SameAt(files, old(files), p)
    {
      var changes := Changes(files, b);
      ok := true;
      if Obliges(changes) {
        ok := Oblige(b.hash);
      }
      if ok {
        assert OnlyThese(old(files), files, changes);
        ghost var obliged := files;
        ok := Replace(b, changes);
        forall p | p != Marker && SameAt(files, obliged, p) ensures SameAt(files, old(files), p) {
          assert SameAt(obliged, old(files), p);
        }
        SourcesKept(old(files), files, changes);
        if ok {
          WrittenHolds(old(files), files, b);
          HoldsExactly(files, b);
        }
      }
      reloadRequired := Marker in files;
    }

    /** The obligation is discharged once the running sources are those on disk. */
    method DischargeObligation(game: Game) returns (ok: bool)
      requires Valid() && game.Runs(files)
      modifies this`files, this`proven, this`moments, this`failures
      ensures Valid() && old(moments) <= moments
      ensures failures == old(failures) + if ok then 0 else 1
      ensures proven == SourcesOf(old(files)) && SourcesOf(files) == SourcesOf(old(files)) && game.Runs(files)
      ensures if ok then files == old(files) - {Marker} else files == old(files)
      ensures forall i :: |old(moments)| <= i < |moments| ==> SourcesOf(moments[i].files) == moments[i].proven
    {
      HistoryGrows(moments, Moment(files, SourcesOf(files)));
      proven := SourcesOf(files);
      moments := moments + [Moment(files, proven)];
      ok := *;
      if ok {
        RemovedMarker(files);
        RemoveIsOneStep(files, Marker);
        Step(files - {Marker}, Marker);
      }
      failures := failures + if ok then 0 else 1;
    }
  }

  lemma WriteIsOneStep(files: Files, p: Path, content: Content)
    ensures SameBut(files, files[p := content], p)
  {}

  lemma RemoveIsOneStep(files: Files, p: Path)
    ensures SameBut(files, files - {p}, p)
  {}

  lemma StepsGrow(moments: seq<Moment>, files: Files, proven: Files, b: Bundle, changes: seq<Path>)
    requires AllPaths(b, changes) && |moments| < |changes| && StepsOf(moments, files, proven, b, changes)
    ensures StepsOf(moments + [Moment(Progress(files, b, changes, |moments| + 1), proven)], files, proven, b, changes)
  {}

  lemma MarkerIsNoSource(files: Files, hash: Content)
    ensures SourcesOf(files[Marker := hash]) == SourcesOf(files)
  {}

  lemma RemovedMarker(files: Files)
    ensures SourcesOf(files - {Marker}) == SourcesOf(files)
  {}

  lemma SourcesKept(before: Files, after: Files, changes: seq<Path>)
    requires OnlyThese(before, after, changes)
    ensures !Obliges(changes) ==> SourcesOf(after) == SourcesOf(before)
  {
    if !Obliges(changes) {
      forall p | IsSource(p) ensures p !in changes {}
    }
  }

  // ---- the running game ------------------------------------------------------------------

  const CONTROL := Module(1)
  const DIAGNOSTICS := Module(2)

  /** Activation counters; zero means the module was never active. */
  datatype Probe = Probe(control: nat, diagnostics: nat)

  /** What the game has loaded; every effective load of a module starts a new activation of it. */
  class Game {
    var control: nat
    var diagnostics: nat
    var runningControl: Option<Content>
    var runningDiagnostics: Option<Content>

    /** Commands that failed and snapshots that did not come. */
    ghost var troubles: nat
    /** How often modules were loaded, and what the counters showed before the last time. */
    ghost var loads: nat
    ghost var last: Probe

    function Shows(): Probe
      reads this`control, this`diagnostics
    {
      Probe(control, diagnostics)
    }

    ghost predicate Runs(files: Files)
      reads this`control, this`diagnostics, this`runningControl, this`runningDiagnostics
    {
      && (CONTROL in files ==> runningControl == Some(files[CONTROL]))
      && (DIAGNOSTICS in files ==> runningDiagnostics == Some(files[DIAGNOSTICS]))
    }

    /** Since this probe, each of the two modules was loaded from these files or not at all. */
    ghost predicate LoadedSince(p: Probe, files: Files)
      reads this`control, this`diagnostics, this`runningControl, this`runningDiagnostics
    {
      && (control != p.control ==> CONTROL in files ==> runningControl == Some(files[CONTROL]))
      && (diagnostics != p.diagnostics ==> DIAGNOSTICS in files ==> runningDiagnostics == Some(files[DIAGNOSTICS]))
    }

    /** Ask for the modules on disk to be loaded; some of them may silently not be. */
    method LoadModules(files: Files, ghost since: Probe) returns (ok: bool)
      requires since.control <= control && since.diagnostics <= diagnostics && LoadedSince(since, files)
      modifies this
      ensures since.control <= control && since.diagnostics <= diagnostics && LoadedSince(since, files)
      ensures old(control) <= control && old(diagnostics) <= diagnostics
      ensures troubles == old(troubles) + (if ok then 0 else 1)
      ensures loads == old(loads) + 1 && last == old(Shows())
    {
      loads, last := loads + 1, Shows();
      var a: bool, b: bool := *, *;
      if a {
        control := control + 1;
        runningControl := if CONTROL in files then Some(files[CONTROL]) else None;
      }
      if b {
        diagnostics := diagnostics + 1;
        runningDiagnostics := if DIAGNOSTICS in files then Some(files[DIAGNOSTICS]) else None;
      }
      ok := *;
      troubles := troubles + if ok then 0 else 1;
    }

    /** A snapshot may be read, in time and compatible, or not. */
    method ReadProbe() returns (p: Option<Probe>)
      modifies this`troubles
      ensures p.Some? ==> p.value == Shows()
      ensures troubles == old(troubles) + (if p.Some? then 0 else 1)
    {
      var seen: bool := *;
      p := if seen then Some(Shows()) else None;
      troubles := troubles + if seen then 0 else 1;
    }
  }

  /**
    The reload that an installation asked for; `seen` tells whether a running bridge
    shows its activations before it. Without one, a first load gives the baseline.
  */
  method ForcedReload(disk: Installation, game: Game, seen: bool) returns (ok: bool)
    requires disk.Valid()
    modifies disk, game
    ensures disk.Valid() && old(disk.moments) <= disk.moments
    ensures SourcesOf(disk.files) == SourcesOf(old(disk.files))
    ensures ok ==> game.Runs(disk.files) && disk.proven == SourcesOf(disk.files) && Marker !in disk.files
    ensures disk.files == old(disk.files) || game.Runs(disk.files)
    ensures disk.proven == old(disk.proven) || (disk.proven == SourcesOf(disk.files) && game.Runs(disk.files))
    ensures (Marker in old(disk.files) && Marker !in disk.files) || disk.proven != old(disk.proven) ==>
              game.control > old(game.control) && game.diagnostics > old(game.diagnostics)
    ensures forall p :: p != Marker ==> SameAt(disk.files, old(disk.files), p)
    ensures old(game.troubles) <= game.troubles && old(disk.failures) <= disk.failures
    ensures game.troubles == old(game.troubles) && disk.failures == old(disk.failures) ==>
              && (ok <==> game.control > game.last.control && game.diagnostics > game.last.diagnostics)
              && game.loads == old(game.loads) + (if seen then 1 else 2)
              && (seen ==> game.last == old(game.Shows()))
  {
    var baseline := if seen then Some(game.Shows()) else None;
    ghost var since := game.Shows();
    ok := game.LoadModules(disk.files, since);
    if !ok {
      return;
    }
    if baseline.None? {
      baseline := game.ReadProbe();
      if baseline.None? {
        return false;
      }
      since := baseline.value;
      ok := game.LoadModules(disk.files, since);
      if !ok {
        return;
      }
    }
    var activated := game.ReadProbe();
    if activated.None? || activated.value.control == baseline.value.control
       || activated.value.diagnostics == baseline.value.diagnostics
    {
      return false;
    }
    assert game.Runs(disk.files);
    ok := disk.DischargeObligation(game);
  }
}
