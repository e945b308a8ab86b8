/** Registering the bridge objects in the game's build list, right after their anchor. */
module ProjectFile {
  import opened State

  /** A line that is exactly one quoted object name, or any other line. */
  datatype ProjectLine = ObjectLine(name: string) | OtherLine(text: string)

  const ANCHOR := "task-control.o"

  predicate IsAnchor(l: ProjectLine) {
    l == ObjectLine(ANCHOR)
  }

  predicate IsOurs(l: ProjectLine, objects: seq<string>) {
    l.ObjectLine? && l.name in objects
  }

  function Count(lines: seq<ProjectLine>, l: ProjectLine): nat {
    multiset(lines)[l]
  }

  function AnchorAt(lines: seq<ProjectLine>): (at: int)
    ensures -1 <= at < |lines|
    ensures at >= 0 ==> IsAnchor(lines[at]) && forall i :: 0 <= i < at ==> !IsAnchor(lines[i])
    ensures at == -1 ==> forall i :: 0 <= i < |lines| ==> !IsAnchor(lines[i])
  {
    if lines == [] then -1
    else if IsAnchor(lines[0]) then 0
    else
      var rest := AnchorAt(lines[1..]);
      assert forall i :: 0 < i < |lines| ==> lines[i] == lines[1..][i - 1];
      if rest < 0 then -1 else rest + 1
  }

  function ObjectLines(objects: seq<string>): (lines: seq<ProjectLine>)
    ensures |lines| == |objects| && forall i :: 0 <= i < |objects| ==> lines[i] == ObjectLine(objects[i])
  {
    seq(|objects|, i requires 0 <= i < |objects| => ObjectLine(objects[i]))
  }

  /** The lines that are none of ours, in order. */
  function Without(lines: seq<ProjectLine>, objects: seq<string>): (kept: seq<ProjectLine>)
    ensures forall i :: 0 <= i < |kept| ==> !IsOurs(kept[i], objects)
  {
    if lines == [] then []
    else Without(lines[..|lines| - 1], objects)
         + (if IsOurs(lines[|lines| - 1], objects) then [] else [lines[|lines| - 1]])
  }

  /** The lines right behind the anchor, as many as there are objects, are the objects in order. */
  predicate InPlace(lines: seq<ProjectLine>, at: nat, objects: seq<string>) {
    at + 1 + |objects| <= |lines| && lines[at + 1..at + 1 + |objects|] == ObjectLines(objects)
  }

  predicate Editable(lines: seq<ProjectLine>, objects: seq<string>) {
    && Count(lines, ObjectLine(ANCHOR)) == 1
    && (forall i :: 0 <= i < |objects| ==> Count(lines, ObjectLine(objects[i])) <= 1)
    && forall i :: 0 <= i < AnchorAt(lines) ==> !IsOurs(lines[i], objects)
  }

  /** Refused for an ambiguous or misplaced entry; unchanged where the objects are in place already. */
  function Edit(lines: seq<ProjectLine>, objects: seq<string>): Option<seq<ProjectLine>> {
    if !Editable(lines, objects) then None
    else
      var at := AnchorAt(lines);
      if at >= 0 && InPlace(lines, at, objects) then Some(lines)
      else
        var kept := Without(lines, objects);
        var anchor := AnchorAt(kept);
        Some(if anchor < 0 then kept else kept[..anchor + 1] + ObjectLines(objects) + kept[anchor + 1..])
  }

  /** The editor filters and splices its list of lines. */
  method EditLines(lines: seq<ProjectLine>, objects: seq<string>) returns (edited: Option<seq<ProjectLine>>)
    ensures edited == Edit(lines, objects)
  {
    if !Editable(lines, objects) {
      return None;
    }
    var at := AnchorAt(lines);
    if at >= 0 && InPlace(lines, at, objects) {
      return Some(lines);
    }
    var kept: seq<ProjectLine> := [];
    for i := 0 to |lines|
      invariant kept == Without(lines[..i], objects)
    {
      assert lines[..i + 1][..i] == lines[..i];
      if !IsOurs(lines[i], objects) {
        kept := kept + [lines[i]];
      }
    }
    assert lines[..|lines|] == lines;
    var anchor := AnchorAt(kept);
    edited := Some(if anchor < 0 then kept else kept[..anchor + 1] + ObjectLines(objects) + kept[anchor + 1..]);
  }

  // ---- what an edit does --------------------------------------------------------------------

  ghost predicate Proper(objects: seq<string>) {
    ANCHOR !in objects && forall i, j :: 0 <= i < j < |objects| ==> objects[i] != objects[j]
  }

  lemma {:induction false} WithoutConcatenation(a: seq<ProjectLine>, b: seq<ProjectLine>, objects: seq<string>)
    ensures Without(a + b, objects) == Without(a, objects) + Without(b, objects)
  {
    if b == [] {
      assert a + b == a;
    } else {
      WithoutConcatenation(a, b[..|b| - 1], objects);
      assert (a + b)[..|a + b| - 1] == a + b[..|b| - 1];
    }
  }

  lemma {:induction false} WithoutForeign(lines: seq<ProjectLine>, objects: seq<string>)
    requires forall i :: 0 <= i < |lines| ==> !IsOurs(lines[i], objects)
    ensures Without(lines, objects) == lines
  {
    if lines != [] {
      WithoutForeign(lines[..|lines| - 1], objects);
      assert lines == lines[..|lines| - 1] + [lines[|lines| - 1]];
    }
  }

  lemma {:induction false} WithoutOurs(lines: seq<ProjectLine>, objects: seq<string>)
    requires forall i :: 0 <= i < |lines| ==> IsOurs(lines[i], objects)
    ensures Without(lines, objects) == []
  {
    if lines != [] {
      WithoutOurs(lines[..|lines| - 1], objects);
    }
  }

  lemma {:induction false} WithoutKeepsCount(lines: seq<ProjectLine>, objects: seq<string>, l: ProjectLine)
    requires !IsOurs(l, objects)
    ensures Count(Without(lines, objects), l) == Count(lines, l)
  {
    if lines != [] {
      WithoutKeepsCount(lines[..|lines| - 1], objects, l);
      assert lines == lines[..|lines| - 1] + [lines[|lines| - 1]];
    }
  }

  /** An edited list: foreign lines, the anchor, our objects in order, foreign lines. */
  ghost predicate Edited(r: seq<ProjectLine>, before: seq<ProjectLine>, after: seq<ProjectLine>, objects: seq<string>) {
    && r == before + [ObjectLine(ANCHOR)] + ObjectLines(objects) + after
    && (forall i :: 0 <= i < |before| ==> !IsAnchor(before[i]) && !IsOurs(before[i], objects))
    && (forall i :: 0 <= i < |after| ==> !IsAnchor(after[i]) && !IsOurs(after[i], objects))
  }

  lemma AnchorIsUnique(lines: seq<ProjectLine>, at: nat)
    requires Count(lines, ObjectLine(ANCHOR)) == 1 && at < |lines| && IsAnchor(lines[at])
    ensures forall i :: at < i < |lines| ==> !IsAnchor(lines[i])
  {
    assert lines == lines[..at] + [lines[at]] + lines[at + 1..];
    assert multiset(lines) == multiset(lines[..at]) + multiset{lines[at]} + multiset(lines[at + 1..]);
    forall i | at < i < |lines| ensures !IsAnchor(lines[i]) {
      assert lines[at + 1..][i - at - 1] == lines[i];
      assert lines[i] in multiset(lines[at + 1..]);
    }
  }

  /** A rewritten list has its objects in place, exactly once, and every other line as before. */
  lemma RewriteIsEdited(lines: seq<ProjectLine>, objects: seq<string>)
    returns (before: seq<ProjectLine>, after: seq<ProjectLine>)
    requires Proper(objects) && Editable(lines, objects) && !InPlace(lines, AnchorAt(lines), objects)
             && AnchorAt(lines) >= 0
    ensures Edited(Edit(lines, objects).value, before, after, objects)
    ensures Without(lines, objects) == before + [ObjectLine(ANCHOR)] + after
  {
    var kept := Without(lines, objects);
    WithoutKeepsCount(lines, objects, ObjectLine(ANCHOR));
    var at := KeptAnchor(kept);
    before, after := kept[..at], kept[at + 1..];
    AroundAnchor(kept, at);
  }

  lemma KeptAnchor(kept: seq<ProjectLine>) returns (at: nat)
    requires Count(kept, ObjectLine(ANCHOR)) == 1
    ensures at < |kept| && at == AnchorAt(kept) && IsAnchor(kept[at])
    ensures forall i :: 0 <= i < |kept| && i != at ==> !IsAnchor(kept[i])
  {
    assert ObjectLine(ANCHOR) in multiset(kept);
    at := AnchorAt(kept);
    AnchorIsUnique(kept, at);
  }

  lemma AroundAnchor(kept: seq<ProjectLine>, at: nat)
    requires at < |kept| && IsAnchor(kept[at])
    ensures kept[..at + 1] == kept[..at] + [ObjectLine(ANCHOR)]
    ensures kept == kept[..at] + [ObjectLine(ANCHOR)] + kept[at + 1..]
  {}

  lemma AnchorExists(lines: seq<ProjectLine>, objects: seq<string>)
    requires Editable(lines, objects)
    ensures AnchorAt(lines) >= 0
  {
    assert ObjectLine(ANCHOR) in multiset(lines);
  }

  lemma CountConcatenation(a: seq<ProjectLine>, b: seq<ProjectLine>, l: ProjectLine)
    ensures Count(a + b, l) == Count(a, l) + Count(b, l)
  {}

  lemma EditedCount(r: seq<ProjectLine>, before: seq<ProjectLine>, after: seq<ProjectLine>, objects: seq<string>,
                    l: ProjectLine)
    requires Edited(r, before, after, objects)
    ensures Count(r, l) == Count(before, l) + Count([ObjectLine(ANCHOR)], l) + Count(ObjectLines(objects), l)
            + Count(after, l)
  {
    CountConcatenation(before, [ObjectLine(ANCHOR)], l);
    CountConcatenation(before + [ObjectLine(ANCHOR)], ObjectLines(objects), l);
    CountConcatenation(before + [ObjectLine(ANCHOR)] + ObjectLines(objects), after, l);
  }

  lemma EditedOnce(r: seq<ProjectLine>, before: seq<ProjectLine>, after: seq<ProjectLine>, objects: seq<string>)
    requires Proper(objects) && Edited(r, before, after, objects)
    ensures Count(r, ObjectLine(ANCHOR)) == 1
    ensures forall i :: 0 <= i < |objects| ==> Count(r, ObjectLine(objects[i])) <= 1
  {
    EditedCount(r, before, after, objects, ObjectLine(ANCHOR));
    NotIn(before, ObjectLine(ANCHOR));
    NotIn(after, ObjectLine(ANCHOR));
    NotIn(ObjectLines(objects), ObjectLine(ANCHOR));
    forall i | 0 <= i < |objects| ensures Count(r, ObjectLine(objects[i])) <= 1 {
      EditedCount(r, before, after, objects, ObjectLine(objects[i]));
      NotIn(before, ObjectLine(objects[i]));
      NotIn(after, ObjectLine(objects[i]));
      ObjectOnce(objects, i);
    }
  }

  lemma EditedInPlace(r: seq<ProjectLine>, before: seq<ProjectLine>, after: seq<ProjectLine>, objects: seq<string>)
    requires Edited(r, before, after, objects)
    ensures |before| < |r| && r[|before|] == ObjectLine(ANCHOR) && InPlace(r, |before|, objects)
    ensures forall i :: 0 <= i < |before| ==> r[i] == before[i]
  {}

  lemma EditedOccurs(r: seq<ProjectLine>, before: seq<ProjectLine>, after: seq<ProjectLine>, objects: seq<string>)
    requires Proper(objects) && Edited(r, before, after, objects)
    ensures AnchorAt(r) == |before| && InPlace(r, |before|, objects) && Editable(r, objects)
  {
    EditedInPlace(r, before, after, objects);
    EditedOnce(r, before, after, objects);
  }

  lemma NotIn(lines: seq<ProjectLine>, l: ProjectLine)
    requires forall i :: 0 <= i < |lines| ==> lines[i] != l
    ensures Count(lines, l) == 0
  {}

  lemma ObjectOnce(objects: seq<string>, i: nat)
    requires Proper(objects) && i < |objects|
    ensures Count(ObjectLines(objects), ObjectLine(objects[i])) == 1
  {
    var lines := ObjectLines(objects);
    assert lines == lines[..i] + [lines[i]] + lines[i + 1..];
    assert multiset(lines) == multiset(lines[..i]) + multiset{lines[i]} + multiset(lines[i + 1..]);
    NotIn(lines[..i], lines[i]);
    NotIn(lines[i + 1..], lines[i]);
  }

  /** Editing twice is editing once. */
  lemma EditIsIdempotent(lines: seq<ProjectLine>, objects: seq<string>)
    requires Proper(objects) && Edit(lines, objects).Some?
    ensures Edit(Edit(lines, objects).value, objects) == Edit(lines, objects)
  {
    AnchorExists(lines, objects);
    if !InPlace(lines, AnchorAt(lines), objects) {
      var before, after := RewriteIsEdited(lines, objects);
      EditedOccurs(Edit(lines, objects).value, before, after, objects);
    }
  }

  lemma WithoutEdited(r: seq<ProjectLine>, before: seq<ProjectLine>, after: seq<ProjectLine>, objects: seq<string>)
    requires Proper(objects) && Edited(r, before, after, objects)
    ensures Without(r, objects) == before + [ObjectLine(ANCHOR)] + after
  {
    var front := before + [ObjectLine(ANCHOR)];
    WithoutConcatenation(front + ObjectLines(objects), after, objects);
    WithoutConcatenation(front, ObjectLines(objects), objects);
    WithoutForeign(front, objects);
    WithoutForeign(after, objects);
    WithoutOurs(ObjectLines(objects), objects);
  }

  /** An edit leaves the other lines, and their order, alone. */
  lemma EditKeepsOtherLines(lines: seq<ProjectLine>, objects: seq<string>)
    requires Proper(objects) && Edit(lines, objects).Some?
    ensures Without(Edit(lines, objects).value, objects) == Without(lines, objects)
    ensures var r := Edit(lines, objects).value; AnchorAt(r) >= 0 && InPlace(r, AnchorAt(r), objects)
  {
    AnchorExists(lines, objects);
    if !InPlace(lines, AnchorAt(lines), objects) {
      var before, after := RewriteIsEdited(lines, objects);
      EditedOccurs(Edit(lines, objects).value, before, after, objects);
      WithoutEdited(Edit(lines, objects).value, before, after, objects);
    }
  }

  // ---- what is refused ------------------------------------------------------------------------

  predicate Once(lines: seq<ProjectLine>, l: ProjectLine) {
    forall i, j :: 0 <= i < j < |lines| ==> lines[i] != l || lines[j] != l
  }

  lemma {:induction false} CountedOnce(lines: seq<ProjectLine>, l: ProjectLine)
    ensures Count(lines, l) <= 1 <==> Once(lines, l)
    ensures Count(lines, l) >= 1 <==> l in lines
  {
    if lines != [] {
      var n := |lines| - 1;
      var front := lines[..n];
      assert lines == front + [lines[n]];
      CountedOnce(front, l);
      assert forall i :: 0 <= i < n ==> front[i] == lines[i];
      if lines[n] == l {
        assert Once(lines, l) <==> l !in front;
      } else {
        assert Once(lines, l) <==> Once(front, l);
      }
    }
  }

  /** An edit is refused exactly if the anchor is not there once, or an object is there twice or before the anchor. */
  lemma EditableExactly(lines: seq<ProjectLine>, objects: seq<string>)
    ensures Edit(lines, objects).Some? <==>
              && ObjectLine("task-control.o") in lines && Once(lines, ObjectLine("task-control.o"))
              && (forall k :: 0 <= k < |objects| ==> Once(lines, ObjectLine(objects[k])))
              && (forall i, j :: 0 <= i < j < |lines| && lines[j] == ObjectLine("task-control.o") ==>
                    !(lines[i].ObjectLine? && lines[i].name in objects))
  {
    CountedOnce(lines, ObjectLine(ANCHOR));
    forall k | 0 <= k < |objects|
      ensures Count(lines, ObjectLine(objects[k])) <= 1 <==> Once(lines, ObjectLine(objects[k]))
    {
      CountedOnce(lines, ObjectLine(objects[k]));
    }
  }
}
