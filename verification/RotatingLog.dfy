/** Size-bounded log artifacts: one current file and numbered older segments. */
module RotatingLog {

  type Byte = x: int | 0 <= x < 256

  type Bytes = seq<Byte>

  /** The current file has index 0; larger indices are older. */
  type Segments = map<nat, Bytes>

  function Segment(files: Segments, index: nat): Bytes {
    if index in files then files[index] else []
  }

  /** Segments `n` down to 0, oldest first. */
  function Concatenated(files: Segments, n: nat): Bytes {
    Segment(files, n) + if n == 0 then [] else Concatenated(files, n - 1)
  }

  ghost predicate IsSuffix(s: Bytes, whole: Bytes) {
    |s| <= |whole| && whole[|whole| - |s|..] == s
  }

  lemma SuffixAppend(s: Bytes, whole: Bytes, more: Bytes, dropped: nat)
    requires IsSuffix(s, whole) && dropped <= |s|
    ensures IsSuffix(s[dropped..] + more, whole + more)
  {
    var n := |whole| - |s|;
    assert (whole + more)[n + dropped..] == whole[n..][dropped..] + more;
  }

  /** What a rotation makes of the files: each one index older, the oldest gone, a new empty current file. */
  ghost predicate Shifted(before: Segments, after: Segments, backups: nat) {
    && (forall k :: k in after ==> k <= backups)
    && 0 in after && after[0] == []
    && forall k :: 0 < k <= backups ==>
         (k in after <==> k - 1 in before) && (k in after ==> after[k] == before[k - 1])
  }

  /** In the middle of a rotation: indices above this one are done, and this one is free. */
  ghost predicate ShiftedDownTo(before: Segments, now: Segments, backups: nat, index: nat) {
    && (forall k :: k in now ==> k <= backups)
    && (index < backups ==> index !in now)
    && (forall k :: 0 <= k < index || k == index == backups ==>
          (k in now <==> k in before) && (k in now ==> now[k] == before[k]))
    && (forall k :: index < k <= backups ==>
          (k in now <==> k - 1 in before) && (k in now ==> now[k] == before[k - 1]))
  }

  lemma ShiftStep(before: Segments, now: Segments, backups: nat, index: nat)
    requires ShiftedDownTo(before, now, backups, index) && 0 < index <= backups
    ensures var freed := if index == backups then now - {index} else now;
            ShiftedDownTo(before,
              if index - 1 in freed then (freed - {index - 1})[index := freed[index - 1]] else freed,
              backups, index - 1)
  {}

  lemma {:induction false} ShiftedConcatenation(before: Segments, after: Segments, backups: nat, n: nat)
    requires Shifted(before, after, backups) && n < backups
    ensures Concatenated(after, n + 1) == Concatenated(before, n)
  {
    if n > 0 {
      ShiftedConcatenation(before, after, backups, n - 1);
    } else {
      assert Concatenated(after, 0) == [];
    }
  }

  /** Rotating drops exactly the oldest segment. */
  lemma RotationDropsOldest(before: Segments, after: Segments, backups: nat)
    requires Shifted(before, after, backups) && backups > 0
    ensures Concatenated(after, backups) == Concatenated(before, backups)[|Segment(before, backups)|..]
  {
    ShiftedConcatenation(before, after, backups, backups - 1);
  }

  lemma Associative(a: Bytes, b: Bytes, c: Bytes)
    ensures a + (b + c) == a + b + c
  {}

  lemma {:induction false} AppendToCurrent(files: Segments, payload: Bytes, n: nat)
    ensures Concatenated(files[0 := Segment(files, 0) + payload], n) == Concatenated(files, n) + payload
  {
    var after := files[0 := Segment(files, 0) + payload];
    if n > 0 {
      AppendToCurrent(files, payload, n - 1);
      Associative(Segment(files, n), Concatenated(files, n - 1), payload);
    } else {
      CurrentOnly(after);
      CurrentOnly(files);
    }
  }

  lemma CurrentOnly(files: Segments)
    ensures Concatenated(files, 0) == Segment(files, 0)
  {}

  ghost predicate Bounded(files: Segments, limit: nat) {
    forall k :: k in files ==> |files[k]| <= limit
  }

  lemma {:induction false} TotalIsBounded(files: Segments, limit: nat, n: nat)
    requires Bounded(files, limit)
    ensures |Concatenated(files, n)| <= (n + 1) * limit
  {
    assert |Segment(files, n)| <= limit;
    if n > 0 {
      TotalIsBounded(files, limit, n - 1);
    }
  }

  function Flatten(segments: seq<Bytes>): Bytes {
    if segments == [] then [] else Flatten(segments[..|segments| - 1]) + segments[|segments| - 1]
  }

  lemma FlattenAppend(segments: seq<Bytes>, s: Bytes)
    ensures Flatten(segments + [s]) == Flatten(segments) + s
  {
    assert (segments + [s])[..|segments|] == segments;
  }

  // ---- text --------------------------------------------------------------------------

  /** A code point in UTF-8; a lone surrogate is replaced by a question mark. */
  function EncodeOne(c: int): (b: Bytes)
    requires 0 <= c < 0x110000
    ensures 1 <= |b| <= 4
  {
    if c < 0x80 then [c]
    else if c < 0x800 then [0xC0 + c / 0x40, 0x80 + c % 0x40]
    else if 0xD800 <= c < 0xE000 then [63]
    else if c < 0x10000 then [0xE0 + c / 0x1000, 0x80 + c / 0x40 % 0x40, 0x80 + c % 0x40]
    else [0xF0 + c / 0x40000, 0x80 + c / 0x1000 % 0x40, 0x80 + c / 0x40 % 0x40, 0x80 + c % 0x40]
  }

  type CodePoint = c: int | 0 <= c < 0x110000

  function Encode(text: seq<CodePoint>): (b: Bytes)
    ensures |b| <= 4 * |text|
  {
    if text == [] then [] else Encode(text[..|text| - 1]) + EncodeOne(text[|text| - 1])
  }

  lemma {:induction false} EncodeConcatenation(a: seq<CodePoint>, b: seq<CodePoint>)
    ensures Encode(a + b) == Encode(a) + Encode(b)
  {
    if b == [] {
      assert a + b == a;
    } else {
      EncodeConcatenation(a, b[..|b| - 1]);
      assert (a + b)[..|a + b| - 1] == a + b[..|b| - 1];
      Associative(Encode(a), Encode(b[..|b| - 1]), EncodeOne(b[|b| - 1]));
    }
  }

  lemma EncodeNext(text: seq<CodePoint>, from: nat, to: nat)
    requires from <= to <= |text|
    ensures Encode(text[..to]) == Encode(text[..from]) + Encode(text[from..to])
  {
    EncodeConcatenation(text[..from], text[from..to]);
    assert text[..to] == text[..from] + text[from..to];
  }

  class Artifact {
    const segmentBytes: nat
    const backups: nat
    var files: Segments
    /** Everything ever appended. */
    ghost var appended: Bytes

    ghost predicate Valid()
      reads this
    {
      && 1024 <= segmentBytes && 1 <= backups <= 16
      && (forall k :: k in files ==> k <= backups)
      && IsSuffix(Content(), appended)
    }

    ghost function Content(): Bytes
      reads this
    {
      Concatenated(files, backups)
    }

    constructor (segmentBytes: nat, backups: nat)
      requires 1024 <= segmentBytes && 1 <= backups <= 16
      ensures Valid() && Bounded(files, segmentBytes) && appended == []
      ensures this.segmentBytes == segmentBytes && this.backups == backups
    {
      this.segmentBytes, this.backups, files, appended := segmentBytes, backups, map[], [];
      new;
      NothingYet(backups);
    }

    /** Shift every segment by one, from the oldest on; the oldest is unlinked. */
    method Rotate()
      requires 1 <= backups && forall k :: k in files ==> k <= backups
      modifies this`files
      ensures Shifted(old(files), files, backups)
    {
      var index := backups;
      while index > 0
        invariant 0 <= index <= backups
        invariant ShiftedDownTo(old(files), files, backups, index)
      {
        ShiftStep(old(files), files, backups, index);
        if index == backups {
          files := files - {index};
        }
        if index - 1 in files {
          files := (files - {index - 1})[index := files[index - 1]];
        }
        index := index - 1;
      }
      files := files[0 := []];
    }

    method AppendBytes(payload: Bytes) returns (ghost dropped: nat)
      requires Valid()
      modifies this`files, this`appended
      ensures Valid() && appended == old(appended) + payload
      ensures dropped <= |old(Content())| && Content() == old(Content())[dropped..] + payload
      ensures dropped ==
              if 0 in old(files) && |old(files)[0]| + |payload| > segmentBytes then |Segment(old(files), backups)|
              else 0
      ensures old(Bounded(files, segmentBytes)) && |payload| <= segmentBytes ==> Bounded(files, segmentBytes)
    {
      dropped := 0;
      if 0 in files && |files[0]| + |payload| > segmentBytes {
        Rotate();
        RotationDropsOldest(old(files), files, backups);
        dropped := |Segment(old(files), backups)|;
        RotationKeepsBound(old(files), files, backups, segmentBytes);
      }
      SuffixAppend(old(Content()), appended, payload, dropped);
      AppendToCurrent(files, payload, backups);
      files := files[0 := Segment(files, 0) + payload];
      appended := appended + payload;
    }

    /** Text goes out in chunks that fit one segment whatever their encoding. */
    method AppendText(text: seq<CodePoint>)
      requires Valid()
      modifies this`files, this`appended
      ensures Valid() && appended == old(appended) + Encode(text)
      ensures old(Bounded(files, segmentBytes)) ==> Bounded(files, segmentBytes)
    {
      var chunk := segmentBytes / 4;
      var offset := 0;
      while offset < |text|
        invariant 0 <= offset <= |text|
        invariant Valid() && appended == old(appended) + Encode(text[..offset])
        invariant old(Bounded(files, segmentBytes)) ==> Bounded(files, segmentBytes)
        decreases |text| - offset
      {
        var end := if offset + chunk < |text| then offset + chunk else |text|;
        ghost var dropped := AppendBytes(Encode(text[offset..end]));
        EncodeNext(text, offset, end);
        Associative(old(appended), Encode(text[..offset]), Encode(text[offset..end]));
        offset := end;
      }
      assert text[..|text|] == text;
    }

    /** The existing segments, oldest first. */
    method ReadSegments() returns (segments: seq<Bytes>)
      requires Valid()
      ensures Flatten(segments) == Content() && IsSuffix(Flatten(segments), appended)
      ensures |segments| <= backups + 1
      ensures Bounded(files, segmentBytes) ==> |Flatten(segments)| <= (backups + 1) * segmentBytes
    {
      segments := [];
      var index := backups + 1;
      while index > 0
        invariant 0 <= index <= backups + 1 && |segments| <= backups + 1 - index
        invariant Flatten(segments) + Below(files, index) == Content()
      {
        index := index - 1;
        NextSegment(segments, files, index);
        if index in files {
          segments := segments + [files[index]];
        }
      }
      if Bounded(files, segmentBytes) {
        TotalIsBounded(files, segmentBytes, backups);
      }
    }
  }

  function Below(files: Segments, index: nat): Bytes {
    if index == 0 then [] else Concatenated(files, index - 1)
  }

  lemma NextSegment(segments: seq<Bytes>, files: Segments, index: nat)
    ensures Flatten(segments) + Below(files, index + 1)
            == Flatten(if index in files then segments + [files[index]] else segments) + Below(files, index)
  {
    if index in files {
      FlattenAppend(segments, files[index]);
      Associative(Flatten(segments), files[index], Below(files, index));
    } else {
      assert Below(files, index + 1) == Below(files, index);
    }
  }

  lemma {:induction false} NothingYet(n: nat)
    ensures Concatenated(map[], n) == []
  {
    if n > 0 {
      NothingYet(n - 1);
    }
  }

  lemma RotationKeepsBound(before: Segments, after: Segments, backups: nat, limit: nat)
    requires Shifted(before, after, backups)
    ensures Bounded(before, limit) ==> Bounded(after, limit)
  {
    if Bounded(before, limit) {
      forall k | k in after ensures |after[k]| <= limit {
        assert k > 0 ==> after[k] == before[k - 1];
      }
    }
  }
}
