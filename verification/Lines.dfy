/** Text as lines: splitting, partitioning and collecting key-value lines. */
module Lines {
  import opened State

  /** Where Python's `splitlines` breaks a line. */
  predicate IsBreak(c: char) {
    var n := c as int;
    10 <= n <= 13 || 28 <= n <= 30 || n == 0x85 || n == 0x2028 || n == 0x2029
  }

  ghost predicate OneLine(s: string) {
    forall i :: 0 <= i < |s| ==> !IsBreak(s[i])
  }

  function FindBreak(s: string): (at: int)
    ensures -1 <= at < |s|
    ensures at >= 0 ==> IsBreak(s[at]) && forall i :: 0 <= i < at ==> !IsBreak(s[i])
    ensures at == -1 ==> OneLine(s)
  {
    if s == "" then -1
    else if IsBreak(s[0]) then 0
    else
      var rest := FindBreak(s[1..]);
      assert forall i :: 0 < i < |s| ==> s[i] == s[1..][i - 1];
      if rest < 0 then -1 else rest + 1
  }

  function BreakWidth(s: string, at: nat): (w: nat)
    requires at < |s|
    ensures 1 <= w && at + w <= |s|
  {
    if s[at] == '\r' && at + 1 < |s| && s[at + 1] == '\n' then 2 else 1
  }

  function SplitLines(text: string): seq<string>
    decreases |text|
  {
    var at := FindBreak(text);
    if at >= 0 then [text[..at]] + SplitLines(text[at + BreakWidth(text, at)..])
    else if text == "" then []
    else [text]
  }

  /** Every line followed by a line feed. */
  function Terminated(lines: seq<string>): string {
    if lines == [] then "" else lines[0] + "\n" + Terminated(lines[1..])
  }

  function Partial(tail: string): seq<string> {
    if tail == "" then [] else [tail]
  }

  lemma FirstBreak(line: string, rest: string)
    requires OneLine(line)
    ensures var text := line + "\n" + rest;
            FindBreak(text) == |line| && text[..|line|] == line && BreakWidth(text, |line|) == 1
            && text[|line| + 1..] == rest
  {
    var text := line + "\n" + rest;
    assert text[|line|] == '\n';
    assert forall i :: 0 <= i < |line| ==> text[i] == line[i];
    assert text[..|line|] == line;
    assert text[|line| + 1..] == rest;
  }

  lemma Regroup(a: string, b: string, c: string)
    ensures a + b + c == a + (b + c)
  {}

  lemma FirstLine(lines: seq<string>, tail: seq<string>)
    requires lines != []
    ensures [lines[0]] + (lines[1..] + tail) == lines + tail
  {}

  /** Splitting undoes terminating, up to an unterminated last line. */
  lemma {:induction false} SplitTerminated(lines: seq<string>, tail: string)
    requires OneLine(tail) && forall i :: 0 <= i < |lines| ==> OneLine(lines[i])
    ensures SplitLines(Terminated(lines) + tail) == lines + Partial(tail)
  {
    if lines == [] {
      assert Terminated(lines) + tail == tail;
    } else {
      var rest := Terminated(lines[1..]) + tail;
      Regroup(lines[0] + "\n", Terminated(lines[1..]), tail);
      FirstBreak(lines[0], rest);
      SplitTerminated(lines[1..], tail);
      FirstLine(lines, Partial(tail));
    }
  }

  /** Cutting terminated lines anywhere leaves whole lines and a piece of the next one. */
  lemma {:induction false} CutTerminated(lines: seq<string>, p: nat) returns (k: nat, j: nat)
    requires p < |Terminated(lines)|
    ensures k < |lines| && j <= |lines[k]|
    ensures Terminated(lines)[..p] == Terminated(lines[..k]) + lines[k][..j]
    ensures p == |Terminated(lines)| - 1 <==> k == |lines| - 1 && j == |lines[k]|
  {
    var first, rest := lines[0] + "\n", Terminated(lines[1..]);
    assert Terminated(lines) == first + rest;
    if p < |first| {
      k, j := 0, p;
      assert Terminated(lines)[..p] == lines[0][..p];
      NotEmpty(lines[1..]);
    } else {
      k, j := CutTerminated(lines[1..], p - |first|);
      assert Terminated(lines)[..p] == first + rest[..p - |first|];
      assert lines[..k + 1][1..] == lines[1..][..k];
      assert Terminated(lines[..k + 1]) == first + Terminated(lines[1..][..k]);
      k := k + 1;
    }
  }

  lemma NotEmpty(lines: seq<string>)
    ensures Terminated(lines) == "" <==> lines == []
  {}

  // ---- key-value lines ----------------------------------------------------------------

  datatype Pair = Pair(key: string, value: string)

  function FindSpace(s: string): (at: int)
    ensures -1 <= at < |s|
    ensures at >= 0 ==> s[at] == ' ' && forall i :: 0 <= i < at ==> s[i] != ' '
    ensures at == -1 ==> ' ' !in s
  {
    if s == "" then -1
    else if s[0] == ' ' then 0
    else
      var rest := FindSpace(s[1..]);
      assert forall i :: 0 < i < |s| ==> s[i] == s[1..][i - 1];
      if rest < 0 then -1 else rest + 1
  }

  /** Key and value around the first space, if there is one. */
  function Partition(line: string): Option<Pair> {
    var at := FindSpace(line);
    if at < 0 then None else Some(Pair(line[..at], line[at + 1..]))
  }

  function Line(e: Pair): string {
    e.key + " " + e.value
  }

  lemma PartitionLine(e: Pair)
    requires ' ' !in e.key
    ensures Partition(Line(e)) == Some(e)
  {
    var line := Line(e);
    assert line[|e.key|] == ' ';
    assert forall i :: 0 <= i < |e.key| ==> line[i] == e.key[i] && e.key[i] in e.key;
    assert line[..|e.key|] == e.key && line[|e.key| + 1..] == e.value;
  }

  /** A cut line has the same key or none. */
  lemma PartitionCut(e: Pair, j: nat)
    requires ' ' !in e.key && j <= |Line(e)|
    ensures Partition(Line(e)[..j]) ==
            if j <= |e.key| then None else Some(Pair(e.key, e.value[..j - |e.key| - 1]))
  {
    var cut := Line(e)[..j];
    if j <= |e.key| {
      assert cut == e.key[..j];
    } else {
      assert cut == Line(Pair(e.key, e.value[..j - |e.key| - 1]));
      PartitionLine(Pair(e.key, e.value[..j - |e.key| - 1]));
    }
  }

  /** All lines as one dictionary; a line without key or a repeated key spoils them all. */
  function Collect(lines: seq<string>): Option<map<string, string>> {
    if lines == [] then Some(map[])
    else
      var before := Collect(lines[..|lines| - 1]);
      var entry := Partition(lines[|lines| - 1]);
      if before.None? || entry.None? || entry.value.key == "" || entry.value.key in before.value then None
      else Some(before.value[entry.value.key := entry.value.value])
  }

  method CollectValues(lines: seq<string>) returns (r: Option<map<string, string>>)
    ensures r == Collect(lines)
  {
    var values: map<string, string> := map[];
    for k := 0 to |lines|
      invariant Collect(lines[..k]) == Some(values)
    {
      assert lines[..k + 1][..k] == lines[..k];
      var entry := Partition(lines[k]);
      if entry.None? || entry.value.key == "" || entry.value.key in values {
        CollectFails(lines, k + 1);
        return None;
      }
      values := values[entry.value.key := entry.value.value];
    }
    assert lines[..|lines|] == lines;
    r := Some(values);
  }

  lemma {:induction false} CollectFails(lines: seq<string>, k: nat)
    requires k <= |lines| && Collect(lines[..k]).None?
    ensures Collect(lines).None?
  {
    if k < |lines| {
      assert lines[..|lines| - 1][..k] == lines[..k];
      CollectFails(lines[..|lines| - 1], k);
    } else {
      assert lines[..k] == lines;
    }
  }

  function LinesOf(entries: seq<Pair>): (lines: seq<string>)
    ensures |lines| == |entries| && forall i :: 0 <= i < |entries| ==> lines[i] == Line(entries[i])
  {
    seq(|entries|, i requires 0 <= i < |entries| => Line(entries[i]))
  }

  ghost predicate DistinctKeys(entries: seq<Pair>) {
    && (forall i :: 0 <= i < |entries| ==> entries[i].key != "" && ' ' !in entries[i].key)
    && (forall i, j :: 0 <= i < j < |entries| ==> entries[i].key != entries[j].key)
  }

  ghost predicate Tabulates(values: map<string, string>, entries: seq<Pair>) {
    && (forall i :: 0 <= i < |entries| ==> entries[i].key in values && values[entries[i].key] == entries[i].value)
    && (forall k :: k in values ==> exists i :: 0 <= i < |entries| && entries[i].key == k)
  }

  lemma TabulatesOneMore(values: map<string, string>, entries: seq<Pair>)
    requires entries != [] && DistinctKeys(entries) && Tabulates(values, entries[..|entries| - 1])
    ensures var last := entries[|entries| - 1];
            last.key !in values && Tabulates(values[last.key := last.value], entries)
  {
    var n := |entries| - 1;
    var front, last := entries[..n], entries[n];
    assert forall i :: 0 <= i < n ==> front[i] == entries[i];
    var after := values[last.key := last.value];
    forall k | k in after ensures exists i :: 0 <= i < |entries| && entries[i].key == k {
      if k != last.key {
        var i :| 0 <= i < |front| && front[i].key == k;
        assert entries[i].key == k;
      }
    }
  }

  lemma {:induction false} CollectLines(entries: seq<Pair>)
    requires DistinctKeys(entries)
    ensures Collect(LinesOf(entries)).Some? && Tabulates(Collect(LinesOf(entries)).value, entries)
  {
    if entries != [] {
      var n := |entries| - 1;
      CollectLines(entries[..n]);
      assert LinesOf(entries)[..n] == LinesOf(entries[..n]);
      PartitionLine(entries[n]);
      TabulatesOneMore(Collect(LinesOf(entries[..n])).value, entries);
    }
  }
}
