/** The wire format of bridge snapshots: printing, parsing, and what a torn file parses to. */
module Snapshot {
  import opened State
  import opened Lines
  import opened SnapshotFields
  import opened GoalDrain
  import Decimal

  datatype Value =
    | IntValue(number: int)
    | BoolValue(flag: bool)
    | TextValue(text: string)
    | OptionalValue(opt: Option<string>)

  datatype CommandReceipt = CommandReceipt(id: int, kind: int, payload: int, result: int, error: int)

  datatype Channel =
    | Absent
    | Malformed
    | Live(activation: int, dropped: int, next: int, events: seq<Record>)

  /** One value per fixed field except the receipt count, in wire order. */
  datatype BridgeSnapshot = BridgeSnapshot(
    revision: int, values: seq<Value>, receipts: seq<CommandReceipt>, channel: Channel)

  const RECEIPT_LIMIT := 8
  const EVENT_LIMIT := 64
  const RESULTS := 10
  const ERRORS := 20

  // ---- single values ----------------------------------------------------------------

  predicate IsSpace(c: char) {
    var n := c as int;
    || 9 <= n <= 13 || 28 <= n <= 32 || n == 0x85 || n == 0xA0 || n == 0x1680 || 0x2000 <= n <= 0x200A
    || n == 0x2028 || n == 0x2029 || n == 0x202F || n == 0x205F || n == 0x3000
  }

  predicate NoSpace(s: string) {
    forall i :: 0 <= i < |s| ==> !IsSpace(s[i])
  }

  predicate IsMessage(s: string) {
    |s| <= 160 && forall i :: 0 <= i < |s| ==> s[i] as int >= 32
  }

  function ParseIn(text: string, low: int, high: int): Option<int> {
    var n := Decimal.Parse(text);
    if n.Some? && low <= n.value <= high then n else None
  }

  function ParseValue(kind: Kind, text: string): Option<Value> {
    match kind
    case Integer => (match Decimal.Parse(text) case None => None case Some(n) => Some(IntValue(n)))
    case Boolean => (match ParseIn(text, 0, 1) case None => None case Some(n) => Some(BoolValue(n == 1)))
    case Enumeration(low, high) => (match ParseIn(text, low, high) case None => None case Some(n) => Some(IntValue(n)))
    case Text => Some(TextValue(text))
    case Message => if IsMessage(text) then Some(TextValue(text)) else None
    case Optional =>
      if text == "-" then Some(OptionalValue(None))
      else if 1 <= |text| <= 128 && NoSpace(text) then Some(OptionalValue(Some(text)))
      else None
  }

  function PrintValue(v: Value): string {
    match v
    case IntValue(n) => Decimal.Print(n)
    case BoolValue(b) => Decimal.Print(if b then 1 else 0)
    case TextValue(t) => t
    case OptionalValue(None) => "-"
    case OptionalValue(Some(t)) => t
  }

  /** Values of this kind that one line can carry. */
  ghost predicate Fits(kind: Kind, v: Value) {
    match kind
    case Integer => v.IntValue?
    case Boolean => v.BoolValue?
    case Enumeration(low, high) => v.IntValue? && low <= v.number <= high
    case Text => v.TextValue? && OneLine(v.text)
    case Message => v.TextValue? && OneLine(v.text) && IsMessage(v.text)
    case Optional =>
      v.OptionalValue? && (v.opt.Some? ==> v.opt.value != "-" && 1 <= |v.opt.value| <= 128 && NoSpace(v.opt.value))
  }

  lemma DecimalIsOneLine(n: int)
    ensures OneLine(Decimal.Print(n)) && NoSpace(Decimal.Print(n))
  {}

  lemma ParsePrintValue(kind: Kind, v: Value)
    requires Fits(kind, v)
    ensures ParseValue(kind, PrintValue(v)) == Some(v) && OneLine(PrintValue(v))
  {
    match v
    case IntValue(n) =>
      Decimal.ParsePrint(n);
      DecimalIsOneLine(n);
    case BoolValue(b) =>
      Decimal.ParsePrint(if b then 1 else 0);
      DecimalIsOneLine(if b then 1 else 0);
    case _ =>
  }

  // ---- events on one line -------------------------------------------------------------

  function Numbers(r: Record): (n: seq<int>)
    ensures |n| == 11
  {
    [r.sequence, r.tick, r.severity, r.code, r.kind, r.value, r.result, r.error, r.arg0, r.arg1, r.arg2]
  }

  function RecordOf(n: seq<int>): Record
    requires |n| == 11
  {
    Record(n[0], n[1], n[2], n[3], n[4], n[5], n[6], n[7], n[8], n[9], n[10])
  }

  function PrintNumbers(n: seq<int>): string {
    if n == [] then "" else if |n| == 1 then Decimal.Print(n[0]) else Decimal.Print(n[0]) + " " + PrintNumbers(n[1..])
  }

  /** The maximal runs of characters that are no space. */
  function Words(s: string): seq<string>
    decreases |s|
  {
    if s == "" then []
    else if IsSpace(s[0]) then Words(s[1..])
    else
      var n := WordLength(s);
      [s[..n]] + Words(s[n..])
  }

  function WordLength(s: string): (n: nat)
    ensures n <= |s| && NoSpace(s[..n]) && (n < |s| ==> IsSpace(s[n]))
    ensures s != "" && !IsSpace(s[0]) ==> n > 0
  {
    if s == "" || IsSpace(s[0]) then 0
    else
      var rest := WordLength(s[1..]);
      assert s[..rest + 1] == [s[0]] + s[1..][..rest];
      rest + 1
  }

  function ParseNumbers(words: seq<string>): Option<seq<int>> {
    if words == [] then Some([])
    else
      var first, rest := Decimal.Parse(words[0]), ParseNumbers(words[1..]);
      if first.None? || rest.None? then None else Some([first.value] + rest.value)
  }

  function ParseRecord(text: string): Option<Record> {
    var words := Words(text);
    if |words| != 11 then None
    else
      var numbers := ParseNumbers(words);
      if numbers.Some? && |numbers.value| == 11 then Some(RecordOf(numbers.value)) else None
  }

  lemma FirstWord(word: string, rest: string)
    requires word != "" && NoSpace(word) && (rest == "" || IsSpace(rest[0]))
    ensures Words(word + rest) == [word] + Words(rest)
  {
    var s := word + rest;
    assert s[0] == word[0] && s[..|word|] == word && s[|word|..] == rest;
    WordEnds(word, rest);
  }

  lemma {:induction false} WordEnds(word: string, rest: string)
    requires NoSpace(word) && (rest == "" || IsSpace(rest[0]))
    ensures WordLength(word + rest) == |word|
  {
    if word == "" {
      assert word + rest == rest;
    } else {
      assert (word + rest)[1..] == word[1..] + rest;
      WordEnds(word[1..], rest);
    }
  }

  lemma {:induction false} ParsePrintNumbers(n: seq<int>)
    ensures |Words(PrintNumbers(n))| == |n| && ParseNumbers(Words(PrintNumbers(n))) == Some(n)
    ensures OneLine(PrintNumbers(n))
  {
    if |n| == 1 {
      LastNumber(n[0]);
      assert n == [n[0]];
    } else if n != [] {
      ParsePrintNumbers(n[1..]);
      NextNumberReads(n[0], PrintNumbers(n[1..]), n[1..]);
      assert n == [n[0]] + n[1..];
    }
  }

  lemma LastNumber(n: int)
    ensures Words(Decimal.Print(n)) == [Decimal.Print(n)] && ParseNumbers([Decimal.Print(n)]) == Some([n])
    ensures OneLine(Decimal.Print(n))
  {
    var word := Decimal.Print(n);
    Decimal.ParsePrint(n);
    DecimalIsOneLine(n);
    FirstWord(word, "");
    assert word + "" == word && [word][1..] == [] && [word] + Words("") == [word];
    assert [n] + [] == [n];
  }

  lemma NextNumberReads(n: int, rest: string, numbers: seq<int>)
    requires ParseNumbers(Words(rest)) == Some(numbers) && |Words(rest)| == |numbers| && OneLine(rest)
    ensures var text := Decimal.Print(n) + " " + rest;
            |Words(text)| == 1 + |numbers| && ParseNumbers(Words(text)) == Some([n] + numbers) && OneLine(text)
  {
    var word := Decimal.Print(n);
    Decimal.ParsePrint(n);
    DecimalIsOneLine(n);
    FirstWord(word, " " + rest);
    assert word + " " + rest == word + (" " + rest);
    assert (" " + rest)[1..] == rest;
    assert ([word] + Words(rest))[1..] == Words(rest);
  }

  lemma ParsePrintRecord(r: Record)
    ensures ParseRecord(PrintNumbers(Numbers(r))) == Some(r) && OneLine(PrintNumbers(Numbers(r)))
  {
    ParsePrintNumbers(Numbers(r));
  }

  // ---- keys ---------------------------------------------------------------------------

  datatype Name = Field(position: nat) | ReceiptPart(receipt: nat, part: nat) | Header(part: nat) | Event(event: nat)

  function Suffix(part: nat): string {
    match part
    case 0 => "_id"
    case 1 => "_kind"
    case 2 => "_payload"
    case 3 => "_result"
    case _ => "_error"
  }

  function HeaderKey(part: nat): string {
    match part
    case 0 => "diagnostic_schema_version"
    case 1 => "diagnostic_manifest_version"
    case 2 => "diagnostic_activation_generation"
    case 3 => "diagnostic_dropped_count"
    case 4 => "diagnostic_next_sequence"
    case _ => "diagnostic_event_count"
  }

  const RECEIPT_PREFIX := "recent_command_"
  const DIAGNOSTIC_PREFIX := "diagnostic_"
  const EVENT_PREFIX := "diagnostic_event_"

  predicate IsName(n: Name) {
    match n
    case Field(i) => i < FIELDS
    case ReceiptPart(i, part) => i < RECEIPT_LIMIT && part < 5
    case Header(part) => part < 6
    case Event(i) => i < EVENT_LIMIT
  }

  function KeyText(n: Name): string
    requires IsName(n)
  {
    match n
    case Field(i) => Key(i)
    case ReceiptPart(i, part) => RECEIPT_PREFIX + Decimal.Print(i) + Suffix(part)
    case Header(part) => HeaderKey(part)
    case Event(i) => EVENT_PREFIX + Decimal.Print(i)
  }

  predicate IsDiagnostic(key: string) {
    |key| >= |DIAGNOSTIC_PREFIX| && key[..|DIAGNOSTIC_PREFIX|] == DIAGNOSTIC_PREFIX
  }

  /** Which key family a text belongs to: its first two characters and its first digit tell. */
  lemma FieldKeyShape(i: nat)
    requires i < FIELDS
    ensures var k := Key(i); |k| > 1 && !IsDiagnostic(k) && forall c :: c in k ==> IsKeyChar(c)
  {
    KeysArePlain(i);
    DiagnosticStart(Key(i));
  }

  lemma DiagnosticStart(key: string)
    ensures IsDiagnostic(key) ==> key[0] == 'd' && key[1] == 'i'
  {
    if IsDiagnostic(key) {
      assert key[..11][0] == 'd' && key[..11][1] == 'i';
    }
  }

  lemma ReceiptKeyShape(i: nat, part: nat)
    requires i < RECEIPT_LIMIT && part < 5
    ensures var k := KeyText(ReceiptPart(i, part));
            && |k| > 16 && k[0] == 'r' && k[15] == Decimal.Digit(i) && k[16..] == Suffix(part) && Decimal.Digit(i) in k
            && forall c :: c in k ==> IsKeyChar(c) || Decimal.IsDigit(c)
  {
    var k := KeyText(ReceiptPart(i, part));
    assert Decimal.Print(i) == [Decimal.Digit(i)];
    assert k == RECEIPT_PREFIX + ([Decimal.Digit(i)] + Suffix(part));
    assert k[15] == Decimal.Digit(i);
    forall c | c in k ensures IsKeyChar(c) || Decimal.IsDigit(c) {
      assert c in RECEIPT_PREFIX || c == Decimal.Digit(i) || c in Suffix(part);
    }
  }

  lemma HeaderKeyShape(part: nat)
    requires part < 6
    ensures var k := HeaderKey(part); IsDiagnostic(k) && k[0] == 'd' && forall c :: c in k ==> IsKeyChar(c)
  {
    if part < 3 {
      LowHeaderKeyShape(part);
    } else {
      HighHeaderKeyShape(part);
    }
  }

  lemma LowHeaderKeyShape(part: nat)
    requires part < 3
    ensures var k := HeaderKey(part); IsDiagnostic(k) && k[0] == 'd' && forall c :: c in k ==> IsKeyChar(c)
  {}

  lemma HighHeaderKeyShape(part: nat)
    requires 3 <= part < 6
    ensures var k := HeaderKey(part); IsDiagnostic(k) && k[0] == 'd' && forall c :: c in k ==> IsKeyChar(c)
  {}

  lemma HeaderKeysDiffer(a: nat, b: nat)
    requires a < 6 && b < 6 && HeaderKey(a) == HeaderKey(b)
    ensures a == b
  {}

  lemma SuffixesDiffer(a: nat, b: nat)
    requires a < 5 && b < 5 && Suffix(a) == Suffix(b)
    ensures a == b
  {}

  lemma EventKeyShape(i: nat)
    requires i < EVENT_LIMIT
    ensures var k := KeyText(Event(i));
            && IsDiagnostic(k) && k[0] == 'd' && |k| > 17 && k[17..] == Decimal.Print(i) && k[17] in k
            && Decimal.IsDigit(k[17])
            && forall c :: c in k ==> IsKeyChar(c) || Decimal.IsDigit(c)
  {
    var k := KeyText(Event(i));
    assert k[..11] == DIAGNOSTIC_PREFIX;
    assert k[17] == Decimal.Print(i)[0];
    forall c | c in k ensures IsKeyChar(c) || Decimal.IsDigit(c) {
      assert c in EVENT_PREFIX || c in Decimal.Print(i);
    }
  }

  lemma FieldKeysDiffer(i: nat, n: Name)
    requires i < FIELDS && IsName(n) && KeyText(n) == Key(i)
    ensures n == Field(i)
  {
    FieldKeyShape(i);
    match n
    case Field(j) =>
      KeysArePlain(i);
      KeysArePlain(j);
    case ReceiptPart(j, part) => ReceiptKeyShape(j, part);
    case Header(part) => HeaderKeyShape(part);
    case Event(j) => EventKeyShape(j);
  }

  lemma ReceiptKeysDiffer(i: nat, part: nat, n: Name)
    requires i < RECEIPT_LIMIT && part < 5 && IsName(n) && !n.Field? && KeyText(n) == KeyText(ReceiptPart(i, part))
    ensures n == ReceiptPart(i, part)
  {
    ReceiptKeyShape(i, part);
    match n
    case ReceiptPart(j, other) =>
      ReceiptKeyShape(j, other);
      SuffixesDiffer(part, other);
    case Header(other) => HeaderKeyShape(other);
    case Event(j) => EventKeyShape(j);
  }

  lemma EventKeysDiffer(i: nat, n: Name)
    requires i < EVENT_LIMIT && IsName(n) && (n.Header? || n.Event?) && KeyText(n) == KeyText(Event(i))
    ensures n == Event(i)
  {
    EventKeyShape(i);
    match n
    case Header(part) => HeaderKeyShape(part);
    case Event(j) =>
      EventKeyShape(j);
      Decimal.PrintInjective(i, j);
  }

  /** No two names share a key. */
  lemma KeysDiffer(a: Name, b: Name)
    requires IsName(a) && IsName(b) && KeyText(a) == KeyText(b)
    ensures a == b
  {
    if a.Field? {
      FieldKeysDiffer(a.position, b);
    } else if b.Field? {
      FieldKeysDiffer(b.position, a);
    } else if a.ReceiptPart? {
      ReceiptKeysDiffer(a.receipt, a.part, b);
    } else if b.ReceiptPart? {
      ReceiptKeysDiffer(b.receipt, b.part, a);
    } else if a.Event? {
      EventKeysDiffer(a.event, b);
    } else if b.Event? {
      EventKeysDiffer(b.event, a);
    } else {
      HeaderKeysDiffer(a.part, b.part);
    }
  }

  lemma KeyShape(n: Name)
    requires IsName(n)
    ensures var k := KeyText(n);
            && k != "" && ' ' !in k && OneLine(k) && k != "snapshot_end"
            && (IsDiagnostic(k) <==> n.Header? || n.Event?)
  {
    var k := KeyText(n);
    match n {
      case Field(i) =>
        FieldKeyShape(i);
        KeysArePlain(i);
      case ReceiptPart(i, part) =>
        ReceiptKeyShape(i, part);
        DiagnosticStart(k);
      case Header(part) => HeaderKeyShape(part);
      case Event(i) => EventKeyShape(i);
    }
    assert forall i :: 0 <= i < |k| ==> k[i] in k;
  }

  // ---- printing -------------------------------------------------------------------------

  function ReceiptNumber(r: CommandReceipt, part: nat): int {
    match part
    case 0 => r.id
    case 1 => r.kind
    case 2 => r.payload
    case 3 => r.result
    case _ => r.error
  }

  function HeaderNumber(c: Channel, part: nat): int
    requires c.Live?
  {
    match part
    case 0 => 1
    case 1 => 1
    case 2 => c.activation
    case 3 => c.dropped
    case 4 => c.next
    case _ => |c.events|
  }

  ghost predicate ChannelFits(c: Channel) {
    c.Live? ==>
      && c.activation >= 1 && c.dropped >= 0 && c.next >= 0 && |c.events| <= EVENT_LIMIT
      && (forall i :: 0 <= i < |c.events| ==> 0 <= c.events[i].sequence < c.next)
      && StrictlyOrdered(c.events)
  }

  predicate ReceiptFits(r: CommandReceipt) {
    r.id >= 0 && 0 <= r.result < RESULTS && 0 <= r.error < ERRORS
  }

  predicate InRange(values: seq<Value>) {
    && |values| == FIELDS - 1
    && values[CLIENT_HEARTBEAT].IntValue? && values[CLIENT_HEARTBEAT].number >= -1
    && values[GAME_HEARTBEAT].IntValue? && values[GAME_HEARTBEAT].number >= 0
    && values[ACTIVATION_GENERATION].IntValue? && values[ACTIVATION_GENERATION].number >= 1
    && values[SAVE_SLOT].IntValue? && -1 <= values[SAVE_SLOT].number <= 3
    && values[CURRENT_ACT].IntValue? && 0 <= values[CURRENT_ACT].number <= 3
    && values[NATIVE_MASK].IntValue? && -1 <= values[NATIVE_MASK].number <= 7
  }

  /** What the game may publish. */
  ghost predicate WellFormed(s: BridgeSnapshot) {
    && s.revision >= 0
    && InRange(s.values)
    && (forall i :: 0 <= i < |s.values| ==> Fits(KindOf(i), s.values[i]))
    && |s.receipts| <= RECEIPT_LIMIT && (forall i :: 0 <= i < |s.receipts| ==> ReceiptFits(s.receipts[i]))
    && !s.channel.Malformed? && ChannelFits(s.channel)
  }

  function DefaultValue(kind: Kind): Value {
    match kind
    case Boolean => BoolValue(false)
    case Text => TextValue("")
    case Message => TextValue("none")
    case Optional => OptionalValue(None)
    case _ => IntValue(1)
  }

  /** A snapshot that can be on the wire. */
  type Published = s: BridgeSnapshot | WellFormed(s)
    ghost witness BridgeSnapshot(0, seq(FIELDS - 1, i requires 0 <= i < FIELDS - 1 => DefaultValue(KindOf(i))), [],
                                 Absent)

  /** The printed fields, in order. */
  function NameCount(s: BridgeSnapshot): nat {
    FIELDS + 5 * |s.receipts| + if s.channel.Live? then 6 + |s.channel.events| else 0
  }

  function NameAt(s: BridgeSnapshot, k: nat): Name
    requires k < NameCount(s)
  {
    var counted := FIELDS + 5 * |s.receipts|;
    if k < FIELDS then Field(k)
    else if k < counted then ReceiptPart((k - FIELDS) / 5, (k - FIELDS) % 5)
    else if k < counted + 6 then Header(k - counted)
    else Event(k - counted - 6)
  }

  ghost predicate Prints(s: BridgeSnapshot, n: Name) {
    match n
    case Field(i) => i < FIELDS
    case ReceiptPart(i, part) => i < |s.receipts| && part < 5
    case Header(part) => s.channel.Live? && part < 6
    case Event(i) => s.channel.Live? && i < |s.channel.events|
  }

  function ValueText(s: BridgeSnapshot, n: Name): string
    requires |s.values| == FIELDS - 1 && Prints(s, n)
  {
    match n
    case Field(i) => if i == RECEIPT_COUNT then Decimal.Print(|s.receipts|) else PrintValue(s.values[i])
    case ReceiptPart(i, part) => Decimal.Print(ReceiptNumber(s.receipts[i], part))
    case Header(part) => Decimal.Print(HeaderNumber(s.channel, part))
    case Event(i) => PrintNumbers(Numbers(s.channel.events[i]))
  }

  lemma NameAtIsPrinted(s: Published, k: nat)
    requires k < NameCount(s)
    ensures Prints(s, NameAt(s, k)) && IsName(NameAt(s, k))
  {}

  lemma NamesAreDistinct(s: BridgeSnapshot, j: nat, k: nat)
    requires j < NameCount(s) && k < NameCount(s) && NameAt(s, j) == NameAt(s, k)
    ensures j == k
  {}

  /** Every printed name has its place. */
  function PlaceOf(s: BridgeSnapshot, n: Name): (k: nat)
    requires Prints(s, n)
    ensures k < NameCount(s) && NameAt(s, k) == n
  {
    match n
    case Field(i) => i
    case ReceiptPart(i, part) => FIELDS + 5 * i + part
    case Header(part) => FIELDS + 5 * |s.receipts| + part
    case Event(i) => FIELDS + 5 * |s.receipts| + 6 + i
  }

  ghost function EntryAt(s: Published, k: nat): Pair
    requires k < NameCount(s)
  {
    NameAtIsPrinted(s, k);
    Pair(KeyText(NameAt(s, k)), ValueText(s, NameAt(s, k)))
  }

  ghost function Entries(s: Published): (e: seq<Pair>)
    ensures |e| == NameCount(s) && forall k :: 0 <= k < |e| ==> e[k] == EntryAt(s, k)
  {
    seq(NameCount(s), k requires 0 <= k < NameCount(s) => EntryAt(s, k))
  }

  const BEGIN := "snapshot_begin"
  const END := "snapshot_end"

  ghost function Printed(s: Published): seq<string>
  {
    [Line(Pair(BEGIN, Decimal.Print(s.revision)))] + LinesOf(Entries(s)) + [Line(Pair(END, Decimal.Print(s.revision)))]
  }

  ghost function Format(s: Published): string
  {
    Terminated(Printed(s))
  }

  lemma EntriesAreDistinct(s: Published)
    ensures DistinctKeys(Entries(s))
  {
    var e := Entries(s);
    forall k | 0 <= k < |e| ensures e[k].key != "" && ' ' !in e[k].key {
      NameAtIsPrinted(s, k);
      KeyShape(NameAt(s, k));
    }
    forall j, k | 0 <= j < k < |e| ensures e[j].key != e[k].key {
      EntriesDiffer(s, j, k);
    }
  }

  lemma EntriesDiffer(s: Published, j: nat, k: nat)
    requires j < k < NameCount(s)
    ensures EntryAt(s, j).key != EntryAt(s, k).key
  {
    NameAtIsPrinted(s, j);
    NameAtIsPrinted(s, k);
    if EntryAt(s, j).key == EntryAt(s, k).key {
      KeysDiffer(NameAt(s, j), NameAt(s, k));
      NamesAreDistinct(s, j, k);
    }
  }

  lemma ValueIsOneLine(s: Published, n: Name)
    requires Prints(s, n)
    ensures OneLine(ValueText(s, n))
  {
    match n
    case Field(i) =>
      DecimalIsOneLine(|s.receipts|);
      if i < RECEIPT_COUNT {
        ParsePrintValue(KindOf(i), s.values[i]);
      }
    case ReceiptPart(i, part) => DecimalIsOneLine(ReceiptNumber(s.receipts[i], part));
    case Header(part) => DecimalIsOneLine(HeaderNumber(s.channel, part));
    case Event(i) => ParsePrintRecord(s.channel.events[i]);
  }

  lemma LineIsOneLine(e: Pair)
    requires OneLine(e.key) && OneLine(e.value)
    ensures OneLine(Line(e))
  {}

  lemma EntryIsOneLine(s: Published, k: nat)
    requires k < NameCount(s)
    ensures OneLine(Line(EntryAt(s, k)))
  {
    NameAtIsPrinted(s, k);
    KeyShape(NameAt(s, k));
    ValueIsOneLine(s, NameAt(s, k));
    LineIsOneLine(EntryAt(s, k));
  }

  lemma RevisionLinesAreLines(revision: int)
    ensures OneLine(Line(Pair(BEGIN, Decimal.Print(revision)))) && OneLine(Line(Pair(END, Decimal.Print(revision))))
  {
    DecimalIsOneLine(revision);
    LineIsOneLine(Pair(BEGIN, Decimal.Print(revision)));
    LineIsOneLine(Pair(END, Decimal.Print(revision)));
  }

  /** The first line, the entries' lines, the last line. */
  lemma PrintedAt(s: Published, i: nat)
    requires i < |Printed(s)|
    ensures |Printed(s)| == NameCount(s) + 2
    ensures Printed(s)[i] ==
            if i == 0 then Line(Pair(BEGIN, Decimal.Print(s.revision)))
            else if i <= NameCount(s) then Line(EntryAt(s, i - 1))
            else Line(Pair(END, Decimal.Print(s.revision)))
  {}

  lemma PrintedLinesAreLines(s: Published)
    ensures forall i :: 0 <= i < |Printed(s)| ==> OneLine(Printed(s)[i])
  {
    RevisionLinesAreLines(s.revision);
    forall k: nat | k < NameCount(s) ensures OneLine(Line(EntryAt(s, k))) {
      EntryIsOneLine(s, k);
    }
    EnclosedLines(Line(Pair(BEGIN, Decimal.Print(s.revision))), Entries(s), Line(Pair(END, Decimal.Print(s.revision))));
  }

  lemma EnclosedLines(first: string, entries: seq<Pair>, last: string)
    requires OneLine(first) && OneLine(last) && forall i :: 0 <= i < |entries| ==> OneLine(Line(entries[i]))
    ensures forall i :: 0 <= i < |entries| + 2 ==> OneLine(([first] + LinesOf(entries) + [last])[i])
  {}

  // ---- parsing --------------------------------------------------------------------------

  type Values = map<string, string>

  function Lookup(values: Values, n: Name): Option<string>
    requires IsName(n)
  {
    if KeyText(n) in values then Some(values[KeyText(n)]) else None
  }

  function ParseNumber(text: Option<string>): Option<int> {
    if text.None? then None else Decimal.Parse(text.value)
  }

  function ParseField(values: Values, i: nat): Option<Value>
    requires i < FIELDS
  {
    var text := Lookup(values, Field(i));
    if text.None? then None else ParseValue(KindOf(i), text.value)
  }

  /** The first n results, if none is missing. */
  function Each<T>(parse: nat -> Option<T>, n: nat): Option<seq<T>> {
    if n == 0 then Some([])
    else
      var before, last := Each(parse, n - 1), parse(n - 1);
      if before.None? || last.None? then None else Some(before.value + [last.value])
  }

  lemma {:induction false} EachParses<T>(parse: nat -> Option<T>, s: seq<T>, n: nat)
    requires n <= |s| && forall i: nat :: i < n ==> parse(i) == Some(s[i])
    ensures Each(parse, n) == Some(s[..n])
  {
    if n > 0 {
      EachParses(parse, s, n - 1);
      assert s[..n] == s[..n - 1] + [s[n - 1]];
    }
  }

  function ParseFields(values: Values): Option<seq<Value>> {
    Each((i: nat) => if i < FIELDS then ParseField(values, i) else None, FIELDS)
  }

  function ParseReceipt(values: Values, i: nat): Option<CommandReceipt>
    requires i < RECEIPT_LIMIT
  {
    var id := ParseNumber(Lookup(values, ReceiptPart(i, 0)));
    var kind := ParseNumber(Lookup(values, ReceiptPart(i, 1)));
    var payload := ParseNumber(Lookup(values, ReceiptPart(i, 2)));
    var result := ParseNumber(Lookup(values, ReceiptPart(i, 3)));
    var error := ParseNumber(Lookup(values, ReceiptPart(i, 4)));
    if id.None? || kind.None? || payload.None? || result.None? || error.None? then None
    else
      var r := CommandReceipt(id.value, kind.value, payload.value, result.value, error.value);
      if ReceiptFits(r) then Some(r) else None
  }

  function ParseReceipts(values: Values, n: nat): Option<seq<CommandReceipt>>
    requires n <= RECEIPT_LIMIT
  {
    Each((i: nat) => if i < RECEIPT_LIMIT then ParseReceipt(values, i) else None, n)
  }

  function ParseEvent(values: Values, i: nat): Option<Record>
    requires i < EVENT_LIMIT
  {
    var text := Lookup(values, Event(i));
    if text.None? then None else ParseRecord(text.value)
  }

  function ParseEvents(values: Values, n: nat): Option<seq<Record>>
    requires n <= EVENT_LIMIT
  {
    Each((i: nat) => if i < EVENT_LIMIT then ParseEvent(values, i) else None, n)
  }

  predicate OrderedBelow(events: seq<Record>, next: int) {
    && (forall i :: 0 <= i < |events| ==> 0 <= events[i].sequence < next)
    && forall i :: 0 <= i < |events| - 1 ==> events[i].sequence < events[i + 1].sequence
  }

  /** Diagnostics are optional, and malformed ones never cost the rest of the snapshot. */
  function ParseChannel(values: Values): Channel {
    if !(exists k :: k in values && IsDiagnostic(k)) then Absent
    else
      var schema := ParseNumber(Lookup(values, Header(0)));
      var manifest := ParseNumber(Lookup(values, Header(1)));
      var activation := ParseNumber(Lookup(values, Header(2)));
      var dropped := ParseNumber(Lookup(values, Header(3)));
      var next := ParseNumber(Lookup(values, Header(4)));
      var count := ParseNumber(Lookup(values, Header(5)));
      if activation.None? || dropped.None? || next.None? || count.None? then Malformed
      else if schema != Some(1) || manifest != Some(1) then Malformed
      else if activation.value < 1 || dropped.value < 0 || next.value < 0 then Malformed
      else if !(0 <= count.value <= EVENT_LIMIT) then Malformed
      else
        var events := ParseEvents(values, count.value);
        if events.None? || !OrderedBelow(events.value, next.value) then Malformed
        else Live(activation.value, dropped.value, next.value, events.value)
  }

  function Assemble(revision: int, values: Values): Option<BridgeSnapshot> {
    var fields := ParseFields(values);
    if fields.None? || |fields.value| != FIELDS || !fields.value[RECEIPT_COUNT].IntValue? then None
    else
      var count := fields.value[RECEIPT_COUNT].number;
      if !(0 <= count <= RECEIPT_LIMIT) then None
      else
        var receipts := ParseReceipts(values, count);
        if receipts.None? || !InRange(fields.value[..RECEIPT_COUNT]) then None
        else Some(BridgeSnapshot(revision, fields.value[..RECEIPT_COUNT], receipts.value, ParseChannel(values)))
  }

  function RevisionIn(line: string, key: string): Option<int> {
    var e := Partition(line);
    if e.None? || e.value.key != key then None else Decimal.Parse(e.value.value)
  }

  function ParseLines(lines: seq<string>): Option<BridgeSnapshot> {
    if |lines| < 2 then None
    else
      var begin, end := RevisionIn(lines[0], BEGIN), RevisionIn(lines[|lines| - 1], END);
      if begin.None? || end.None? || begin.value < 0 || begin != end then None
      else
        var values := Collect(lines[1..|lines| - 1]);
        if values.None? then None else Assemble(begin.value, values.value)
  }

  function Parse(text: string): Option<BridgeSnapshot> {
    ParseLines(SplitLines(text))
  }

  // ---- parsing undoes printing -------------------------------------------------------------

  /** The dictionary holds exactly what was printed. */
  ghost predicate Tabled(values: Values, s: BridgeSnapshot)
    requires |s.values| == FIELDS - 1
  {
    && (forall n :: IsName(n) && Prints(s, n) ==> Lookup(values, n) == Some(ValueText(s, n)))
    && (s.channel.Absent? ==> forall k :: k in values ==> !IsDiagnostic(k))
  }

  lemma EntriesAreTabled(values: Values, s: Published)
    requires Tabulates(values, Entries(s))
    ensures Tabled(values, s)
  {
    forall n | IsName(n) && Prints(s, n) ensures Lookup(values, n) == Some(ValueText(s, n)) {
      var k := PlaceOf(s, n);
      assert Entries(s)[k] == EntryAt(s, k);
    }
    if s.channel.Absent? {
      forall key | key in values ensures !IsDiagnostic(key) {
        var k :| 0 <= k < |Entries(s)| && Entries(s)[k].key == key;
        NameAtIsPrinted(s, k);
        KeyShape(NameAt(s, k));
      }
    }
  }

  lemma FieldParses(values: Values, s: Published, i: nat)
    requires Tabled(values, s) && i < FIELDS
    ensures ParseField(values, i) == Some(if i == RECEIPT_COUNT then IntValue(|s.receipts|) else s.values[i])
  {
    assert Prints(s, Field(i)) && IsName(Field(i));
    if i == RECEIPT_COUNT {
      Decimal.ParsePrint(|s.receipts|);
    } else {
      ParsePrintValue(KindOf(i), s.values[i]);
    }
  }

  lemma FieldsParse(values: Values, s: Published)
    requires Tabled(values, s)
    ensures ParseFields(values) == Some(s.values + [IntValue(|s.receipts|)])
  {
    var fields := s.values + [IntValue(|s.receipts|)];
    forall i: nat | i < FIELDS ensures ParseField(values, i) == Some(fields[i]) {
      FieldParses(values, s, i);
    }
    EachParses((i: nat) => if i < FIELDS then ParseField(values, i) else None, fields, FIELDS);
    assert fields[..FIELDS] == fields;
  }

  lemma NumberParses(values: Values, s: Published, n: Name, number: int)
    requires Tabled(values, s) && IsName(n) && Prints(s, n) && ValueText(s, n) == Decimal.Print(number)
    ensures ParseNumber(Lookup(values, n)) == Some(number)
  {
    Decimal.ParsePrint(number);
  }

  lemma ReceiptParses(values: Values, s: Published, i: nat)
    requires Tabled(values, s) && i < |s.receipts|
    ensures ParseReceipt(values, i) == Some(s.receipts[i])
  {
    forall part: nat | part < 5
      ensures ParseNumber(Lookup(values, ReceiptPart(i, part))) == Some(ReceiptNumber(s.receipts[i], part))
    {
      NumberParses(values, s, ReceiptPart(i, part), ReceiptNumber(s.receipts[i], part));
    }
  }

  lemma ReceiptsParse(values: Values, s: Published)
    requires Tabled(values, s)
    ensures ParseReceipts(values, |s.receipts|) == Some(s.receipts)
  {
    forall i: nat | i < |s.receipts| ensures ParseReceipt(values, i) == Some(s.receipts[i]) {
      ReceiptParses(values, s, i);
    }
    EachParses((i: nat) => if i < RECEIPT_LIMIT then ParseReceipt(values, i) else None, s.receipts, |s.receipts|);
    assert s.receipts[..|s.receipts|] == s.receipts;
  }

  lemma EventParses(values: Values, s: Published, i: nat)
    requires Tabled(values, s) && s.channel.Live? && i < |s.channel.events|
    ensures ParseEvent(values, i) == Some(s.channel.events[i])
  {
    assert Prints(s, Event(i)) && IsName(Event(i));
    ParsePrintRecord(s.channel.events[i]);
  }

  lemma EventsParse(values: Values, s: Published)
    requires Tabled(values, s) && s.channel.Live?
    ensures ParseEvents(values, |s.channel.events|) == Some(s.channel.events)
  {
    var events := s.channel.events;
    forall i: nat | i < |events| ensures ParseEvent(values, i) == Some(events[i]) {
      EventParses(values, s, i);
    }
    EachParses((i: nat) => if i < EVENT_LIMIT then ParseEvent(values, i) else None, events, |events|);
    assert events[..|events|] == events;
  }

  lemma HeaderParses(values: Values, s: Published, part: nat)
    requires Tabled(values, s) && s.channel.Live? && part < 6
    ensures ParseNumber(Lookup(values, Header(part))) == Some(HeaderNumber(s.channel, part))
    ensures exists k :: k in values && IsDiagnostic(k)
  {
    NumberParses(values, s, Header(part), HeaderNumber(s.channel, part));
    HeaderKeyShape(part);
    assert Lookup(values, Header(part)).Some?;
  }

  lemma ChannelParses(values: Values, s: Published)
    requires Tabled(values, s)
    ensures ParseChannel(values) == s.channel
  {
    if s.channel.Live? {
      HeaderParses(values, s, 0);
      HeaderParses(values, s, 1);
      HeaderParses(values, s, 2);
      HeaderParses(values, s, 3);
      HeaderParses(values, s, 4);
      HeaderParses(values, s, 5);
      EventsParse(values, s);
    }
  }

  lemma AssembleTabled(values: Values, s: Published)
    requires Tabled(values, s)
    ensures Assemble(s.revision, values) == Some(s)
  {
    FieldsParse(values, s);
    assert (s.values + [IntValue(|s.receipts|)])[..RECEIPT_COUNT] == s.values;
    ReceiptsParse(values, s);
    ChannelParses(values, s);
  }

  lemma RevisionLine(key: string, revision: int)
    requires ' ' !in key
    ensures RevisionIn(Line(Pair(key, Decimal.Print(revision))), key) == Some(revision)
  {
    PartitionLine(Pair(key, Decimal.Print(revision)));
    Decimal.ParsePrint(revision);
  }

  lemma PrintedEnds(s: Published)
    ensures RevisionIn(Printed(s)[0], BEGIN) == Some(s.revision) == RevisionIn(Printed(s)[|Printed(s)| - 1], END)
  {
    PrintedAt(s, 0);
    PrintedAt(s, |Printed(s)| - 1);
    RevisionLine(BEGIN, s.revision);
    RevisionLine(END, s.revision);
  }

  lemma PrintedMiddle(s: Published)
    ensures Printed(s)[1..|Printed(s)| - 1] == LinesOf(Entries(s))
  {}

  lemma EntriesAssemble(s: Published)
    ensures Collect(LinesOf(Entries(s))).Some?
    ensures Assemble(s.revision, Collect(LinesOf(Entries(s))).value) == Some(s)
  {
    EntriesAreDistinct(s);
    CollectLines(Entries(s));
    var values := Collect(LinesOf(Entries(s))).value;
    EntriesAreTabled(values, s);
    AssembleTabled(values, s);
  }

  lemma PrintedParses(s: Published)
    ensures ParseLines(Printed(s)) == Some(s)
  {
    PrintedEnds(s);
    PrintedMiddle(s);
    EntriesAssemble(s);
  }

  lemma FormatSplits(s: Published)
    ensures SplitLines(Format(s)) == Printed(s)
  {
    PrintedLinesAreLines(s);
    SplitTerminated(Printed(s), "");
    assert Format(s) + "" == Format(s);
  }

  /** Reading back any well-formed snapshot gives that snapshot. */
  lemma RoundTrip(s: Published)
    ensures Parse(Format(s)) == Some(s)
  {
    FormatSplits(s);
    PrintedParses(s);
  }

  // ---- torn files -------------------------------------------------------------------------

  lemma NoEnd(lines: seq<string>, revision: int)
    requires |lines| >= 2 ==>
               RevisionIn(lines[0], BEGIN) == Some(revision) && RevisionIn(lines[|lines| - 1], END) != Some(revision)
    ensures ParseLines(lines).None?
  {}

  /** A piece of an entry's line is never the last line of a snapshot. */
  lemma CutEntryIsNoEnd(s: Published, k: nat, piece: string)
    requires k < NameCount(s) && piece <= Line(EntryAt(s, k))
    ensures RevisionIn(piece, END).None?
  {
    NameAtIsPrinted(s, k);
    KeyShape(NameAt(s, k));
    PieceOfLine(EntryAt(s, k), piece);
  }

  lemma CutEndIsNoEnd(revision: nat, piece: string)
    requires piece < Line(Pair(END, Decimal.Print(revision)))
    ensures RevisionIn(piece, END) != Some(revision)
  {
    var e := Pair(END, Decimal.Print(revision));
    PieceOfLine(e, piece);
    if |piece| > |END| {
      Decimal.TornDecimal(revision, |piece| - |END| - 1);
    }
  }

  lemma PieceOfLine(e: Pair, piece: string)
    requires ' ' !in e.key && piece <= Line(e)
    ensures Partition(piece) ==
            if |piece| <= |e.key| then None else Some(Pair(e.key, e.value[..|piece| - |e.key| - 1]))
  {
    PartitionCut(e, |piece|);
    assert piece == Line(e)[..|piece|];
  }

  /** The lines left when a file is cut inside its line k, after j characters. */
  function Torn(lines: seq<string>, k: nat, j: nat): seq<string>
    requires k < |lines| && j <= |lines[k]|
  {
    lines[..k] + Partial(lines[k][..j])
  }

  /** The last whole or partial line left by the cut. */
  lemma TornEnd(lines: seq<string>, k: nat, j: nat)
    requires k < |lines| && j <= |lines[k]| && |Torn(lines, k, j)| >= 2
    ensures k > 0 && Torn(lines, k, j)[0] == lines[0]
    ensures var last := Torn(lines, k, j)[|Torn(lines, k, j)| - 1];
            if j > 0 then last == lines[k][..j] else k > 1 && last == lines[k - 1]
  {}

  lemma WholeLine(line: string)
    ensures line[..|line|] == line
  {}

  lemma TornLinesAreNothing(lines: seq<string>, revision: int, k: nat, j: nat)
    requires k < |lines| && j <= |lines[k]| && RevisionIn(lines[0], BEGIN) == Some(revision)
    requires k > 0 && j > 0 ==> RevisionIn(lines[k][..j], END) != Some(revision)
    requires k > 1 && j == 0 ==> RevisionIn(lines[k - 1], END) != Some(revision)
    ensures ParseLines(Torn(lines, k, j)).None?
  {
    if |Torn(lines, k, j)| >= 2 {
      TornEnd(lines, k, j);
    }
    NoEnd(Torn(lines, k, j), revision);
  }

  lemma WholeIsNoEnd(s: Published, k: nat)
    requires 0 < k < |Printed(s)| - 1
    ensures RevisionIn(Printed(s)[k], END) != Some(s.revision)
  {
    CutIsNoEnd(s, k, |Printed(s)[k]|);
    WholeLine(Printed(s)[k]);
  }

  lemma CutIsNoEnd(s: Published, k: nat, j: nat)
    requires 0 < k < |Printed(s)| && j <= |Printed(s)[k]|
    requires k == |Printed(s)| - 1 ==> j < |Printed(s)[k]|
    ensures RevisionIn(Printed(s)[k][..j], END) != Some(s.revision)
  {
    PrintedAt(s, k);
    if k <= NameCount(s) {
      CutEntryIsNoEnd(s, k - 1, Printed(s)[k][..j]);
    } else {
      CutEndIsNoEnd(s.revision, Printed(s)[k][..j]);
    }
  }

  lemma TornIsNothing(s: Published, k: nat, j: nat)
    requires k < |Printed(s)| && j <= |Printed(s)[k]|
    requires k == |Printed(s)| - 1 ==> j < |Printed(s)[k]|
    ensures ParseLines(Torn(Printed(s), k, j)).None?
  {
    PrintedEnds(s);
    if k > 0 && j > 0 {
      CutIsNoEnd(s, k, j);
    }
    if k > 1 && j == 0 {
      WholeIsNoEnd(s, k - 1);
    }
    TornLinesAreNothing(Printed(s), s.revision, k, j);
  }

  /**
    A snapshot file cut anywhere parses to nothing, unless only its final line
    feed is missing; then it parses to the snapshot itself.
  */
  lemma TornFile(s: Published, p: nat)
    requires p < |Format(s)|
    ensures Parse(Format(s)[..p]) == if p == |Format(s)| - 1 then Some(s) else None
  {
    var lines := Printed(s);
    var k, j := CutTerminated(lines, p);
    PrintedLinesAreLines(s);
    assert OneLine(lines[k][..j]);
    SplitTerminated(lines[..k], lines[k][..j]);
    if k == |lines| - 1 && j == |lines[k]| {
      PrintedAt(s, k);
      assert lines[k][..j] == lines[k] && lines[..k] + [lines[k]] == lines;
      PrintedParses(s);
    } else {
      TornIsNothing(s, k, j);
    }
  }

  // ---- what a parsed channel guarantees -------------------------------------------------

  lemma {:induction false} AdjacentOrdered(events: seq<Record>, i: nat, j: nat)
    requires i < j < |events| && forall k :: 0 <= k < |events| - 1 ==> events[k].sequence < events[k + 1].sequence
    ensures events[i].sequence < events[j].sequence
  {
    if i + 1 < j {
      AdjacentOrdered(events, i, j - 1);
    }
  }

  lemma OrderedBelowIsStrict(events: seq<Record>, next: int)
    requires OrderedBelow(events, next)
    ensures StrictlyOrdered(events)
  {
    forall i, j | 0 <= i < j < |events| ensures events[i].sequence < events[j].sequence {
      AdjacentOrdered(events, i, j);
    }
  }

  lemma {:induction false} EachLength<T>(parse: nat -> Option<T>, n: nat)
    ensures Each(parse, n).Some? ==> |Each(parse, n).value| == n
  {
    if n > 0 {
      EachLength(parse, n - 1);
    }
  }

  lemma EventsLength(values: Values, n: nat)
    requires n <= EVENT_LIMIT
    ensures ParseEvents(values, n).Some? ==> |ParseEvents(values, n).value| == n
  {
    EachLength((i: nat) => if i < EVENT_LIMIT then ParseEvent(values, i) else None, n);
  }

  /** Events of a parsed live channel are strictly ordered and below the next number, as a drain needs them. */
  lemma ParsedChannelFits(values: Values)
    ensures ChannelFits(ParseChannel(values))
  {
    var c := ParseChannel(values);
    var count := ParseNumber(Lookup(values, Header(5)));
    if count.Some? && 0 <= count.value <= EVENT_LIMIT {
      EventsLength(values, count.value);
    }
    if c.Live? {
      OrderedBelowIsStrict(c.events, c.next);
    }
  }

  // ---- optional diagnostics ---------------------------------------------------------------

  lemma {:induction false} EachAgrees<T>(f: nat -> Option<T>, g: nat -> Option<T>, n: nat)
    requires forall i: nat :: i < n ==> f(i) == g(i)
    ensures Each(f, n) == Each(g, n)
  {
    if n > 0 {
      EachAgrees(f, g, n - 1);
    }
  }

  /** The two dictionaries differ in diagnostic keys only. */
  ghost predicate SameBesidesDiagnostics(a: Values, b: Values) {
    forall n :: IsName(n) && !n.Header? && !n.Event? ==> Lookup(a, n) == Lookup(b, n)
  }

  lemma ReceiptsAgree(a: Values, b: Values, n: nat)
    requires SameBesidesDiagnostics(a, b) && n <= RECEIPT_LIMIT
    ensures ParseReceipts(a, n) == ParseReceipts(b, n)
  {
    forall i: nat | i < RECEIPT_LIMIT ensures ParseReceipt(a, i) == ParseReceipt(b, i) {
      ReceiptAgrees(a, b, i);
    }
    EachAgrees((i: nat) => if i < RECEIPT_LIMIT then ParseReceipt(a, i) else None,
               (i: nat) => if i < RECEIPT_LIMIT then ParseReceipt(b, i) else None, n);
  }

  lemma ReceiptAgrees(a: Values, b: Values, i: nat)
    requires SameBesidesDiagnostics(a, b) && i < RECEIPT_LIMIT
    ensures ParseReceipt(a, i) == ParseReceipt(b, i)
  {
    forall part: nat | part < 5 ensures Lookup(a, ReceiptPart(i, part)) == Lookup(b, ReceiptPart(i, part)) {
      assert IsName(ReceiptPart(i, part));
    }
  }

  /** Whatever happened to the diagnostics, the rest of the snapshot parses the same. */
  lemma DiagnosticsAreOptional(revision: int, a: Values, b: Values)
    requires SameBesidesDiagnostics(a, b)
    ensures Assemble(revision, a).Some? <==> Assemble(revision, b).Some?
    ensures Assemble(revision, a).Some? ==>
              Assemble(revision, b) == Some(Assemble(revision, a).value.(channel := ParseChannel(b)))
  {
    forall i: nat | i < FIELDS ensures ParseField(a, i) == ParseField(b, i) {
      assert IsName(Field(i));
    }
    EachAgrees((i: nat) => if i < FIELDS then ParseField(a, i) else None,
               (i: nat) => if i < FIELDS then ParseField(b, i) else None, FIELDS);
    assert ParseFields(a) == ParseFields(b);
    var fields := ParseFields(a);
    if fields.Some? && |fields.value| == FIELDS && fields.value[RECEIPT_COUNT].IntValue? {
      var count := fields.value[RECEIPT_COUNT].number;
      if 0 <= count <= RECEIPT_LIMIT {
        ReceiptsAgree(a, b, count);
      }
    }
  }

  // ---- the printer and the parser as they run -------------------------------------------

  lemma NextEntry(s: Published, n: Name, k: nat)
    requires Prints(s, n) && k == PlaceOf(s, n)
    ensures k < |Entries(s)| && IsName(n)
    ensures Entries(s)[..k + 1] == Entries(s)[..k] + [Pair(KeyText(n), ValueText(s, n))]
  {
    NameAtIsPrinted(s, k);
    assert Entries(s)[k] == EntryAt(s, k);
  }

  method FormatReceipts(s: Published, fields: seq<Pair>) returns (pairs: seq<Pair>)
    requires fields == Entries(s)[..FIELDS]
    ensures pairs == Entries(s)[..FIELDS + 5 * |s.receipts|]
  {
    pairs := fields;
    for i := 0 to |s.receipts|
      invariant pairs == Entries(s)[..FIELDS + 5 * i]
    {
      for part := 0 to 5
        invariant pairs == Entries(s)[..FIELDS + 5 * i + part]
      {
        NextEntry(s, ReceiptPart(i, part), FIELDS + 5 * i + part);
        pairs := pairs + [Pair(KeyText(ReceiptPart(i, part)), ValueText(s, ReceiptPart(i, part)))];
      }
    }
  }

  method FormatChannel(s: Published, counted: seq<Pair>) returns (pairs: seq<Pair>)
    requires s.channel.Live? && counted == Entries(s)[..FIELDS + 5 * |s.receipts|]
    ensures pairs == Entries(s)
  {
    pairs := counted;
    for part := 0 to 6
      invariant pairs == Entries(s)[..FIELDS + 5 * |s.receipts| + part]
    {
      NextEntry(s, Header(part), FIELDS + 5 * |s.receipts| + part);
      pairs := pairs + [Pair(KeyText(Header(part)), ValueText(s, Header(part)))];
    }
    for i := 0 to |s.channel.events|
      invariant pairs == Entries(s)[..FIELDS + 5 * |s.receipts| + 6 + i]
    {
      NextEntry(s, Event(i), FIELDS + 5 * |s.receipts| + 6 + i);
      pairs := pairs + [Pair(KeyText(Event(i)), ValueText(s, Event(i)))];
    }
    assert Entries(s)[..|Entries(s)|] == Entries(s);
  }

  method FormatSnapshot(s: Published) returns (text: string)
    ensures text == Format(s)
  {
    var pairs: seq<Pair> := [];
    for i := 0 to FIELDS
      invariant pairs == Entries(s)[..i]
    {
      NextEntry(s, Field(i), i);
      pairs := pairs + [Pair(KeyText(Field(i)), ValueText(s, Field(i)))];
    }
    pairs := FormatReceipts(s, pairs);
    if s.channel.Live? {
      pairs := FormatChannel(s, pairs);
    } else {
      assert Entries(s)[..|Entries(s)|] == Entries(s);
    }
    var lines := [Line(Pair(BEGIN, Decimal.Print(s.revision)))] + LinesOf(pairs)
                 + [Line(Pair(END, Decimal.Print(s.revision)))];
    text := Terminated(lines);
  }

  method ParseEach<T>(parse: nat -> Option<T>, n: nat) returns (r: Option<seq<T>>)
    ensures r == Each(parse, n)
  {
    var parsed: seq<T> := [];
    for i := 0 to n
      invariant Each(parse, i) == Some(parsed)
    {
      var next := parse(i);
      if next.None? {
        EachFails(parse, i + 1, n);
        return None;
      }
      parsed := parsed + [next.value];
    }
    r := Some(parsed);
  }

  lemma {:induction false} EachFails<T>(parse: nat -> Option<T>, k: nat, n: nat)
    requires k <= n && Each(parse, k).None?
    ensures Each(parse, n).None?
  {
    if k < n {
      EachFails(parse, k, n - 1);
    }
  }

  method ParseSnapshotText(text: string) returns (r: Option<BridgeSnapshot>)
    ensures r == Parse(text)
  {
    var lines := SplitLines(text);
    if |lines| < 2 {
      return None;
    }
    var begin, end := RevisionIn(lines[0], BEGIN), RevisionIn(lines[|lines| - 1], END);
    if begin.None? || end.None? || begin.value < 0 || begin != end {
      return None;
    }
    var values := CollectValues(lines[1..|lines| - 1]);
    if values.None? {
      return None;
    }
    r := AssembleSnapshot(begin.value, values.value);
  }

  method AssembleSnapshot(revision: int, values: Values) returns (r: Option<BridgeSnapshot>)
    ensures r == Assemble(revision, values)
  {
    var fields := ParseEach((i: nat) => if i < FIELDS then ParseField(values, i) else None, FIELDS);
    if fields.None? || |fields.value| != FIELDS || !fields.value[RECEIPT_COUNT].IntValue? {
      return None;
    }
    var count := fields.value[RECEIPT_COUNT].number;
    if !(0 <= count <= RECEIPT_LIMIT) {
      return None;
    }
    var receipts := ParseEach((i: nat) => if i < RECEIPT_LIMIT then ParseReceipt(values, i) else None, count);
    var known := fields.value[..RECEIPT_COUNT];
    if receipts.None? || !InRange(known) {
      return None;
    }
    r := Some(BridgeSnapshot(revision, known, receipts.value, ParseChannel(values)));
  }

  // ---- the format itself, literally ------------------------------------------------------

  /** Fields that could be taken for one another, by their place and name. */
  lemma ContractNames()
    ensures Key(0) == "protocol_version" && Key(1) == "game_integration_version" && Key(2) == "bridge_runtime_version"
    ensures Key(3) == "bridge_activation_generation" && Key(7) == "state_schema_version"
    ensures Key(8) == "slot_data_version" && Key(9) == "item_table_version"
  {}

  lemma TableNames()
    ensures Key(10) == "location_table_version" && Key(11) == "mission_table_version"
    ensures Key(12) == "item_table_hash" && Key(13) == "location_table_hash" && Key(14) == "mission_table_hash"
  {}

  lemma SessionNames()
    ensures Key(16) == "client_session_id" && Key(17) == "session_nonce"
    ensures Key(18) == "client_heartbeat" && Key(20) == "game_heartbeat"
    ensures Key(25) == "native_save_slot" && Key(26) == "native_save_identity" && Key(27) == "consumed_save_identity"
  {}

  lemma RuntimeNames()
    ensures Key(29) == "ap_state_loaded" && Key(30) == "ap_state_bound"
    ensures Key(36) == "loading" && Key(37) == "in_cutscene" && Key(38) == "dying_or_dead"
  {}

  lemma SafetyNames()
    ensures Key(42) == "safe_to_apply_permanent_item" && Key(43) == "permanent_item_native_target_mask"
    ensures Key(44) == "safe_to_apply_consumable" && Key(45) == "safe_to_mutate_mission_state"
  {}

  lemma CommandNames()
    ensures Key(47) == "last_command_id" && Key(48) == "last_command_kind" && Key(49) == "last_command_result"
    ensures Key(50) == "last_error_code" && Key(51) == "last_error_message" && Key(52) == "recent_command_count"
  {}

  function LineOf(s: Published, n: Name): string
    requires Prints(s, n) && IsName(n)
  {
    Line(Pair(KeyText(n), ValueText(s, n)))
  }

  /** Flags are printed as one or zero, numbers in decimal, an absent text as a dash. */
  lemma FieldLines(s: Published)
    ensures LineOf(s, Field(42)) ==
            "safe_to_apply_permanent_item " + (if s.values[42] == BoolValue(true) then "1" else "0")
    ensures LineOf(s, Field(43)) == "permanent_item_native_target_mask " + Decimal.Print(s.values[43].number)
    ensures LineOf(s, Field(17)) ==
            "session_nonce " + (if s.values[17].opt.Some? then s.values[17].opt.value else "-")
    ensures LineOf(s, Field(52)) == "recent_command_count " + Decimal.Print(|s.receipts|)
  {
    assert Fits(KindOf(42), s.values[42]) && Fits(KindOf(43), s.values[43]) && Fits(KindOf(17), s.values[17]);
    Decimal.PrintsByDigits(0);
    assert Decimal.Print(1) == "1";
  }

  /** A receipt takes five lines. */
  lemma ReceiptLines(s: Published, i: nat)
    requires i < |s.receipts|
    ensures var r, key := s.receipts[i], "recent_command_" + Decimal.Print(i);
            && LineOf(s, ReceiptPart(i, 0)) == key + "_id" + " " + Decimal.Print(r.id)
            && LineOf(s, ReceiptPart(i, 1)) == key + "_kind" + " " + Decimal.Print(r.kind)
            && LineOf(s, ReceiptPart(i, 2)) == key + "_payload" + " " + Decimal.Print(r.payload)
            && LineOf(s, ReceiptPart(i, 3)) == key + "_result" + " " + Decimal.Print(r.result)
            && LineOf(s, ReceiptPart(i, 4)) == key + "_error" + " " + Decimal.Print(r.error)
  {}

  /** The diagnostic channel takes six lines, */
  lemma ChannelLines(s: Published)
    requires s.channel.Live?
    ensures LineOf(s, Header(2)) == "diagnostic_activation_generation" + " " + Decimal.Print(s.channel.activation)
    ensures LineOf(s, Header(3)) == "diagnostic_dropped_count" + " " + Decimal.Print(s.channel.dropped)
    ensures LineOf(s, Header(4)) == "diagnostic_next_sequence" + " " + Decimal.Print(s.channel.next)
    ensures LineOf(s, Header(5)) == "diagnostic_event_count" + " " + Decimal.Print(|s.channel.events|)
  {}

  /** and one for each event. */
  lemma EventLine(s: Published, i: nat)
    requires s.channel.Live? && i < |s.channel.events|
    ensures LineOf(s, Event(i)) == "diagnostic_event_" + Decimal.Print(i) + " " + EventText(s.channel.events[i])
  {
    EventPrinted(s.channel.events[i]);
  }

  /** Eleven numbers, the sequence first and the arguments last. */
  ghost function EventText(r: Record): string {
    Decimal.Print(r.sequence) + " " + (Decimal.Print(r.tick) + " " + (Decimal.Print(r.severity) + " "
    + (Decimal.Print(r.code) + " " + (Decimal.Print(r.kind) + " " + (Decimal.Print(r.value) + " "
    + (Decimal.Print(r.result) + " " + (Decimal.Print(r.error) + " " + (Decimal.Print(r.arg0) + " "
    + (Decimal.Print(r.arg1) + " " + Decimal.Print(r.arg2))))))))))
  }

  lemma NextNumber(n: seq<int>, rest: seq<int>)
    requires |n| > 1 && n[1..] == rest
    ensures PrintNumbers(n) == Decimal.Print(n[0]) + " " + PrintNumbers(rest)
  {}

  lemma EventPrinted(r: Record)
    ensures PrintNumbers(Numbers(r)) == EventText(r)
  {
    NextNumber(Numbers(r), [r.tick, r.severity, r.code, r.kind, r.value, r.result, r.error, r.arg0, r.arg1, r.arg2]);
    NextNumber([r.tick, r.severity, r.code, r.kind, r.value, r.result, r.error, r.arg0, r.arg1, r.arg2],
               [r.severity, r.code, r.kind, r.value, r.result, r.error, r.arg0, r.arg1, r.arg2]);
    NextNumber([r.severity, r.code, r.kind, r.value, r.result, r.error, r.arg0, r.arg1, r.arg2],
               [r.code, r.kind, r.value, r.result, r.error, r.arg0, r.arg1, r.arg2]);
    NextNumber([r.code, r.kind, r.value, r.result, r.error, r.arg0, r.arg1, r.arg2],
               [r.kind, r.value, r.result, r.error, r.arg0, r.arg1, r.arg2]);
    NextNumber([r.kind, r.value, r.result, r.error, r.arg0, r.arg1, r.arg2],
               [r.value, r.result, r.error, r.arg0, r.arg1, r.arg2]);
    NextNumber([r.value, r.result, r.error, r.arg0, r.arg1, r.arg2], [r.result, r.error, r.arg0, r.arg1, r.arg2]);
    NextNumber([r.result, r.error, r.arg0, r.arg1, r.arg2], [r.error, r.arg0, r.arg1, r.arg2]);
    NextNumber([r.error, r.arg0, r.arg1, r.arg2], [r.arg0, r.arg1, r.arg2]);
    NextNumber([r.arg0, r.arg1, r.arg2], [r.arg1, r.arg2]);
    NextNumber([r.arg1, r.arg2], [r.arg2]);
  }

  // ---- what a parsed snapshot cannot hold ------------------------------------------------------

  lemma {:induction false} EachResult<T>(parse: nat -> Option<T>, n: nat, i: nat)
    requires Each(parse, n).Some? && i < n
    ensures |Each(parse, n).value| == n && parse(i) == Some(Each(parse, n).value[i])
  {
    EachLength(parse, n - 1);
    if i < n - 1 {
      EachResult(parse, n - 1, i);
    }
  }

  predicate Between(v: Value, low: int, high: int) {
    v.IntValue? && low <= v.number <= high
  }

  /** Heartbeats, slots, acts, masks and the activation are within their bounds. */
  lemma ParsedInRange(revision: int, values: Values)
    requires Assemble(revision, values).Some?
    ensures var s := Assemble(revision, values).value;
            && s.revision == revision && |s.values| == 52
            && s.values[18].IntValue? && s.values[18].number >= -1
            && s.values[20].IntValue? && s.values[20].number >= 0
            && s.values[3].IntValue? && s.values[3].number >= 1
            && Between(s.values[25], -1, 3) && Between(s.values[32], 0, 3) && Between(s.values[43], -1, 7)
  {}

  /** Status, eligibility, result and error codes are known ones, and the message is short. */
  lemma ParsedCodes(revision: int, values: Values)
    requires Assemble(revision, values).Some?
    ensures var s := Assemble(revision, values).value;
            && |s.values| == 52
            && Between(s.values[19], 0, 4) && Between(s.values[21], 1, 5) && Between(s.values[28], 0, 2)
            && Between(s.values[49], 0, 9) && Between(s.values[50], 0, 19)
            && s.values[51].TextValue? && |s.values[51].text| <= 160
  {
    CodeParsed(values, 19, 0, 4);
    CodeParsed(values, 21, 1, 5);
    CodeParsed(values, 28, 0, 2);
    CodeParsed(values, 49, 0, 9);
    CodeParsed(values, 50, 0, 19);
    MessageParsed(values);
  }

  lemma CodeParsed(values: Values, i: nat, low: int, high: int)
    requires ParseFields(values).Some? && i < FIELDS && KindOf(i) == Enumeration(low, high)
    ensures |ParseFields(values).value| == FIELDS && Between(ParseFields(values).value[i], low, high)
  {
    FieldParsed(values, i);
  }

  lemma MessageParsed(values: Values)
    requires ParseFields(values).Some?
    ensures |ParseFields(values).value| == FIELDS
    ensures var v := ParseFields(values).value[51]; v.TextValue? && |v.text| <= 160
  {
    FieldParsed(values, 51);
  }

  lemma FieldParsed(values: Values, i: nat)
    requires ParseFields(values).Some? && i < FIELDS
    ensures |ParseFields(values).value| == FIELDS && ParseField(values, i) == Some(ParseFields(values).value[i])
  {
    EachResult((j: nat) => if j < FIELDS then ParseField(values, j) else None, FIELDS, i);
  }

  /** At most eight receipts, each with a known result and error. */
  lemma ParsedReceipts(revision: int, values: Values)
    requires Assemble(revision, values).Some?
    ensures var receipts := Assemble(revision, values).value.receipts;
            && |receipts| <= 8
            && forall i :: 0 <= i < |receipts| ==>
                 receipts[i].id >= 0 && 0 <= receipts[i].result <= 9 && 0 <= receipts[i].error <= 19
  {
    var n := ParseFields(values).value[RECEIPT_COUNT].number;
    var receipts := Assemble(revision, values).value.receipts;
    ReceiptsParsed(values, n);
  }

  lemma ReceiptsParsed(values: Values, n: nat)
    requires n <= RECEIPT_LIMIT && ParseReceipts(values, n).Some?
    ensures |ParseReceipts(values, n).value| == n
    ensures forall i :: 0 <= i < n ==> ReceiptFits(ParseReceipts(values, n).value[i])
  {
    var parse := (i: nat) => if i < RECEIPT_LIMIT then ParseReceipt(values, i) else None;
    EachLength(parse, n);
    forall i | 0 <= i < n ensures ReceiptFits(ParseReceipts(values, n).value[i]) {
      EachResult(parse, n, i);
    }
  }
}
