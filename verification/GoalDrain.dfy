/** Draining the game's bounded event ring into the timeline, exactly once per source generation. */
module GoalDrain {
  import opened State

  datatype Record = Record(
    sequence: int, tick: int, severity: int, code: int, kind: int, value: int,
    result: int, error: int, arg0: int, arg1: int, arg2: int)

  predicate IsKnownCode(code: int) {
    || 100 <= code <= 101 || code == 200 || 202 <= code <= 203 || 210 <= code <= 212 || 300 <= code <= 301
    || 400 <= code <= 401 || 411 <= code <= 415 || code == 420 || 500 <= code <= 502 || code == 600
    || 700 <= code <= 703
  }

  // ---- sorting by source sequence ----------------------------------------------------

  ghost predicate Ordered(s: seq<Record>) {
    forall i, j :: 0 <= i < j < |s| ==> s[i].sequence <= s[j].sequence
  }

  ghost predicate StrictlyOrdered(s: seq<Record>) {
    forall i, j :: 0 <= i < j < |s| ==> s[i].sequence < s[j].sequence
  }

  /** Behind its equals, so that sorting is stable. */
  function Insert(s: seq<Record>, r: Record): seq<Record> {
    if s == [] || s[|s| - 1].sequence <= r.sequence then s + [r]
    else Insert(s[..|s| - 1], r) + [s[|s| - 1]]
  }

  function Sort(s: seq<Record>): seq<Record> {
    if s == [] then [] else Insert(Sort(s[..|s| - 1]), s[|s| - 1])
  }

  lemma {:induction false} InsertSorts(s: seq<Record>, r: Record)
    requires Ordered(s)
    ensures Ordered(Insert(s, r)) && forall x :: x in Insert(s, r) <==> x in s || x == r
  {
    if s != [] && s[|s| - 1].sequence > r.sequence {
      var front, last := s[..|s| - 1], s[|s| - 1];
      InsertSorts(front, r);
      assert s == front + [last];
      AppendOrdered(Insert(front, r), last);
    } else {
      AppendOrdered(s, r);
    }
  }

  lemma {:induction false} InsertAdds(s: seq<Record>, r: Record)
    ensures multiset(Insert(s, r)) == multiset(s) + multiset{r}
  {
    if s != [] && s[|s| - 1].sequence > r.sequence {
      InsertAdds(s[..|s| - 1], r);
      assert s == s[..|s| - 1] + [s[|s| - 1]];
    }
  }

  lemma AppendOrdered(s: seq<Record>, r: Record)
    requires Ordered(s) && forall x :: x in s ==> x.sequence <= r.sequence
    ensures Ordered(s + [r])
  {
    forall i, j | 0 <= i < j < |s + [r]| ensures (s + [r])[i].sequence <= (s + [r])[j].sequence {
      assert s[i] in s;
    }
  }

  lemma {:induction false} SortKeeps(s: seq<Record>)
    ensures multiset(Sort(s)) == multiset(s)
  {
    if s != [] {
      SortKeeps(s[..|s| - 1]);
      InsertAdds(Sort(s[..|s| - 1]), s[|s| - 1]);
      assert s == s[..|s| - 1] + [s[|s| - 1]];
    }
  }

  lemma {:induction false} SortOrders(s: seq<Record>)
    ensures Ordered(Sort(s)) && forall x :: x in Sort(s) <==> x in s
  {
    if s != [] {
      var front, last := s[..|s| - 1], s[|s| - 1];
      SortOrders(front);
      InsertSorts(Sort(front), last);
      assert s == front + [last];
    }
  }

  /** Sorting orders the records and loses or repeats none. */
  lemma SortSorts(s: seq<Record>)
    ensures Ordered(Sort(s)) && multiset(Sort(s)) == multiset(s)
    ensures forall x :: x in Sort(s) <==> x in s
  {
    SortKeeps(s);
    SortOrders(s);
  }

  /** Snapshots carry their records in order already. */
  lemma {:induction false} SortKeepsOrdered(s: seq<Record>)
    requires StrictlyOrdered(s)
    ensures Sort(s) == s
  {
    if s != [] {
      var front, last := s[..|s| - 1], s[|s| - 1];
      SortKeepsOrdered(front);
      assert s == front + [last];
      assert Insert(front, last) == front + [last];
    }
  }

  // ---- the timeline --------------------------------------------------------------------

  datatype Entry =
    | Emitted(epoch: nat, record: Record, known: bool)
    | Gap(epoch: nat, first: int, last: int)
    | Note

  predicate Touches(e: Entry, epoch: nat, n: int) {
    match e
    case Emitted(g, r, _) => g == epoch && r.sequence == n
    case Gap(g, first, last) => g == epoch && first <= n <= last
    case Note => false
  }

  /** How many entries account for number n of this source generation. */
  function Touched(log: seq<Entry>, epoch: nat, n: int): nat {
    if log == [] then 0
    else Touched(log[..|log| - 1], epoch, n) + if Touches(log[|log| - 1], epoch, n) then 1 else 0
  }

  lemma TouchedAppend(log: seq<Entry>, e: Entry, epoch: nat, n: int)
    ensures Touched(log + [e], epoch, n) == Touched(log, epoch, n) + if Touches(e, epoch, n) then 1 else 0
  {
    assert (log + [e])[..|log|] == log;
  }

  lemma {:induction false} TouchedNever(log: seq<Entry>, epoch: nat, n: int)
    ensures Touched(log, epoch, n) == 0 <==> forall i :: 0 <= i < |log| ==> !Touches(log[i], epoch, n)
  {
    if log != [] {
      var front := log[..|log| - 1];
      TouchedNever(front, epoch, n);
      assert forall i :: 0 <= i < |front| ==> front[i] == log[i];
    }
  }

  /** Being touched once means being emitted once and in no gap, or in exactly one gap. */
  lemma {:induction false} TouchedOnce(log: seq<Entry>, epoch: nat, n: int) returns (at: nat)
    requires Touched(log, epoch, n) == 1
    ensures at < |log| && Touches(log[at], epoch, n)
    ensures forall i :: 0 <= i < |log| && i != at ==> !Touches(log[i], epoch, n)
  {
    var front := log[..|log| - 1];
    assert forall i :: 0 <= i < |front| ==> front[i] == log[i];
    if Touches(log[|log| - 1], epoch, n) {
      TouchedNever(front, epoch, n);
      at := |log| - 1;
    } else {
      at := TouchedOnce(front, epoch, n);
    }
  }

  /** Per source generation, emitted numbers only ever increase. */
  ghost predicate EmittedOnceInOrder(log: seq<Entry>) {
    forall i, j :: 0 <= i < j < |log| && log[i].Emitted? && log[j].Emitted? && log[i].epoch == log[j].epoch
                   ==> log[i].record.sequence < log[j].record.sequence
  }

  ghost predicate EmittedBelow(log: seq<Entry>, epoch: nat, last: int) {
    forall i :: 0 <= i < |log| && log[i].Emitted? ==>
      log[i].epoch <= epoch && (log[i].epoch == epoch ==> log[i].record.sequence <= last)
  }

  ghost predicate InOrder(log: seq<Entry>, epoch: nat, last: int) {
    EmittedOnceInOrder(log) && EmittedBelow(log, epoch, last)
  }

  lemma InOrderAppend(log: seq<Entry>, epoch: nat, last: int, e: Entry)
    requires InOrder(log, epoch, last)
    ensures !e.Emitted? ==> InOrder(log + [e], epoch, last)
    ensures e.Emitted? && e.epoch == epoch && e.record.sequence > last ==> InOrder(log + [e], epoch, e.record.sequence)
  {
    var longer := log + [e];
    assert forall i :: 0 <= i < |log| ==> longer[i] == log[i];
  }

  /** First and last accepted number of each source generation. */
  type Spans = map<nat, (int, int)>

  predicate InSpan(spans: Spans, epoch: nat, n: int) {
    epoch in spans && spans[epoch].0 <= n <= spans[epoch].1
  }

  /** Every number in a span is accounted for exactly once, and no other number is. */
  ghost predicate Accounted(log: seq<Entry>, spans: Spans) {
    forall g, n :: Touched(log, g, n) == if InSpan(spans, g, n) then 1 else 0
  }

  function Extended(spans: Spans, epoch: nat, n: int): Spans {
    if epoch in spans then spans[epoch := (spans[epoch].0, n)] else spans[epoch := (n, n)]
  }

  /** The log records number n of this source generation, at this position or later. */
  ghost predicate RecordedFrom(log: seq<Entry>, from: nat, epoch: nat, n: int) {
    exists k :: from <= k < |log| && log[k].Emitted? && log[k].epoch == epoch && log[k].record.sequence == n
  }

  lemma RecordedLater(log: seq<Entry>, longer: seq<Entry>, from: nat, later: nat, epoch: nat, n: int)
    requires log <= longer && from <= later
             && (RecordedFrom(log, from, epoch, n) || RecordedFrom(longer, later, epoch, n))
    ensures RecordedFrom(longer, from, epoch, n)
  {
    if RecordedFrom(log, from, epoch, n) {
      var k :| from <= k < |log| && log[k].Emitted? && log[k].epoch == epoch && log[k].record.sequence == n;
      assert longer[k] == log[k];
    }
  }

  /** Accepted before a drain that found this last number, or recorded by it. */
  ghost predicate Kept(log: seq<Entry>, from: nat, epoch: nat, last: int, n: int) {
    n <= last || RecordedFrom(log, from, epoch, n)
  }

  lemma KeptLater(log: seq<Entry>, longer: seq<Entry>, from: nat, later: nat, epoch: nat, last: int)
    requires log <= longer && from <= later
    ensures forall n :: Kept(log, later, epoch, last, n) ==> Kept(longer, from, epoch, last, n)
  {
    forall n | Kept(log, later, epoch, last, n) ensures Kept(longer, from, epoch, last, n) {
      if RecordedFrom(log, later, epoch, n) {
        var k :| later <= k < |log| && log[k].Emitted? && log[k].epoch == epoch && log[k].record.sequence == n;
        assert longer[k] == log[k];
      }
    }
  }

  /** The first n of these records were accepted before the drain or recorded by it. */
  ghost predicate KeptBelow(sorted: seq<Record>, n: nat, log: seq<Entry>, from: nat, epoch: nat, last: int) {
    n <= |sorted| && forall k :: 0 <= k < n ==> Kept(log, from, epoch, last, sorted[k].sequence)
  }

  /** One more record: at or below the last accepted number, or recorded just now. */
  lemma OneMoreKept(sorted: seq<Record>, i: nat, before: seq<Entry>, log: seq<Entry>, from: nat, epoch: nat, first: int,
                    last: int, next: int)
    requires Ordered(sorted) && i < |sorted| && from <= |before| && before <= log
    requires last == first || (i > 0 && last == sorted[i - 1].sequence)
    requires KeptBelow(sorted, i, before, from, epoch, first) && Kept(before, from, epoch, first, last)
    requires || (next == last && sorted[i].sequence <= last)
             || (next == sorted[i].sequence && RecordedFrom(log, |before|, epoch, next))
    ensures KeptBelow(sorted, i + 1, log, from, epoch, first) && Kept(log, from, epoch, first, next)
    ensures next == first || next == sorted[i].sequence
  {
    KeptLater(before, log, from, from, epoch, first);
    if next == sorted[i].sequence && RecordedFrom(log, |before|, epoch, next) {
      RecordedLater(before, log, from, |before|, epoch, next);
    }
  }

  /** What a drain that returned this number owes for its records. */
  ghost predicate Settled(records: seq<Record>, log: seq<Entry>, from: nat, epoch: nat, last: int, highest: int) {
    && (exists i :: 0 <= i < |records| && records[i].sequence == highest)
    && forall i :: 0 <= i < |records| && records[i].sequence <= highest ==>
         Kept(log, from, epoch, last, records[i].sequence)
  }

  lemma SettledUnsorted(records: seq<Record>, log: seq<Entry>, from: nat, epoch: nat, last: int, highest: int)
    requires Settled(Sort(records), log, from, epoch, last, highest)
    ensures Settled(records, log, from, epoch, last, highest)
  {
    var sorted := Sort(records);
    SortOrders(records);
    var i :| 0 <= i < |sorted| && sorted[i].sequence == highest;
    assert sorted[i] in records;
    forall k | 0 <= k < |records| && records[k].sequence <= highest
      ensures Kept(log, from, epoch, last, records[k].sequence)
    {
      assert records[k] in sorted;
    }
  }

  /** A record's number is the last one sorted exactly if it bounds them all. */
  lemma LastIsHighest(records: seq<Record>, highest: int)
    requires exists i :: 0 <= i < |records| && records[i].sequence == highest
    ensures Sort(records) != []
    ensures highest == Sort(records)[|Sort(records)| - 1].sequence <==>
              forall i :: 0 <= i < |records| ==> records[i].sequence <= highest
  {
    SortOrders(records);
    var sorted := Sort(records);
    var i :| 0 <= i < |records| && records[i].sequence == highest;
    assert records[i] in sorted;
    var last := sorted[|sorted| - 1];
    assert last in records;
    forall k | 0 <= k < |records| ensures records[k].sequence <= last.sequence {
      assert records[k] in sorted;
    }
  }

  /** An entry handed to the log file, and whether it was written. */
  datatype Attempt = Attempt(entry: Entry, written: bool)

  function WrittenPart(attempts: seq<Attempt>): seq<Entry> {
    if attempts == [] then []
    else
      var last := attempts[|attempts| - 1];
      WrittenPart(attempts[..|attempts| - 1]) + if last.written then [last.entry] else []
  }

  lemma WrittenAppend(attempts: seq<Attempt>, a: Attempt)
    ensures WrittenPart(attempts + [a]) == WrittenPart(attempts) + if a.written then [a.entry] else []
  {
    assert (attempts + [a])[..|attempts|] == attempts;
  }

  /** No record and no gap failed to be written. */
  ghost predicate Lossless(attempts: seq<Attempt>) {
    forall i :: 0 <= i < |attempts| ==> attempts[i].written || attempts[i].entry.Note?
  }

  lemma LosslessAppend(attempts: seq<Attempt>, a: Attempt)
    ensures Lossless(attempts + [a]) <==> Lossless(attempts) && (a.written || a.entry.Note?)
  {
    assert (attempts + [a])[|attempts|] == a;
    assert forall i :: 0 <= i < |attempts| ==> (attempts + [a])[i] == attempts[i];
  }

  /** From this attempt on, every record that was tried was written. */
  ghost predicate AllEmitted(attempts: seq<Attempt>, from: nat) {
    forall i :: from <= i < |attempts| && attempts[i].entry.Emitted? ==> attempts[i].written
  }

  lemma AllEmittedLater(attempts: seq<Attempt>, longer: seq<Attempt>, from: nat)
    requires attempts <= longer && from <= |attempts|
    ensures AllEmitted(longer, from) <==> AllEmitted(attempts, from) && AllEmitted(longer, |attempts|)
  {
    assert forall i :: 0 <= i < |attempts| ==> attempts[i] == longer[i];
  }

  // ---- when the log accounts for every number ----------------------------------------------

  function SpansOf(attempts: seq<Attempt>): Spans {
    if attempts == [] then map[]
    else
      var before, last := SpansOf(attempts[..|attempts| - 1]), attempts[|attempts| - 1];
      if last.written && last.entry.Emitted? then Extended(before, last.entry.epoch, last.entry.record.sequence)
      else before
  }

  /** The gaps reported since a record was last written. */
  function Reported(attempts: seq<Attempt>): seq<Entry> {
    if attempts == [] then []
    else
      var before, last := Reported(attempts[..|attempts| - 1]), attempts[|attempts| - 1];
      if !last.written || last.entry.Note? then before
      else if last.entry.Gap? then before + [last.entry]
      else []
  }

  /** The report due before a record with this number. */
  function Owed(spans: Spans, epoch: nat, n: int): seq<Entry> {
    if epoch in spans && spans[epoch].1 < n - 1 then [Gap(epoch, spans[epoch].1 + 1, n - 1)] else []
  }

  /** Every record was written behind exactly the report that was due, made once. */
  predicate Exact(attempts: seq<Attempt>) {
    attempts == [] ||
    (var front, last := attempts[..|attempts| - 1], attempts[|attempts| - 1];
     && Exact(front)
     && (last.written && last.entry.Emitted? ==>
           Reported(front) == Owed(SpansOf(front), last.entry.epoch, last.entry.record.sequence)))
  }

  /** And no report is waiting for its record. */
  predicate Balanced(attempts: seq<Attempt>) {
    Exact(attempts) && Reported(attempts) == []
  }

  lemma OneMoreAttempt(attempts: seq<Attempt>, a: Attempt)
    ensures var longer, e := attempts + [a], a.entry;
            && (!a.written || e.Note? ==>
                  SpansOf(longer) == SpansOf(attempts) && Reported(longer) == Reported(attempts)
                  && Exact(longer) == Exact(attempts))
            && (a.written && e.Gap? ==>
                  SpansOf(longer) == SpansOf(attempts) && Reported(longer) == Reported(attempts) + [e]
                  && Exact(longer) == Exact(attempts))
            && (a.written && e.Emitted? ==>
                  SpansOf(longer) == Extended(SpansOf(attempts), e.epoch, e.record.sequence) && Reported(longer) == []
                  && Exact(longer) ==
                     (Exact(attempts) && Reported(attempts) == Owed(SpansOf(attempts), e.epoch, e.record.sequence)))
  {
    assert (attempts + [a])[..|attempts|] == attempts;
  }

  /** No later entry can bring the account of this number in order. */
  predicate Spoilt(log: seq<Entry>, spans: Spans, generation: nat, g: nat, n: int) {
    || Touched(log, g, n) >= 2
    || (InSpan(spans, g, n) && Touched(log, g, n) == 0)
    || (g < generation && !InSpan(spans, g, n) && Touched(log, g, n) >= 1)
  }

  ghost predicate SomeSpoilt(log: seq<Entry>, spans: Spans, generation: nat) {
    exists g: nat, n: int :: Spoilt(log, spans, generation, g, n)
  }

  /** Beside the spans, the log accounts for what was reported and waits for its record. */
  ghost predicate AccountedWith(log: seq<Entry>, spans: Spans, reported: seq<Entry>) {
    forall g, n :: Touched(log, g, n) == (if InSpan(spans, g, n) then 1 else 0) + Touched(reported, g, n)
  }

  ghost predicate WellSpanned(spans: Spans, generation: nat) {
    forall g :: g in spans ==> g <= generation && 0 <= spans[g].0 <= spans[g].1
  }

  ghost predicate Follow(reported: seq<Entry>, spans: Spans) {
    forall i :: 0 <= i < |reported| ==>
      && reported[i].Gap? && reported[i].epoch in spans
      && reported[i].first == spans[reported[i].epoch].1 + 1 <= reported[i].last
  }

  ghost predicate BooksOf(log: seq<Entry>, spans: Spans, reported: seq<Entry>, exact: bool, generation: nat) {
    && WellSpanned(spans, generation) && Follow(reported, spans)
    && (if exact then AccountedWith(log, spans, reported) else SomeSpoilt(log, spans, generation))
  }

  ghost predicate Books(attempts: seq<Attempt>, generation: nat) {
    BooksOf(WrittenPart(attempts), SpansOf(attempts), Reported(attempts), Exact(attempts), generation)
  }

  /** The same as one fact. */
  ghost predicate Booked(attempts: seq<Attempt>, generation: nat) {
    forall tried :: tried == attempts ==> Books(tried, generation)
  }

  function LastOf(spans: Spans, generation: nat): int {
    if generation in spans then spans[generation].1 else -1
  }

  lemma SpoiltStays(log: seq<Entry>, spans: Spans, longer: Spans, generation: nat, e: Entry, g: nat, n: int)
    requires WellSpanned(spans, generation) && Spoilt(log, spans, generation, g, n)
    requires longer == if e.Emitted? then Extended(spans, e.epoch, e.record.sequence) else spans
    requires e.Emitted? ==> e.epoch == generation && e.record.sequence > LastOf(spans, generation)
    requires e.Gap? ==> e.epoch == generation && e.first > LastOf(spans, generation)
    ensures Spoilt(log + [e], longer, generation, g, n)
  {
    TouchedAppend(log, e, g, n);
  }

  lemma SomeSpoiltStays(log: seq<Entry>, spans: Spans, longer: Spans, generation: nat, e: Entry)
    requires WellSpanned(spans, generation) && SomeSpoilt(log, spans, generation)
    requires longer == if e.Emitted? then Extended(spans, e.epoch, e.record.sequence) else spans
    requires e.Emitted? ==> e.epoch == generation && e.record.sequence > LastOf(spans, generation)
    requires e.Gap? ==> e.epoch == generation && e.first > LastOf(spans, generation)
    ensures SomeSpoilt(log + [e], longer, generation)
  {
    var g: nat, n: int :| Spoilt(log, spans, generation, g, n);
    SpoiltStays(log, spans, longer, generation, e, g, n);
  }

  /** A failed write, or a note, changes no account. */
  lemma BooksAfterNothing(attempts: seq<Attempt>, a: Attempt, generation: nat)
    requires Booked(attempts, generation) && (!a.written || a.entry.Note?)
    ensures Booked(attempts + [a], generation)
    ensures SpansOf(attempts + [a]) == SpansOf(attempts) && (Balanced(attempts + [a]) <==> Balanced(attempts))
  {
    assert Books(attempts, generation);
    OneMoreAttempt(attempts, a);
    WrittenAppend(attempts, a);
    var log := WrittenPart(attempts);
    assert log + [] == log;
    if a.written {
      forall g, n ensures Touched(log + [a.entry], g, n) == Touched(log, g, n) {
        TouchedAppend(log, a.entry, g, n);
      }
      if !Exact(attempts) {
        SomeSpoiltStays(log, SpansOf(attempts), SpansOf(attempts), generation, a.entry);
      }
    }
  }

  /** The due report, as the code computes it. */
  function DueGap(attempts: seq<Attempt>, generation: nat, next: int): Entry {
    Gap(generation, LastOf(SpansOf(attempts), generation) + 1, next - 1)
  }

  /** Reporting a due gap leaves its record to come. */
  lemma ReportedAfterGap(attempts: seq<Attempt>, generation: nat, next: int, written: bool)
    requires 0 <= LastOf(SpansOf(attempts), generation) < next - 1
    ensures var longer := attempts + [Attempt(DueGap(attempts, generation, next), written)];
            && SpansOf(longer) == SpansOf(attempts)
            && (Balanced(attempts) && written ==>
                  Exact(longer) && Reported(longer) == Owed(SpansOf(longer), generation, next))
  {
    OneMoreAttempt(attempts, Attempt(DueGap(attempts, generation, next), written));
  }

  lemma BooksAfterGap(attempts: seq<Attempt>, generation: nat, next: int, written: bool)
    requires Booked(attempts, generation) && 0 <= LastOf(SpansOf(attempts), generation) < next - 1
    ensures Booked(attempts + [Attempt(DueGap(attempts, generation, next), written)], generation)
  {
    if written {
      BooksAfterWrittenGap(attempts, generation, next);
    } else {
      BooksAfterNothing(attempts, Attempt(DueGap(attempts, generation, next), false), generation);
    }
  }

  lemma BooksAfterWrittenGap(attempts: seq<Attempt>, generation: nat, next: int)
    requires Booked(attempts, generation) && 0 <= LastOf(SpansOf(attempts), generation) < next - 1
    ensures Booked(attempts + [Attempt(DueGap(attempts, generation, next), true)], generation)
  {
    var e := DueGap(attempts, generation, next);
    OneMoreAttempt(attempts, Attempt(e, true));
    WrittenAppend(attempts, Attempt(e, true));
    assert Books(attempts, generation);
    GapBooked(WrittenPart(attempts), SpansOf(attempts), Reported(attempts), Exact(attempts), generation, e);
  }

  lemma GapBooked(log: seq<Entry>, spans: Spans, reported: seq<Entry>, exact: bool, generation: nat, e: Entry)
    requires BooksOf(log, spans, reported, exact, generation)
    requires e.Gap? && e.epoch == generation && generation in spans && spans[generation].1 + 1 == e.first <= e.last
    ensures BooksOf(log + [e], spans, reported + [e], exact, generation)
  {
    if exact {
      AccountedWithGap(log, spans, reported, e);
    } else {
      SomeSpoiltStays(log, spans, spans, generation, e);
    }
  }

  lemma AccountedWithGap(log: seq<Entry>, spans: Spans, reported: seq<Entry>, e: Entry)
    requires AccountedWith(log, spans, reported)
    ensures AccountedWith(log + [e], spans, reported + [e])
  {
    forall g, n
      ensures Touched(log + [e], g, n) == (if InSpan(spans, g, n) then 1 else 0) + Touched(reported + [e], g, n)
    {
      TouchedAppend(log, e, g, n);
      TouchedAppend(reported, e, g, n);
    }
  }

  lemma NothingDue(attempts: seq<Attempt>, generation: nat, next: int)
    requires Booked(attempts, generation)
    requires LastOf(SpansOf(attempts), generation) < 0 || next <= LastOf(SpansOf(attempts), generation) + 1
    ensures Owed(SpansOf(attempts), generation, next) == []
  {
    assert Books(attempts, generation);
  }

  lemma BooksAfterRecord(attempts: seq<Attempt>, generation: nat, r: Record, known: bool)
    requires Booked(attempts, generation) && r.sequence > LastOf(SpansOf(attempts), generation)
    ensures var longer := attempts + [Attempt(Emitted(generation, r, known), true)];
            && Booked(longer, generation) && LastOf(SpansOf(longer), generation) == r.sequence
            && (Exact(attempts) && Reported(attempts) == Owed(SpansOf(attempts), generation, r.sequence) ==>
                  Balanced(longer))
  {
    assert Books(attempts, generation);
    var log, spans, reported := WrittenPart(attempts), SpansOf(attempts), Reported(attempts);
    var e := Emitted(generation, r, known);
    var longer := Extended(spans, generation, r.sequence);
    OneMoreAttempt(attempts, Attempt(e, true));
    WrittenAppend(attempts, Attempt(e, true));
    if !Exact(attempts) {
      SomeSpoiltStays(log, spans, longer, generation, e);
    } else if reported == Owed(spans, generation, r.sequence) {
      OwedAccounts(log, spans, generation, e);
    } else {
      var g, n := WrongReportSpoils(log, spans, reported, generation, e);
    }
  }

  /** The report that was due and the record together account for the span up to its number. */
  lemma OwedAccounts(log: seq<Entry>, spans: Spans, generation: nat, e: Entry)
    requires e.Emitted? && e.epoch == generation && e.record.sequence > LastOf(spans, generation)
    requires WellSpanned(spans, generation)
    requires AccountedWith(log, spans, Owed(spans, generation, e.record.sequence))
    ensures AccountedWith(log + [e], Extended(spans, generation, e.record.sequence), [])
  {
    var longer := Extended(spans, generation, e.record.sequence);
    forall g, n ensures Touched(log + [e], g, n) == (if InSpan(longer, g, n) then 1 else 0) + Touched([], g, n) {
      OwedTouches(spans, generation, e.record.sequence, g, n);
      TouchedAppend(log, e, g, n);
    }
  }

  lemma OwedTouches(spans: Spans, generation: nat, next: int, g: nat, n: int)
    ensures Touched(Owed(spans, generation, next), g, n) ==
            if g == generation && g in spans && spans[g].1 < n < next then 1 else 0
  {
    var owed := Owed(spans, generation, next);
    if owed != [] {
      TouchedByOne(owed[0], g, n);
    }
  }

  lemma {:induction false} TouchedTwice(log: seq<Entry>, i: nat, j: nat, epoch: nat, n: int)
    requires i < j < |log| && Touches(log[i], epoch, n) && Touches(log[j], epoch, n)
    ensures Touched(log, epoch, n) >= 2
  {
    var front := log[..|log| - 1];
    if j < |front| {
      TouchedTwice(front, i, j, epoch, n);
    } else {
      assert front[i] == log[i];
      TouchedNever(front, epoch, n);
    }
  }

  lemma TouchedByOne(e: Entry, epoch: nat, n: int)
    ensures Touched([e], epoch, n) == if Touches(e, epoch, n) then 1 else 0
  {
    assert [e] == [] + [e];
    TouchedAppend([], e, epoch, n);
  }

  /** Any other report leaves a number that stays unaccounted for, or accounted for twice. */
  lemma WrongReportSpoils(log: seq<Entry>, spans: Spans, reported: seq<Entry>, generation: nat, e: Entry)
    returns (g: nat, n: int)
    requires WellSpanned(spans, generation) && Follow(reported, spans) && AccountedWith(log, spans, reported)
    requires e.Emitted? && e.epoch == generation && e.record.sequence > LastOf(spans, generation)
    requires reported != Owed(spans, generation, e.record.sequence)
    ensures Spoilt(log + [e], Extended(spans, generation, e.record.sequence), generation, g, n)
  {
    if exists i :: 0 <= i < |reported| && reported[i].epoch != generation {
      var i :| 0 <= i < |reported| && reported[i].epoch != generation;
      g, n := reported[i].epoch, reported[i].first;
      TouchedNever(reported, g, n);
      assert Touches(reported[i], g, n);
    } else {
      g, n := generation, LastOf(spans, generation) + 1;
      if |reported| >= 2 {
        TouchedTwice(reported, 0, 1, g, n);
      } else if |reported| == 1 {
        var m := reported[0].last;
        assert reported == [Gap(generation, n, m)];
        n := if m >= e.record.sequence then e.record.sequence else m + 1;
        TouchedByOne(reported[0], g, n);
      }
    }
    TouchedAppend(log, e, g, n);
  }

  /** A reset gives up the reports that wait. */
  lemma BooksAfterReset(attempts: seq<Attempt>, generation: nat)
    requires Booked(attempts, generation)
    ensures Booked(attempts, generation + 1) && LastOf(SpansOf(attempts), generation + 1) == -1
  {
    assert Books(attempts, generation);
    if !Exact(attempts) {
      var log, spans := WrittenPart(attempts), SpansOf(attempts);
      var g: nat, n: int :| Spoilt(log, spans, generation, g, n);
      assert Spoilt(log, spans, generation + 1, g, n);
    }
  }

  /** The log accounts for every number exactly if reports and records were written in balance. */
  lemma AccountedExactly(attempts: seq<Attempt>, generation: nat)
    requires Booked(attempts, generation)
    ensures Accounted(WrittenPart(attempts), SpansOf(attempts)) <==> Balanced(attempts)
  {
    assert Books(attempts, generation);
    var log, spans, reported := WrittenPart(attempts), SpansOf(attempts), Reported(attempts);
    if !Exact(attempts) {
      var g: nat, n: int :| Spoilt(log, spans, generation, g, n);
    } else if reported != [] {
      var g, n := reported[0].epoch, reported[0].first;
      TouchedNever(reported, g, n);
      assert Touches(reported[0], g, n) && Touched(log, g, n) >= 1 && !InSpan(spans, g, n);
    }
  }

  /** It fails when a record's write fails behind its report: the next drain reports the gap again. */
  lemma ReportedTwice(attempts: seq<Attempt>, epoch: nat, r: Record, known: bool)
    requires Balanced(attempts) && Owed(SpansOf(attempts), epoch, r.sequence) != []
    ensures var gap, e := Owed(SpansOf(attempts), epoch, r.sequence)[0], Emitted(epoch, r, known);
            !Exact(attempts + [Attempt(gap, true)] + [Attempt(e, false)] + [Attempt(gap, true)] + [Attempt(e, true)])
  {
    var gap, e := Owed(SpansOf(attempts), epoch, r.sequence)[0], Emitted(epoch, r, known);
    var once := attempts + [Attempt(gap, true)];
    OneMoreAttempt(attempts, Attempt(gap, true));
    OneMoreAttempt(once, Attempt(e, false));
    OneMoreAttempt(once + [Attempt(e, false)], Attempt(gap, true));
    OneMoreAttempt(once + [Attempt(e, false)] + [Attempt(gap, true)], Attempt(e, true));
  }

  class Timeline {
    var lastSequence: int
    var lastDuplicate: int
    var generation: nat
    var suppressed: nat
    /** Everything handed to the log file; `log` is the part that was written. */
    ghost var attempts: seq<Attempt>
    ghost var log: seq<Entry>

    ghost predicate Valid()
      reads this
    {
      && log == WrittenPart(attempts)
      && InOrder(log, generation, lastSequence)
      && lastSequence == LastOf(SpansOf(attempts), generation)
      && Booked(attempts, generation)
      && (Lossless(attempts) ==> Balanced(attempts))
    }

    /** Whether every number accepted so far is accounted for once, and no other. */
    lemma AccountsExactly()
      requires Valid()
      ensures Accounted(log, SpansOf(attempts)) <==> Balanced(attempts)
      ensures Lossless(attempts) ==> Accounted(log, SpansOf(attempts))
    {
      AccountedExactly(attempts, generation);
    }

    constructor ()
      ensures Valid() && log == [] && attempts == [] && generation == 0 && lastSequence == -1
    {
      lastSequence, lastDuplicate, generation, suppressed := -1, -1, 0, 0;
      attempts, log := [], [];
    }

    method Write(e: Entry) returns (written: bool)
      requires log == WrittenPart(attempts)
      modifies this`log, this`attempts
      ensures attempts == old(attempts) + [Attempt(e, written)]
      ensures log == WrittenPart(attempts) == old(log) + if written then [e] else []
    {
      written := *;
      WrittenAppend(attempts, Attempt(e, written));
      attempts := attempts + [Attempt(e, written)];
      if written {
        log := log + [e];
      }
    }

    /** An entry that accounts for no number. */
    method WriteNote()
      requires Valid()
      modifies this`log, this`attempts
      ensures Valid() && old(log) <= log <= old(log) + [Note]
      ensures |attempts| == |old(attempts)| + 1 && attempts == old(attempts) + [Attempt(Note, log != old(log))]
    {
      var written := Write(Note);
      LosslessAppend(old(attempts), Attempt(Note, written));
      InOrderAppend(old(log), generation, lastSequence, Note);
      BooksAfterNothing(old(attempts), Attempt(Note, written), generation);
    }

    /** The report of the numbers skipped before this one. */
    ghost function SkippedBefore(next: int): Entry
      reads this
    {
      Gap(generation, lastSequence + 1, next - 1)
    }

    predicate Skips(next: int)
      reads this
    {
      lastSequence >= 0 && next > lastSequence + 1
    }

    /** The report is due before a record with this number. */
    ghost predicate Due(next: int)
      reads this
    {
      Reported(attempts) == Owed(SpansOf(attempts), generation, next)
    }

    /** Report the numbers skipped before this one, if any. */
    method ReportGap(next: int) returns (ghost reported: bool)
      requires Valid() && next > lastSequence
      modifies this`log, this`attempts
      ensures log == WrittenPart(attempts) && InOrder(log, generation, lastSequence)
      ensures lastSequence == LastOf(SpansOf(attempts), generation) && Booked(attempts, generation)
      ensures attempts == old(attempts) + if Skips(next) then [Attempt(SkippedBefore(next), reported)] else []
      ensures log == old(log) + if Skips(next) && reported then [SkippedBefore(next)] else []
      ensures Lossless(attempts) ==> Exact(attempts) && Due(next)
    {
      reported := true;
      if lastSequence >= 0 && next > lastSequence + 1 {
        var gap := Gap(generation, lastSequence + 1, next - 1);
        var written := Write(gap);
        reported := written;
        InOrderAppend(old(log), generation, lastSequence, gap);
        LosslessAppend(old(attempts), Attempt(gap, written));
        ReportedAfterGap(old(attempts), generation, next, written);
        BooksAfterGap(old(attempts), generation, next, written);
      } else {
        NothingDue(attempts, generation, next);
      }
    }

    /** The entry a record is written as. */
    ghost function EntryOf(r: Record): Entry
      reads this
    {
      Emitted(generation, r, IsKnownCode(r.code))
    }

    /** Report what was skipped, then the record itself. */
    method Accept(r: Record) returns (written: bool, ghost reported: bool)
      requires Valid() && r.sequence > lastSequence
      modifies this`log, this`attempts, this`lastSequence
      ensures Valid()
      ensures attempts == old(attempts)
                          + (if old(Skips(r.sequence)) then [Attempt(old(SkippedBefore(r.sequence)), reported)] else [])
                          + [Attempt(EntryOf(r), written)]
      ensures log == old(log)
                     + (if old(Skips(r.sequence)) && reported then [old(SkippedBefore(r.sequence))] else [])
                     + (if written then [EntryOf(r)] else [])
      ensures lastSequence == if written then r.sequence else old(lastSequence)
    {
      reported := ReportGap(r.sequence);
      written := Emit(r);
    }

    /** Write one record behind everything it skips. */
    method Emit(r: Record) returns (written: bool)
      requires log == WrittenPart(attempts) && InOrder(log, generation, lastSequence) && r.sequence > lastSequence
      requires lastSequence == LastOf(SpansOf(attempts), generation) && Booked(attempts, generation)
      requires Lossless(attempts) ==> Exact(attempts) && Due(r.sequence)
      modifies this`log, this`attempts, this`lastSequence
      ensures Valid()
      ensures attempts == old(attempts) + [Attempt(EntryOf(r), written)]
      ensures log == old(log) + if written then [EntryOf(r)] else []
      ensures lastSequence == if written then r.sequence else old(lastSequence)
    {
      var e := Emitted(generation, r, IsKnownCode(r.code));
      written := Write(e);
      LosslessAppend(old(attempts), Attempt(e, written));
      if written {
        InOrderAppend(old(log), generation, lastSequence, e);
        BooksAfterRecord(old(attempts), generation, r, IsKnownCode(r.code));
        lastSequence := r.sequence;
      } else {
        BooksAfterNothing(old(attempts), Attempt(e, written), generation);
      }
    }

    /** A record at or below the last accepted one is acknowledged again, never written again. */
    method NoteDuplicate(sequence: int)
      requires Valid()
      modifies this`log, this`attempts, this`lastDuplicate, this`suppressed
      ensures |attempts| == |old(attempts)| + (if sequence > old(lastDuplicate) then 1 else 0)
      ensures lastDuplicate == (if sequence > old(lastDuplicate) then sequence else old(lastDuplicate))
      ensures suppressed == old(suppressed) + (if sequence > old(lastDuplicate) then 0 else 1)
      ensures Valid() && old(log) <= log <= old(log) + [Note] && old(attempts) <= attempts
      ensures forall i :: |old(attempts)| <= i < |attempts| ==> attempts[i].entry.Note?
    {
      if sequence > lastDuplicate {
        WriteNote();
        lastDuplicate := sequence;
      } else {
        suppressed := suppressed + 1;
      }
    }

    /** What one drain adds comes from its records, under the current generation. */
    ghost predicate Adds(before: seq<Entry>, records: seq<Record>)
      reads this
    {
      && before <= log
      && forall i :: |before| <= i < |log| && log[i].Emitted? ==> log[i].epoch == generation && log[i].record in records
    }

    /** Afterwards the record is accepted, or its write failed and the drain has to stop. */
    method IngestOne(record: Record) returns (accepted: bool, stop: bool)
      requires Valid()
      modifies this`log, this`attempts, this`lastSequence, this`lastDuplicate, this`suppressed
      ensures Valid() && Adds(old(log), [record]) && lastSequence >= old(lastSequence) && old(attempts) <= attempts
      ensures stop <==> !AllEmitted(attempts, |old(attempts)|)
      ensures stop ==> record.sequence > lastSequence
      ensures !stop ==> record.sequence <= lastSequence
      ensures lastSequence == old(lastSequence)
              || (lastSequence == record.sequence && RecordedFrom(log, |old(log)|, generation, lastSequence))
    {
      accepted, stop := false, false;
      if record.sequence <= lastSequence {
        NoteDuplicate(record.sequence);
      } else {
        ghost var reported;
        accepted, reported := Accept(record);
        stop := !accepted;
        if accepted {
          assert log[|log| - 1] == EntryOf(record);
        }
      }
    }

    /** The first i records of this drain are done; `start` and `first` are what it found. */
    ghost predicate Done(sorted: seq<Record>, i: nat, start: seq<Entry>, first: int)
      reads this
    {
      && i <= |sorted| && Adds(start, sorted) && lastSequence >= first
      && Kept(log, |start|, generation, first, lastSequence)
      && (lastSequence == first || (i > 0 && lastSequence == sorted[i - 1].sequence))
      && KeptBelow(sorted, i, log, |start|, generation, first)
    }

    method IngestNext(sorted: seq<Record>, i: nat, ghost start: seq<Entry>, ghost first: int)
      returns (added: bool, stop: bool)
      requires Valid() && Ordered(sorted) && i < |sorted| && Done(sorted, i, start, first)
      modifies this`log, this`attempts, this`lastSequence, this`lastDuplicate, this`suppressed
      ensures Valid() && old(attempts) <= attempts && Done(sorted, if stop then i else i + 1, start, first)
      ensures stop <==> !AllEmitted(attempts, |old(attempts)|)
      ensures if stop then sorted[i].sequence > lastSequence else sorted[i].sequence <= lastSequence
    {
      added, stop := IngestOne(sorted[i]);
      KeptLater(old(log), log, |start|, |start|, generation, first);
      if !stop {
        OneMoreKept(sorted, i, old(log), log, |start|, generation, first, old(lastSequence), lastSequence);
      }
    }

    method IngestSorted(sorted: seq<Record>) returns (highest: Option<int>, accepted: nat)
      requires Valid() && Ordered(sorted)
      modifies this`log, this`attempts, this`lastSequence, this`lastDuplicate, this`suppressed
      ensures Valid() && Adds(old(log), sorted) && lastSequence >= old(lastSequence) && old(attempts) <= attempts
      ensures highest.Some? ==>
                && highest.value <= lastSequence
                && Settled(sorted, log, |old(log)|, generation, old(lastSequence), highest.value)
      ensures AllEmitted(attempts, |old(attempts)|) <==>
              highest == if sorted == [] then None else Some(sorted[|sorted| - 1].sequence)
    {
      highest, accepted := None, 0;
      var i := 0;
      while i < |sorted|
        invariant 0 <= i <= |sorted|
        invariant Valid() && old(attempts) <= attempts && Done(sorted, i, old(log), old(lastSequence))
        invariant highest == if i == 0 then None else Some(sorted[i - 1].sequence)
        invariant highest.Some? ==> highest.value <= lastSequence
        invariant AllEmitted(attempts, |old(attempts)|)
      {
        ghost var tried := attempts;
        var added, stop := IngestNext(sorted, i, old(log), old(lastSequence));
        AllEmittedLater(tried, attempts, |old(attempts)|);
        if stop {
          assert sorted[i].sequence <= sorted[|sorted| - 1].sequence;
          break;
        }
        highest := Some(sorted[i].sequence);
        accepted := accepted + if added then 1 else 0;
        i := i + 1;
      }
    }

    /**
      The number returned is safe to acknowledge: it is a record's, and every
      record up to it has been accepted, in this drain or before. It is the highest
      number of the drain exactly if every record the drain tried was written.
    */
    method Ingest(records: seq<Record>, dropped: int) returns (highest: Option<int>)
      requires Valid()
      modifies this`log, this`attempts, this`lastSequence, this`lastDuplicate, this`suppressed
      ensures Valid() && Adds(old(log), records) && lastSequence >= old(lastSequence) && old(attempts) <= attempts
      ensures highest.Some? ==>
                && highest.value <= lastSequence
                && Settled(records, log, |old(log)|, generation, old(lastSequence), highest.value)
      ensures AllEmitted(attempts, |old(attempts)|) <==>
                && (records == [] <==> highest.None?)
                && forall i :: 0 <= i < |records| ==> records[i].sequence <= highest.value
    {
      if dropped != 0 {
        WriteNote();
      }
      ghost var start := |log|;
      highest := IngestRecords(records);
      KeptLater(log, log, |old(log)|, start, generation, old(lastSequence));
    }

    method IngestRecords(records: seq<Record>) returns (highest: Option<int>)
      requires Valid()
      modifies this`log, this`attempts, this`lastSequence, this`lastDuplicate, this`suppressed
      ensures Valid() && Adds(old(log), records) && lastSequence >= old(lastSequence) && old(attempts) <= attempts
      ensures highest.Some? ==>
                && highest.value <= lastSequence
                && Settled(records, log, |old(log)|, generation, old(lastSequence), highest.value)
      ensures AllEmitted(attempts, |old(attempts)|) <==>
                && (records == [] <==> highest.None?)
                && forall i :: 0 <= i < |records| ==> records[i].sequence <= highest.value
    {
      SortOrders(records);
      var accepted;
      highest, accepted := IngestSorted(Sort(records));
      ghost var ingested, tried := log, attempts;
      if highest.Some? {
        SettledUnsorted(records, log, |old(log)|, generation, old(lastSequence), highest.value);
      }
      if accepted > 0 {
        WriteNote();
      }
      KeptLater(ingested, log, |old(log)|, |old(log)|, generation, old(lastSequence));
      AllEmittedLater(tried, attempts, |old(attempts)|);
      if highest.Some? {
        LastIsHighest(records, highest.value);
      }
    }

    /** A reloaded producer numbers its records anew. */
    method ResetSource()
      requires Valid()
      modifies this`lastSequence, this`lastDuplicate, this`generation
      ensures Valid() && generation == old(generation) + 1 && lastSequence == -1
    {
      BooksAfterReset(attempts, generation);
      lastSequence, lastDuplicate, generation := -1, -1, generation + 1;
    }
  }
}
