/** The ring of recent log lines, against the list of every line written: which lines a ring of
    a given size still holds, where in the ring each of them is, which of them a filtered request
    answers and in which order, and how many of them carry each level. */
module LogBuffer {
  import opened Common

  datatype Level = Error | Warn | Info | Unlabelled

  /** One line as the standard logger delivered it, split into its parts. Characters stand for bytes. */
  datatype Line = Line(at: Time, level: Level, message: string)

  datatype Record = Record(sequence: nat, at: Time, level: Level, message: string)

  const MAXIMUM_MESSAGE: nat := 4096
  const DEFAULT_LIMIT: nat := 200

  /** The three bytes of the ellipsis that marks a shortened line. */
  const ELLIPSIS: string := "\U{E2}\U{80}\U{A6}"

  function Severity(level: Level): nat {
    match level
    case Error => 3
    case Warn => 2
    case Info => 1
    case Unlabelled => 1
  }

  function Shortened(message: string): string {
    if |message| > MAXIMUM_MESSAGE then message[..MAXIMUM_MESSAGE] + ELLIPSIS else message
  }

  // ---------------------------------------------------------------- what was written

  /** The records of every line with a message, numbered from one. */
  function Kept(lines: seq<Line>): seq<Record> {
    if lines == [] then []
    else
      var before, last := Kept(lines[..|lines| - 1]), lines[|lines| - 1];
      if last.message == "" then before
      else before + [Record(|before| + 1, last.at, last.level, Shortened(last.message))]
  }

  lemma {:induction false} KeptIsNumbered(lines: seq<Line>, i: nat)
    requires i < |Kept(lines)|
    ensures Kept(lines)[i].sequence == i + 1 && Kept(lines)[i].message != ""
    decreases |lines|
  {
    if i < |Kept(lines[..|lines| - 1])| {
      KeptIsNumbered(lines[..|lines| - 1], i);
    }
  }

  /** How many of the lines say something. */
  function Spoken(lines: seq<Line>): nat {
    if lines == [] then 0 else Spoken(lines[..|lines| - 1]) + if lines[|lines| - 1].message == "" then 0 else 1
  }

  /** The record stands for the line: the same instant and level, and the message, of which a
      long one keeps its first 4096 bytes and gets an ellipsis. */
  predicate StandsFor(r: Record, line: Line) {
    && r.at == line.at && r.level == line.level
    && (|line.message| <= 4096 ==> r.message == line.message)
    && (|line.message| > 4096 ==> |r.message| == 4099 && r.message[..4096] == line.message[..4096] && r.message[4096..] == ELLIPSIS)
  }

  /** Every line that says something is kept, in its turn, and nothing else is. */
  lemma {:induction false} KeptFollowsLines(lines: seq<Line>, j: nat)
    requires j < |lines| && lines[j].message != ""
    ensures |Kept(lines)| == Spoken(lines) && Spoken(lines[..j]) < Spoken(lines)
    ensures StandsFor(Kept(lines)[Spoken(lines[..j])], lines[j])
    decreases |lines|
  {
    var n := |lines| - 1;
    KeptCounts(lines[..n]);
    if j < n {
      KeptFollowsLines(lines[..n], j);
      assert lines[..n][..j] == lines[..j];
    }
  }

  lemma {:induction false} KeptCounts(lines: seq<Line>)
    ensures |Kept(lines)| == Spoken(lines)
    decreases |lines|
  {
    if lines != [] {
      KeptCounts(lines[..|lines| - 1]);
    }
  }

  /** How many lines a ring of this size still has. */
  function Held(kept: seq<Record>, size: nat): nat {
    if |kept| < size then |kept| else size
  }

  /** The last lines, newest first. */
  function Newest(kept: seq<Record>, held: nat): (r: seq<Record>)
    requires held <= |kept|
    ensures |r| == held && forall i :: 0 <= i < held ==> r[i] == kept[|kept| - 1 - i]
  {
    seq(held, i requires 0 <= i < held => kept[|kept| - 1 - i])
  }

  // ---------------------------------------------------------------- filtering

  /** Library text operations: trimming space and folding case. */
  datatype Text = Text(trim: string -> string, lower: string -> string)

  /** An empty or unknown minimum level keeps everything, and so does a missing instant. */
  datatype Filter = Filter(minimum: Option<Level>, contains: string, since: Option<Time>, limit: int)

  predicate Contains(text: string, part: string) {
    part <= text || (text != "" && Contains(text[1..], part))
  }

  predicate Matches(r: Record, f: Filter, text: Text) {
    var needle := text.lower(text.trim(f.contains));
    && (f.minimum.Some? ==> Severity(r.level) >= Severity(f.minimum.value))
    && (f.since.Some? ==> r.at >= f.since.value)
    && (needle != "" ==> Contains(text.lower(r.message), needle))
  }

  /** The part is somewhere in the text. */
  ghost predicate Within(text: string, part: string) {
    exists i :: 0 <= i <= |text| && part <= text[i..]
  }

  lemma {:induction false} ContainsIsWithin(text: string, part: string)
    ensures Contains(text, part) <==> Within(text, part)
    decreases |text|
  {
    if part <= text {
      assert text[0..] == text;
    } else if text != "" {
      ContainsIsWithin(text[1..], part);
      if Within(text[1..], part) {
        var i :| 0 <= i <= |text[1..]| && part <= text[1..][i..];
        assert text[1..][i..] == text[i + 1..];
      }
      if Within(text, part) {
        var i :| 0 <= i <= |text| && part <= text[i..];
        assert text[0..] == text;
        assert text[1..][i - 1..] == text[i..];
      }
    }
  }

  /** The line passes the filter: severe enough, recent enough, and with the text in it. */
  ghost predicate Passes(r: Record, f: Filter, text: Text) {
    && (f.minimum == Some(Error) ==> r.level == Error)
    && (f.minimum == Some(Warn) ==> r.level == Error || r.level == Warn)
    && (f.since.Some? ==> f.since.value <= r.at)
    && (text.lower(text.trim(f.contains)) == "" || Within(text.lower(r.message), text.lower(text.trim(f.contains))))
  }

  lemma MatchesIffPasses(r: Record, f: Filter, text: Text)
    ensures Matches(r, f, text) <==> Passes(r, f, text)
  {
    ContainsIsWithin(text.lower(r.message), text.lower(text.trim(f.contains)));
  }

  function Matching(records: seq<Record>, f: Filter, text: Text): (r: seq<Record>)
    ensures |r| <= |records|
  {
    if records == [] then []
    else
      var before := Matching(records[..|records| - 1], f, text);
      if Matches(records[|records| - 1], f, text) then before + [records[|records| - 1]] else before
  }

  lemma {:induction false} MatchingPrefix(records: seq<Record>, n: nat, f: Filter, text: Text)
    requires n <= |records|
    ensures var part, all := Matching(records[..n], f, text), Matching(records, f, text);
      |part| <= |all| && all[..|part|] == part
    decreases |records| - n
  {
    if n < |records| {
      MatchingPrefix(records, n + 1, f, text);
      assert records[..n + 1][..n] == records[..n];
    } else {
      assert records[..n] == records;
    }
  }

  function Limit(f: Filter): nat { if f.limit < 1 then DEFAULT_LIMIT else f.limit }

  function Take(records: seq<Record>, limit: nat): seq<Record> {
    if |records| <= limit then records else records[..limit]
  }

  /** The chosen lines pass, newest first, no more than the limit; a passing line left out is
      older than all of them, and the limit was reached. */
  ghost predicate NewestPassing(chosen: seq<Record>, records: seq<Record>, limit: nat, f: Filter, text: Text) {
    && |chosen| <= limit
    && (forall i, j :: 0 <= i < j < |chosen| ==> chosen[i].sequence > chosen[j].sequence)
    && (forall r :: r in chosen ==> r in records && Passes(r, f, text))
    && (forall r :: r in records && Passes(r, f, text) && r !in chosen ==>
          |chosen| == limit && forall q :: q in chosen ==> q.sequence > r.sequence)
  }

  ghost predicate Descending(records: seq<Record>) {
    forall i, j :: 0 <= i < j < |records| ==> records[i].sequence > records[j].sequence
  }

  lemma {:induction false} MatchingMembers(records: seq<Record>, f: Filter, text: Text, r: Record)
    ensures r in Matching(records, f, text) <==> r in records && Passes(r, f, text)
    decreases |records|
  {
    if records != [] {
      var n := |records| - 1;
      MatchingMembers(records[..n], f, text, r);
      MatchesIffPasses(records[n], f, text);
      assert r in records <==> r in records[..n] || r == records[n];
    }
  }

  lemma {:induction false} MatchingDescends(records: seq<Record>, f: Filter, text: Text)
    requires Descending(records)
    ensures Descending(Matching(records, f, text))
    decreases |records|
  {
    if records != [] {
      var n := |records| - 1;
      MatchingDescends(records[..n], f, text);
      forall r | r in Matching(records[..n], f, text)
        ensures r.sequence > records[n].sequence
      {
        MatchingMembers(records[..n], f, text, r);
      }
    }
  }

  lemma TakenAreNewestPassing(records: seq<Record>, f: Filter, text: Text, limit: nat)
    requires Descending(records)
    ensures NewestPassing(Take(Matching(records, f, text), limit), records, limit, f, text)
  {
    var all := Matching(records, f, text);
    MatchingDescends(records, f, text);
    forall r: Record
      ensures r in all <==> r in records && Passes(r, f, text)
    {
      MatchingMembers(records, f, text, r);
    }
    TakenComeFirst(all, limit);
  }

  lemma TakenComeFirst(all: seq<Record>, limit: nat)
    requires Descending(all)
    ensures forall r, q :: r in all && r !in Take(all, limit) && q in Take(all, limit) ==> q.sequence > r.sequence
    ensures forall r :: r in all && r !in Take(all, limit) ==> |Take(all, limit)| == limit
  {
    assert limit < |all| ==> all == all[..limit] + all[limit..];
  }

  lemma NewestDescends(lines: seq<Line>, held: nat)
    requires held <= |Kept(lines)|
    ensures Descending(Newest(Kept(lines), held))
  {
    forall i | 0 <= i < |Kept(lines)|
      ensures Kept(lines)[i].sequence == i + 1
    {
      KeptIsNumbered(lines, i);
    }
  }

  function CountLevel(records: seq<Record>, level: Level): nat {
    if records == [] then 0
    else CountLevel(records[..|records| - 1], level) + if records[|records| - 1].level == level then 1 else 0
  }

  /** Append the record unless one of the filter's tests drops it. */
  method Consider(matching: seq<Record>, record: Record, f: Filter, text: Text) returns (r: seq<Record>)
    ensures r == matching + if Matches(record, f, text) then [record] else []
  {
    var contains := text.lower(text.trim(f.contains));
    if f.minimum.Some? && Severity(record.level) < Severity(f.minimum.value) {
      return matching;
    }
    if f.since.Some? && record.at < f.since.value {
      return matching;
    }
    if contains != "" && !Contains(text.lower(record.message), contains) {
      return matching;
    }
    return matching + [record];
  }

  lemma MatchingNext(records: seq<Record>, n: nat, f: Filter, text: Text)
    requires n < |records|
    ensures Matching(records[..n + 1], f, text)
         == Matching(records[..n], f, text) + if Matches(records[n], f, text) then [records[n]] else []
  {
    assert records[..n + 1][..n] == records[..n];
  }

  /** A walk that stops at the limit, or at the end, has what it needs. */
  lemma WalkMayStop(records: seq<Record>, n: nat, f: Filter, text: Text, limit: nat)
    requires n <= |records| && |Matching(records[..n], f, text)| <= limit
    requires n == |records| || |Matching(records[..n], f, text)| == limit
    ensures Matching(records[..n], f, text) == Take(Matching(records, f, text), limit)
  {
    MatchingPrefix(records, n, f, text);
    assert n == |records| ==> records[..n] == records;
  }

  lemma CountNext(records: seq<Record>, n: nat, level: Level)
    requires n < |records|
    ensures CountLevel(records[..n + 1], level) == CountLevel(records[..n], level) + if records[n].level == level then 1 else 0
  {
    assert records[..n + 1][..n] == records[..n];
  }

  ghost function At(records: seq<Record>, level: Level): set<int> {
    set i | 0 <= i < |records| && records[i].level == level
  }

  lemma {:induction false} CountLevelIsNumberAt(records: seq<Record>, level: Level)
    ensures CountLevel(records, level) == |At(records, level)|
    decreases |records|
  {
    if records != [] {
      var n := |records| - 1;
      CountLevelIsNumberAt(records[..n], level);
      assert At(records, level) == At(records[..n], level) + if records[n].level == level then {n} else {};
    }
  }

  /** The counts of a list, by level. */
  ghost predicate CountsAre(counts: map<Level, nat>, records: seq<Record>) {
    forall level: Level :: level in counts && counts[level] == CountLevel(records, level)
  }

  lemma CountsNext(counts: map<Level, nat>, records: seq<Record>, n: nat)
    requires n < |records| && CountsAre(counts, records[..n])
    ensures CountsAre(counts[records[n].level := counts[records[n].level] + 1], records[..n + 1])
  {
    forall level: Level
      ensures CountLevel(records[..n + 1], level) == CountLevel(records[..n], level) + if records[n].level == level then 1 else 0
    {
      CountNext(records, n, level);
    }
  }

  lemma CountsOfNone()
    ensures CountsAre(map[Error := 0, Warn := 0, Info := 0, Unlabelled := 0], [])
  {
    var counts := map[Error := 0, Warn := 0, Info := 0, Unlabelled := 0];
    forall level: Level
      ensures level in counts && counts[level] == 0
    {
      match level
      case Error =>
      case Warn =>
      case Info =>
      case Unlabelled =>
    }
  }

  // ---------------------------------------------------------------- positions in the ring

  /** The remainder of a division that truncates toward zero: it has the dividend's sign. */
  function Remainder(a: int, b: int): int
    requires b > 0
  {
    if a >= 0 then a % b else -(-a % b)
  }

  /** Where the walk reads its index-th newest line. */
  function Position(next: nat, index: nat, size: nat): int
    requires size > 0
  {
    Remainder(Remainder(next - 1 - index, size) + size, size)
  }

  lemma Multiples(d: int, b: int)
    requires b > 0
    ensures d >= 1 ==> d * b >= b
    ensures d == 0 ==> d * b == 0
    ensures d <= -1 ==> d * b <= -b
  {
  }

  lemma ModIs(a: int, b: int, q: int, r: int)
    requires b > 0 && a == q * b + r && 0 <= r < b
    ensures a % b == r
  {
    var d := a / b - q;
    assert a == (a / b) * b + a % b;
    assert d * b == r - a % b;
    Multiples(d, b);
  }

  /** The slot the i-th line is written to: slots are used in turn. */
  function Slot(i: nat, size: nat): (r: nat)
    requires size > 0
    ensures r < size
  {
    if i < size then i else Slot(i - size, size)
  }

  lemma {:induction false} SlotBack(total: nat, back: nat, size: nat)
    requires size > 0 && back <= size && back <= total
    ensures var next := Slot(total, size);
      Slot(total - back, size) == if back <= next then next - back else if next + size - back < size then next + size - back else 0
    decreases total
  {
    if total - back >= size {
      SlotBack(total - size, back, size);
    }
  }

  lemma {:induction false} SlotForward(total: nat, size: nat)
    requires size > 0
    ensures var next := Slot(total, size); Slot(total + 1, size) == if next + 1 == size then 0 else next + 1
    decreases total
  {
    if total >= size {
      SlotForward(total - size, size);
    }
  }

  /** The walk reads the slot that the line of that age was written to. */
  lemma {:induction false} PositionIsSlot(total: nat, index: nat, size: nat)
    requires size > 0 && index < size && index < total
    ensures Position(Slot(total, size), index, size) == Slot(total - 1 - index, size)
  {
    var next := Slot(total, size);
    var back := next - 1 - index;
    SlotBack(total, index + 1, size);
    if back >= 0 {
      ModIs(back, size, 0, back);
      ModIs(back + size, size, 1, back);
    } else if back + size == 0 {
      ModIs(size, size, 1, 0);
      ModIs(-back, size, 1, 0);
    } else {
      ModIs(-back, size, 0, -back);
      ModIs(back + size, size, 0, back + size);
    }
  }

  lemma SlotAfterWrite(total: nat, size: nat)
    requires size > 0
    ensures Slot(total + 1, size) == Remainder(Slot(total, size) + 1, size)
  {
    SlotForward(total, size);
    var next := Slot(total, size);
    if next + 1 == size {
      ModIs(size, size, 1, 0);
    } else {
      ModIs(next + 1, size, 0, next + 1);
    }
  }

  /** Two lines held at once have different slots. */
  lemma SlotsDiffer(i: nat, j: nat, size: nat)
    requires size > 0 && i < j < i + size
    ensures Slot(i, size) != Slot(j, size)
  {
  }

  // ---------------------------------------------------------------- the buffer

  /** Each line still held is in its slot. */
  ghost predicate InSlots(slots: seq<Record>, kept: seq<Record>) {
    |slots| > 0 && forall i :: 0 <= i < |kept| && |kept| - |slots| <= i ==> slots[Slot(i, |slots|)] == kept[i]
  }

  lemma InSlotsAfterWrite(slots: seq<Record>, kept: seq<Record>, r: Record)
    requires InSlots(slots, kept)
    ensures InSlots(slots[Slot(|kept|, |slots|) := r], kept + [r])
  {
    var after := slots[Slot(|kept|, |slots|) := r];
    forall i | 0 <= i < |kept| + 1 && |kept| + 1 - |slots| <= i
      ensures after[Slot(i, |slots|)] == (kept + [r])[i]
    {
      if i < |kept| {
        SlotsDiffer(i, |kept|, |slots|);
      }
    }
  }

  /** The fields of a ring into which these lines were written. */
  ghost predicate Holds(slots: seq<Record>, next: nat, filled: bool, kept: seq<Record>) {
    InSlots(slots, kept) && next == Slot(|kept|, |slots|) && filled == (|kept| >= |slots|)
  }

  lemma HoldsAfterWrite(slots: seq<Record>, next: nat, filled: bool, kept: seq<Record>, r: Record)
    requires Holds(slots, next, filled, kept)
    ensures var moved := Remainder(next + 1, |slots|);
      next < |slots| && moved >= 0 && Holds(slots[next := r], moved, filled || moved == 0, kept + [r])
  {
    SlotAfterWrite(|kept|, |slots|);
    InSlotsAfterWrite(slots, kept, r);
    FilledOnWrap(|kept|, |slots|);
  }

  /** The ring becomes full at the first wrap. */
  lemma FilledOnWrap(total: nat, size: nat)
    requires size > 0
    ensures total + 1 >= size <==> total >= size || Slot(total + 1, size) == 0
  {
  }

  lemma ReadsByAge(slots: seq<Record>, next: nat, filled: bool, kept: seq<Record>, index: nat)
    requires Holds(slots, next, filled, kept) && index < Held(kept, |slots|)
    ensures 0 <= Position(next, index, |slots|) < |slots| && slots[Position(next, index, |slots|)] == kept[|kept| - 1 - index]
  {
    PositionIsSlot(|kept|, index, |slots|);
  }

  lemma HeldIsNextOrAll(slots: seq<Record>, next: nat, filled: bool, kept: seq<Record>)
    requires Holds(slots, next, filled, kept)
    ensures Held(kept, |slots|) == if filled then |slots| else next
  {
  }

  lemma TakenFromHeld(lines: seq<Line>, held: nat, f: Filter, text: Text)
    requires held <= |Kept(lines)|
    ensures var newest := Newest(Kept(lines), held);
      NewestPassing(Take(Matching(newest, f, text), Limit(f)), newest, if f.limit >= 1 then f.limit else 200, f, text)
  {
    NewestDescends(lines, held);
    TakenAreNewestPassing(Newest(Kept(lines), held), f, text, Limit(f));
  }

  class Buffer {
    const records: array<Record>
    var next: nat
    var filled: bool
    var sequence: nat
    ghost var lines: seq<Line>

    ghost predicate Valid()
      reads this, records
    {
      Holds(records[..], next, filled, Kept(lines)) && sequence == |Kept(lines)|
    }

    constructor (size: int)
      ensures Valid() && lines == [] && fresh(records) && records.Length == if size < 1 then 1 else size
    {
      records := new Record[if size < 1 then 1 else size];
      next, filled, sequence, lines := 0, false, 0, [];
    }

    method Write(line: Line)
      requires Valid()
      modifies this, records
      ensures Valid() && lines == old(lines) + [line]
    {
      ghost var kept := Kept(lines);
      assert (lines + [line])[..|lines|] == lines;
      lines := lines + [line];
      if line.message == "" {
        return;
      }
      var message := line.message;
      if |message| > MAXIMUM_MESSAGE {
        message := message[..MAXIMUM_MESSAGE] + ELLIPSIS;
      }
      sequence := sequence + 1;
      var record := Record(sequence, line.at, line.level, message);
      Put(record, kept);
    }

    /** Overwrite the oldest slot and move on. */
    method Put(record: Record, ghost kept: seq<Record>)
      requires Holds(records[..], next, filled, kept)
      modifies this`next, this`filled, records
      ensures Holds(records[..], next, filled, kept + [record])
    {
      HoldsAfterWrite(records[..], next, filled, kept, record);
      ghost var slots := records[..];
      records[next] := record;
      assert records[..] == slots[next := record];
      next := Remainder(next + 1, records.Length);
      if next == 0 {
        filled := true;
      }
    }

    method HeldLocked() returns (held: nat)
      requires Valid()
      ensures held == Held(Kept(lines), records.Length)
      ensures held <= Spoken(lines) && held <= records.Length && (held == Spoken(lines) || held == records.Length)
    {
      KeptCounts(lines);
      HeldIsNextOrAll(records[..], next, filled, Kept(lines));
      return if filled then records.Length else next;
    }

    /** Walking back from the newest line reads these. */
    ghost predicate ReadsAs(newest: seq<Record>)
      reads this, records
    {
      records.Length > 0 && forall index :: 0 <= index < |newest| ==> ReadsAt(index, newest[index])
    }

    ghost predicate ReadsAt(index: nat, record: Record)
      requires records.Length > 0
      reads this, records
    {
      var position := Position(next, index, records.Length);
      0 <= position < records.Length && records[position] == record
    }

    /** The lines held, newest first. */
    ghost function Recent(): (newest: seq<Record>)
      requires Valid()
      reads this, records
      ensures ReadsAs(newest) && |newest| == Held(Kept(lines), records.Length)
    {
      var newest := Newest(Kept(lines), Held(Kept(lines), records.Length));
      assert ReadsAs(newest) by {
        forall index | 0 <= index < |newest|
          ensures ReadsAt(index, newest[index])
        {
          ReadsByAge(records[..], next, filled, Kept(lines), index);
        }
      }
      newest
    }

    /** The line of this age, zero being the newest. */
    method ReadBack(index: nat, ghost newest: seq<Record>) returns (record: Record)
      requires ReadsAs(newest) && index < |newest|
      ensures record == newest[index]
    {
      assert ReadsAt(index, newest[index]);
      return records[Position(next, index, records.Length)];
    }

    /** The most recent matching lines, newest first, and how many lines are held. */
    method Records(f: Filter, text: Text) returns (matching: seq<Record>, held: nat)
      requires Valid()
      ensures held == Held(Kept(lines), records.Length)
      ensures matching == Take(Matching(Newest(Kept(lines), held), f, text), Limit(f))
      ensures NewestPassing(matching, Newest(Kept(lines), held), if f.limit >= 1 then f.limit else 200, f, text)
    {
      held := HeldLocked();
      matching := Walk(held, f, text, Recent());
      TakenFromHeld(lines, held, f, text);
    }

    /** Walk back from the newest line until enough match. */
    method Walk(held: nat, f: Filter, text: Text, ghost newest: seq<Record>) returns (matching: seq<Record>)
      requires ReadsAs(newest) && held == |newest|
      ensures matching == Take(Matching(newest, f, text), Limit(f))
    {
      var limit := Limit(f);
      matching := [];
      var index := 0;
      while index < held && |matching| < limit
        invariant 0 <= index <= held && |matching| <= limit
        invariant matching == Matching(newest[..index], f, text)
      {
        var record := ReadBack(index, newest);
        MatchingNext(newest, index, f, text);
        matching := Consider(matching, record, f, text);
        index := index + 1;
      }
      WalkMayStop(newest, index, f, text, limit);
    }

    /** How many held lines carry each level. */
    method Counts() returns (counts: map<Level, nat>)
      requires Valid()
      ensures CountsAre(counts, Newest(Kept(lines), Held(Kept(lines), records.Length)))
      ensures forall level: Level :: level in counts && counts[level] == |At(Newest(Kept(lines), Held(Kept(lines), records.Length)), level)|
    {
      var held := HeldLocked();
      counts := CountHeld(held, Recent());
      ghost var newest := Newest(Kept(lines), held);
      forall level: Level
        ensures CountLevel(newest, level) == |At(newest, level)|
      {
        CountLevelIsNumberAt(newest, level);
      }
    }

    method CountHeld(held: nat, ghost newest: seq<Record>) returns (counts: map<Level, nat>)
      requires ReadsAs(newest) && held == |newest|
      ensures CountsAre(counts, newest)
    {
      counts := map[Error := 0, Warn := 0, Info := 0, Unlabelled := 0];
      var index := 0;
      assert newest[..0] == [];
      CountsOfNone();
      while index < held
        invariant 0 <= index <= held
        invariant CountsAre(counts, newest[..index])
      {
        var record := ReadBack(index, newest);
        CountsNext(counts, newest, index);
        counts := counts[record.level := counts[record.level] + 1];
        index := index + 1;
      }
      assert newest[..held] == newest;
    }
  }
}
