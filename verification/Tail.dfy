/**
 The labs' event files, tailed scan after scan (`scan` and `Hub::run` of
 `bins/nlink-labd/src/hub.rs`, `read_events` of `crates/nlink-lab/src/ops/view.rs`): a
 cursor per lab says where its file was read up to, and only whole lines are taken.
 */
module Tail {
  import opened Prelude

  type Bytes = seq<int>

  const NEWLINE := 10

  /** A line of the file as an event, if it is one. */
  type Parser = Bytes -> Option<string>

  // ---- the records of a file from an offset on

  /** The offset after the line that starts at `i`, if the line is whole. */
  function AfterLine(text: Bytes, i: nat): (r: Option<nat>)
    requires i <= |text|
    ensures r.Some? ==>
              && i < r.value <= |text| && text[r.value - 1] == NEWLINE
              && forall k :: i <= k < r.value - 1 ==> text[k] != NEWLINE
    ensures r.None? ==> forall k :: i <= k < |text| ==> text[k] != NEWLINE
    decreases |text| - i
  {
    if i == |text| then None else if text[i] == NEWLINE then Some(i + 1) else AfterLine(text, i + 1)
  }

  function Parsed(line: Bytes, parse: Parser): seq<string> {
    if parse(line).Some? then [parse(line).value] else []
  }

  /** The events of the whole lines from `i` on. */
  function Records(text: Bytes, i: nat, parse: Parser): seq<string>
    requires i <= |text|
    decreases |text| - i
  {
    var e := AfterLine(text, i);
    if e.None? then [] else Parsed(text[i..e.value], parse) + Records(text, e.value, parse)
  }

  /** The offset after the last whole line from `i` on. */
  function Consumed(text: Bytes, i: nat): (c: nat)
    requires i <= |text|
    ensures i <= c <= |text|
    decreases |text| - i
  {
    var e := AfterLine(text, i);
    if e.None? then i else Consumed(text, e.value)
  }

  /** It is after the last newline there, or where reading began. */
  lemma {:induction false} ConsumedIsLast(text: Bytes, i: nat)
    requires i <= |text|
    ensures var c := Consumed(text, i);
            && (c == i || text[c - 1] == NEWLINE)
            && forall k :: c <= k < |text| ==> text[k] != NEWLINE
    decreases |text| - i
  {
    if AfterLine(text, i).Some? {
      ConsumedIsLast(text, AfterLine(text, i).value);
    }
  }

  // ---- what the records are, by positions

  /** The bytes from `s` to `e` are a whole line of what is read from `i` on. */
  ghost predicate IsLine(text: Bytes, i: nat, s: nat, e: nat) {
    && i <= s < e <= |text| && text[e - 1] == NEWLINE
    && (s == i || text[s - 1] == NEWLINE)
    && forall k :: s <= k < e - 1 ==> text[k] != NEWLINE
  }

  /** A whole line of what is read from `i` on begins at `s` and is an event. */
  ghost predicate EventAt(text: Bytes, i: nat, s: nat, parse: Parser) {
    exists e: nat :: IsLine(text, i, s, e) && parse(text[s..e]).Some?
  }

  /** Record `k` is the event of the whole line from `starts[k]` to `ends[k]`. */
  ghost predicate RecordOf(text: Bytes, i: nat, parse: Parser, s: nat, e: nat, record: string) {
    IsLine(text, i, s, e) && parse(text[s..e]) == Some(record)
  }

  /** One record for every whole line that is an event, in the order of the lines. */
  ghost predicate OnePerLine(
    text: Bytes, i: nat, parse: Parser, records: seq<string>, starts: seq<nat>, ends: seq<nat>)
  {
    && |starts| == |records| && |ends| == |records| && Ascending(starts)
    && (forall k :: 0 <= k < |records| ==> RecordOf(text, i, parse, starts[k], ends[k], records[k]))
    && (forall s: nat :: EventAt(text, i, s, parse) ==> s in starts)
  }

  /** The line that begins at a place is one line. */
  lemma OneLine(text: Bytes, i: nat, s: nat, e: nat, f: nat)
    requires IsLine(text, i, s, e) && IsLine(text, i, s, f)
    ensures e == f
  {
  }

  /** Reading on from the end of the first line, the lines are the others. */
  lemma OtherLines(text: Bytes, i: nat, next: nat, s: nat, e: nat)
    requires IsLine(text, i, i, next)
    ensures IsLine(text, next, s, e) <==> IsLine(text, i, s, e) && s != i
  {
    assert IsLine(text, i, s, e) && s != i ==> text[s - 1] == NEWLINE;
  }

  /**
   The records of a file from a place on: one for each whole line there that is an event,
   once, in the order of the lines; so as many as there are such lines.
   */
  lemma RecordsAreTheLines(text: Bytes, i: nat, parse: Parser)
    returns (starts: seq<nat>, ends: seq<nat>)
    requires i <= |text|
    ensures OnePerLine(text, i, parse, Records(text, i, parse), starts, ends)
    ensures |Records(text, i, parse)| == |set s: nat | s < |text| && EventAt(text, i, s, parse)|
  {
    starts, ends := LinesOfRecords(text, i, parse);
    CountedByStarts(text, i, parse, Records(text, i, parse), starts, ends);
  }

  lemma {:induction false} LinesOfRecords(text: Bytes, i: nat, parse: Parser)
    returns (starts: seq<nat>, ends: seq<nat>)
    requires i <= |text|
    ensures OnePerLine(text, i, parse, Records(text, i, parse), starts, ends)
    decreases |text| - i
  {
    var e := AfterLine(text, i);
    if e.None? {
      starts, ends := [], [];
    } else {
      var next := e.value;
      starts, ends := LinesOfRecords(text, next, parse);
      FirstLineThenOthers(text, i, next, parse, Records(text, next, parse), starts, ends);
      if parse(text[i..next]).Some? {
        starts, ends := [i] + starts, [next] + ends;
      }
    }
  }

  lemma FirstLineThenOthers(
      text: Bytes, i: nat, next: nat, parse: Parser, records: seq<string>, starts: seq<nat>, ends: seq<nat>)
    requires IsLine(text, i, i, next) && OnePerLine(text, next, parse, records, starts, ends)
    ensures var first := parse(text[i..next]);
            if first.Some? then OnePerLine(text, i, parse, [first.value] + records, [i] + starts, [next] + ends)
            else OnePerLine(text, i, parse, records, starts, ends)
  {
    forall k | 0 <= k < |records|
      ensures RecordOf(text, i, parse, starts[k], ends[k], records[k]) && starts[k] > i
    {
      assert RecordOf(text, next, parse, starts[k], ends[k], records[k]);
      OtherLines(text, i, next, starts[k], ends[k]);
    }
    forall s: nat | EventAt(text, i, s, parse)
      ensures if s == i then parse(text[i..next]).Some? else s in starts
    {
      var e: nat :| IsLine(text, i, s, e) && parse(text[s..e]).Some?;
      if s == i {
        OneLine(text, i, i, e, next);
      } else {
        OtherLines(text, i, next, s, e);
        assert EventAt(text, next, s, parse);
      }
    }
  }

  lemma CountedByStarts(
      text: Bytes, i: nat, parse: Parser, records: seq<string>, starts: seq<nat>, ends: seq<nat>)
    requires OnePerLine(text, i, parse, records, starts, ends)
    ensures |records| == |set s: nat | s < |text| && EventAt(text, i, s, parse)|
  {
    ElementsCount(starts);
    var all := set s: nat | s < |text| && EventAt(text, i, s, parse);
    forall s
      ensures s in all <==> s in Elements(starts)
    {
      if s in starts {
        var k :| 0 <= k < |starts| && starts[k] == s;
        assert RecordOf(text, i, parse, starts[k], ends[k], records[k]);
      }
    }
    assert all == Elements(starts);
  }

  ghost predicate AreRecords(text: Bytes, i: nat, parse: Parser, records: seq<string>) {
    exists starts: seq<nat>, ends: seq<nat> :: OnePerLine(text, i, parse, records, starts, ends)
  }

  lemma TheyAreRecords(text: Bytes, i: nat, parse: Parser)
    requires i <= |text|
    ensures AreRecords(text, i, parse, Records(text, i, parse))
  {
    var starts, ends := RecordsAreTheLines(text, i, parse);
  }

  lemma AfterLineGrows(text: Bytes, longer: Bytes, i: nat)
    requires i <= |text| && text <= longer && AfterLine(text, i).Some?
    ensures AfterLine(longer, i) == AfterLine(text, i)
  {
    var e := AfterLine(text, i).value;
    var f := AfterLine(longer, i);
    assert longer[e - 1] == NEWLINE;
    assert f.Some? && f.value == e;
  }

  /** What a longer file adds: its records are those read already, and those from where they ended. */
  lemma {:induction false} RecordsGrow(text: Bytes, longer: Bytes, i: nat, parse: Parser)
    requires i <= |text| && text <= longer
    ensures Records(longer, i, parse) == Records(text, i, parse) + Records(longer, Consumed(text, i), parse)
    ensures Consumed(longer, i) == Consumed(longer, Consumed(text, i))
    decreases |text| - i
  {
    if AfterLine(text, i).Some? {
      var e := AfterLine(text, i).value;
      AfterLineGrows(text, longer, i);
      assert text[i..e] == longer[i..e];
      RecordsGrow(text, longer, e, parse);
    }
  }

  /** Reading from `start` took `events` and stands at `next`. */
  ghost predicate ReadUpTo(text: Bytes, start: nat, parse: Parser, events: seq<string>, next: nat) {
    && start <= next <= |text|
    && Records(text, start, parse) == events + Records(text, next, parse)
    && Consumed(text, start) == Consumed(text, next)
  }

  lemma ReadLine(text: Bytes, start: nat, parse: Parser, events: seq<string>, next: nat, at: nat)
    requires ReadUpTo(text, start, parse, events, next)
    requires next <= at < |text| && AfterLine(text, next) == Some(at + 1)
    ensures ReadUpTo(text, start, parse, events + Parsed(text[next..at + 1], parse), at + 1)
  {
    Regroup(events, Parsed(text[next..at + 1], parse), Records(text, at + 1, parse));
  }

  lemma ReadAll(text: Bytes, start: nat, parse: Parser, events: seq<string>, next: nat)
    requires ReadUpTo(text, start, parse, events, next) && AfterLine(text, next).None?
    ensures events == Records(text, start, parse) && next == Consumed(text, start)
  {
    assert Records(text, next, parse) == [] && events + [] == events;
  }

  /** Line after line, until one is not whole. */
  method ReadFrom(text: Bytes, start: nat, parse: Parser) returns (events: seq<string>, next: nat)
    requires start <= |text|
    ensures events == Records(text, start, parse) && next == Consumed(text, start)
  {
    events, next := [], start;
    var line := AfterLine(text, next);
    while line.Some?
      invariant ReadUpTo(text, start, parse, events, next) && line == AfterLine(text, next)
      decreases |text| - next
    {
      var end := line.value;
      ReadLine(text, start, parse, events, next, end - 1);
      events, next := events + Parsed(text[next..end], parse), end;
      line := AfterLine(text, next);
    }
    ReadAll(text, start, parse, events, next);
  }

  /**
   An event for each whole line from `since` on that is one, once and in order, and the
   offset after the last newline; an offset past the end is read as 0.
   */
  method ReadEvents(text: Bytes, since: nat, parse: Parser) returns (events: seq<string>, next: nat)
    ensures var start := if since > |text| then 0 else since;
            && events == Records(text, start, parse) && AreRecords(text, start, parse, events)
            && next == Consumed(text, start) && (next == start || text[next - 1] == NEWLINE)
            && forall k :: next <= k < |text| ==> text[k] != NEWLINE
  {
    var start := if since > |text| then 0 else since;
    events, next := ReadFrom(text, start, parse);
    ConsumedIsLast(text, start);
    TheyAreRecords(text, start, parse);
  }

  // ---- a lab's file over scans

  datatype Cursor = Cursor(ino: nat, offset: nat)

  /** A scan's look at a lab's file: its inode and length first, then its text, which a failed read does not give. */
  datatype Look = Look(ino: nat, len: nat, text: Bytes, ok: bool)

  function At(cursor: Option<Cursor>, fromEnd: bool, look: Look): Cursor {
    var c := if cursor.Some? then cursor.value else Cursor(look.ino, if fromEnd then look.len else 0);
    if c.ino != look.ino then Cursor(look.ino, 0) else c
  }

  function From(c: Cursor, look: Look): nat {
    if c.offset > |look.text| then 0 else c.offset
  }

  /** The cursor after a scan. */
  function Advanced(cursor: Option<Cursor>, fromEnd: bool, look: Look): Cursor {
    var c := At(cursor, fromEnd, look);
    if look.ok then c.(offset := Consumed(look.text, From(c, look))) else c
  }

  /** The events a scan finds. */
  function Found(cursor: Option<Cursor>, fromEnd: bool, look: Look, parse: Parser): seq<string> {
    var c := At(cursor, fromEnd, look);
    if look.ok then Records(look.text, From(c, look), parse) else []
  }

  /** The cursor after scans, the first of them one that starts at the end of files or not. */
  function CursorAfter(looks: seq<Look>, fromEnd: bool): Option<Cursor> {
    if looks == [] then None
    else Some(Advanced(CursorAfter(looks[..|looks| - 1], fromEnd), fromEnd && |looks| == 1, looks[|looks| - 1]))
  }

  /** Everything published of the lab over scans. */
  function Published(looks: seq<Look>, fromEnd: bool, parse: Parser): seq<string> {
    if looks == [] then []
    else
      var init := looks[..|looks| - 1];
      Published(init, fromEnd, parse) +
      Found(CursorAfter(init, fromEnd), fromEnd && |looks| == 1, looks[|looks| - 1], parse)
  }

  /** The file stays the same one and only grows, also between a scan's two looks at it. */
  ghost predicate Growing(looks: seq<Look>) {
    && (forall k :: 0 <= k < |looks| ==> looks[k].ino == looks[0].ino && looks[k].len <= |looks[k].text|)
    && (forall j, k :: 0 <= j < k < |looks| ==> looks[j].text <= looks[k].text)
  }

  /** Where the first scan of the lab starts. */
  function Origin(looks: seq<Look>, fromEnd: bool): nat {
    if looks != [] && fromEnd then looks[0].len else 0
  }

  /** The last text a read gave, if one did. */
  function LastRead(looks: seq<Look>): Option<Bytes> {
    if looks == [] then None
    else if looks[|looks| - 1].ok then Some(looks[|looks| - 1].text)
    else LastRead(looks[..|looks| - 1])
  }

  lemma {:induction false} LastReadIsAPrefix(looks: seq<Look>, look: Look)
    requires Growing(looks + [look]) && LastRead(looks).Some?
    ensures LastRead(looks).value <= look.text
    ensures looks != [] && |looks[0].text| <= |LastRead(looks).value|
  {
    var n := |looks|;
    if looks[n - 1].ok {
      assert (looks + [look])[n - 1].text <= (looks + [look])[n].text;
      assert n > 1 ==> (looks + [look])[0].text <= (looks + [look])[n - 1].text;
    } else {
      var all, init := looks + [look], looks[..n - 1];
      var some := init + [look];
      assert forall k :: 0 <= k < |some| ==> some[k] == all[if k < n - 1 then k else n];
      assert some[0] == all[0];
      LastReadIsAPrefix(init, look);
    }
  }

  /** Where tailing stands after scans of a growing file. */
  ghost predicate InPlace(looks: seq<Look>, fromEnd: bool, parse: Parser)
    requires looks != []
  {
    var o := Origin(looks, fromEnd);
    var c := CursorAfter(looks, fromEnd).value;
    && c.ino == looks[0].ino
    && match LastRead(looks)
       case None => c.offset == o && Published(looks, fromEnd, parse) == []
       case Some(text) =>
         o <= |text| && c.offset == Consumed(text, o) && Published(looks, fromEnd, parse) == Records(text, o, parse)
  }

  lemma ScanOnce(looks: seq<Look>, fromEnd: bool, parse: Parser, look: Look)
    requires looks != [] && InPlace(looks, fromEnd, parse) && Growing(looks + [look])
    ensures InPlace(looks + [look], fromEnd, parse)
  {
    var all := looks + [look];
    assert all[..|looks|] == looks && all[0] == looks[0];
    assert all[|looks|].ino == all[0].ino;
    var o := Origin(looks, fromEnd);
    assert looks[0].len <= |all[0].text|;
    if LastRead(looks).Some? {
      LastReadIsAPrefix(looks, look);
      RecordsGrow(LastRead(looks).value, look.text, o, parse);
    } else {
      assert all[0].text <= all[|looks|].text;
    }
  }

  /**
   Exactly-once tailing: over any run of scans of a file that only grows, what was
   published is the file's records from the first cursor on, each once and in order, as
   far as the last read that worked; failed reads lose nothing.
   */
  lemma {:induction false} TailedExactlyOnce(looks: seq<Look>, fromEnd: bool, parse: Parser)
    requires looks != [] && Growing(looks)
    ensures InPlace(looks, fromEnd, parse)
  {
    var n := |looks| - 1;
    if n == 0 {
      assert looks[..0] == [];
    } else {
      var init := looks[..n];
      assert looks == init + [looks[n]];
      TailedExactlyOnce(init, fromEnd, parse);
      ScanOnce(init, fromEnd, parse, looks[n]);
    }
  }

  lemma LookMore(looks: seq<Look>, look: Look, fromEnd: bool, parse: Parser)
    ensures var c := CursorAfter(looks, fromEnd);
            && CursorAfter(looks + [look], fromEnd) == Some(Advanced(c, fromEnd && looks == [], look))
            && Published(looks + [look], fromEnd, parse) ==
               Published(looks, fromEnd, parse) + Found(c, fromEnd && looks == [], look, parse)
  {
    assert (looks + [look])[..|looks|] == looks;
  }

  lemma {:induction false} CursorHasTheInode(looks: seq<Look>, fromEnd: bool)
    requires looks != []
    ensures CursorAfter(looks, fromEnd).Some? && CursorAfter(looks, fromEnd).value.ino == looks[|looks| - 1].ino
  {
  }

  /** The scans of a file and of the one that replaces it: the second is tailed like a new lab's, from its start. */
  lemma {:induction false} ReplacedStartsAgain(a: seq<Look>, b: seq<Look>, fromEnd: bool, parse: Parser)
    requires a != [] && b != [] && a[|a| - 1].ino != b[0].ino
    ensures CursorAfter(a + b, fromEnd) == CursorAfter(b, false)
    ensures Published(a + b, fromEnd, parse) == Published(a, fromEnd, parse) + Published(b, false, parse)
  {
    var n := |b| - 1;
    var init, last := b[..n], b[n];
    assert b == init + [last] && a + b == (a + init) + [last];
    LookMore(a + init, last, fromEnd, parse);
    LookMore(init, last, false, parse);
    if n == 0 {
      assert a + init == a;
      CursorHasTheInode(a, fromEnd);
      assert Published(b, false, parse) == Found(None, false, last, parse);
    } else {
      ReplacedStartsAgain(a, init, fromEnd, parse);
      Regroup(Published(a, fromEnd, parse), Published(init, false, parse),
              Found(CursorAfter(init, false), false, last, parse));
    }
  }

  /** The records of what was read last, if anything was, from an offset on. */
  function RecordsRead(read: Option<Bytes>, o: nat, parse: Parser): seq<string> {
    if read.None? || o > |read.value| then [] else Records(read.value, o, parse)
  }

  /**
   Over any run of scans that spans a replacement: after what was published of the file
   before, the new file's records are published from its start, each once and in order.
   */
  lemma ReplacedIsReadWhole(a: seq<Look>, b: seq<Look>, fromEnd: bool, parse: Parser)
    requires a != [] && b != [] && Growing(a) && Growing(b) && a[0].ino != b[0].ino
    ensures Published(a + b, fromEnd, parse) ==
            RecordsRead(LastRead(a), Origin(a, fromEnd), parse) + RecordsRead(LastRead(b), 0, parse)
  {
    assert a[|a| - 1].ino == a[0].ino;
    ReplacedStartsAgain(a, b, fromEnd, parse);
    TailedExactlyOnce(a, fromEnd, parse);
    TailedExactlyOnce(b, false, parse);
  }

  // ---- one lab over scans that may fail

  /**
   What a turn of the registry's loop is for a lab: seen; a list without it, which drops its
   cursor; no list at all; or a scan that died and took the cursors with it.
   */
  datatype Turn = Seen(look: Look) | Absent | NoneListed | ScanLost

  /** No turn came back yet, so the next scan is a first one. */
  predicate StillFirst(turns: seq<Turn>) {
    forall k :: 0 <= k < |turns| ==> turns[k].ScanLost?
  }

  predicate Drops(turn: Turn) {
    turn.Absent? || turn.ScanLost?
  }

  function CursorOf(turns: seq<Turn>): Option<Cursor> {
    if turns == [] || Drops(turns[|turns| - 1]) then None
    else
      var init := turns[..|turns| - 1];
      if turns[|turns| - 1].Seen? then Some(Advanced(CursorOf(init), StillFirst(init), turns[|turns| - 1].look))
      else CursorOf(init)
  }

  function Told(turns: seq<Turn>, parse: Parser): seq<string> {
    if turns == [] then []
    else
      var init, last := turns[..|turns| - 1], turns[|turns| - 1];
      Told(init, parse) + if last.Seen? then Found(CursorOf(init), StillFirst(init), last.look, parse) else []
  }

  function Looks(turns: seq<Turn>): seq<Look> {
    if turns == [] then []
    else Looks(turns[..|turns| - 1]) + if turns[|turns| - 1].Seen? then [turns[|turns| - 1].look] else []
  }

  /** The looks since the lab's cursor was dropped last. */
  function Since(turns: seq<Turn>): seq<Look> {
    if turns == [] || Drops(turns[|turns| - 1]) then []
    else Since(turns[..|turns| - 1]) + if turns[|turns| - 1].Seen? then [turns[|turns| - 1].look] else []
  }

  /** Whether the first of those looks was a first scan's. */
  predicate SinceFirst(turns: seq<Turn>) {
    turns != [] &&
    var init := turns[..|turns| - 1];
    if turns[|turns| - 1].Seen? && Since(init) == [] then StillFirst(init) else SinceFirst(init)
  }

  /** What was published until then. */
  function Earlier(turns: seq<Turn>, parse: Parser): seq<string> {
    if turns == [] then []
    else if Drops(turns[|turns| - 1]) then Told(turns[..|turns| - 1], parse)
    else Earlier(turns[..|turns| - 1], parse)
  }

  predicate HasList(turn: Turn) {
    turn.Seen? || turn.Absent?
  }

  predicate NoListYet(turns: seq<Turn>) {
    forall k :: 0 <= k < |turns| ==> !HasList(turns[k])
  }

  /** Where a lab is to be read from: its file's end as the first list found it, or the start if that list lacks it. */
  function ToRead(turns: seq<Turn>): nat {
    if turns == [] then 0
    else
      var init, last := turns[..|turns| - 1], turns[|turns| - 1];
      if !NoListYet(init) then ToRead(init) else if last.Seen? then last.look.len else 0
  }

  /** The lab's cursor is dropped after a look, or the first list has the lab after a listing that failed. */
  ghost predicate Trouble(turns: seq<Turn>, d: nat) {
    d < |turns| &&
    ((Drops(turns[d]) && exists k :: 0 <= k < d && turns[k].Seen?) ||
     (turns[d].Seen? && (forall k :: 0 <= k < d ==> !HasList(turns[k])) &&
      exists k :: 0 <= k < d && turns[k].NoneListed?))
  }

  ghost predicate Untroubled(turns: seq<Turn>) {
    forall d :: 0 <= d < |turns| ==> !Trouble(turns, d)
  }

  lemma TroubleSoFar(turns: seq<Turn>, d: nat)
    requires turns != [] && d < |turns| - 1
    ensures Trouble(turns[..|turns| - 1], d) == Trouble(turns, d)
  {
    assert forall k :: 0 <= k <= d ==> turns[..|turns| - 1][k] == turns[k];
  }

  lemma UntroubledMore(turns: seq<Turn>)
    requires turns != []
    ensures Untroubled(turns) <==> Untroubled(turns[..|turns| - 1]) && !Trouble(turns, |turns| - 1)
  {
    var n := |turns| - 1;
    var init := turns[..n];
    forall d | 0 <= d < n
      ensures Trouble(init, d) == Trouble(turns, d)
    {
      TroubleSoFar(turns, d);
    }
    if Untroubled(init) && !Trouble(turns, n) {
      forall d | 0 <= d < |turns|
        ensures !Trouble(turns, d)
      {
        assert d < n ==> Trouble(init, d) == Trouble(turns, d);
      }
    }
  }

  lemma TurnMore(turns: seq<Turn>, turn: Turn, parse: Parser)
    ensures var all, first := turns + [turn], StillFirst(turns);
            && (StillFirst(all) <==> first && turn.ScanLost?)
            && (turn.Seen? ==>
                  && CursorOf(all) == Some(Advanced(CursorOf(turns), first, turn.look))
                  && Told(all, parse) == Told(turns, parse) + Found(CursorOf(turns), first, turn.look, parse))
            && (!turn.Seen? ==>
                  && CursorOf(all) == (if turn.NoneListed? then CursorOf(turns) else None)
                  && Told(all, parse) == Told(turns, parse))
  {
    var all := turns + [turn];
    assert all[..|turns|] == turns && all[|turns|] == turn;
    assert StillFirst(all) ==> StillFirst(turns) by {
      assert forall k :: 0 <= k < |turns| ==> all[k] == turns[k];
    }
  }

  /** All that was published is what was published before the cursor was dropped last, and a tail since. */
  lemma {:induction false} ToldInTails(turns: seq<Turn>, parse: Parser)
    ensures CursorOf(turns) == CursorAfter(Since(turns), SinceFirst(turns))
    ensures Told(turns, parse) == Earlier(turns, parse) + Published(Since(turns), SinceFirst(turns), parse)
    ensures Since(turns) != [] ==> !StillFirst(turns)
  {
    if turns != [] {
      var init, last := turns[..|turns| - 1], turns[|turns| - 1];
      ToldInTails(init, parse);
      assert turns == init + [last];
      TurnMore(init, last, parse);
      if last.Seen? {
        SeenInTails(turns, parse);
      } else {
        OtherInTails(turns, parse);
      }
    }
  }

  lemma OtherInTails(turns: seq<Turn>, parse: Parser)
    requires turns != [] && !turns[|turns| - 1].Seen?
    ensures var init := turns[..|turns| - 1];
            if Drops(turns[|turns| - 1]) then Since(turns) == [] && Earlier(turns, parse) == Told(init, parse)
            else
              && Since(turns) == Since(init) && SinceFirst(turns) == SinceFirst(init)
              && Earlier(turns, parse) == Earlier(init, parse)
  {
  }

  lemma SeenInTails(turns: seq<Turn>, parse: Parser)
    requires turns != [] && turns[|turns| - 1].Seen?
    requires var init := turns[..|turns| - 1];
             && CursorOf(init) == CursorAfter(Since(init), SinceFirst(init))
             && Told(init, parse) == Earlier(init, parse) + Published(Since(init), SinceFirst(init), parse)
             && (Since(init) != [] ==> !StillFirst(init))
    ensures CursorOf(turns) == CursorAfter(Since(turns), SinceFirst(turns))
    ensures Told(turns, parse) == Earlier(turns, parse) + Published(Since(turns), SinceFirst(turns), parse)
  {
    var init, look := turns[..|turns| - 1], turns[|turns| - 1].look;
    var looks, fromEnd := Since(init), SinceFirst(turns);
    assert Since(turns) == looks + [look];
    LookMore(looks, look, fromEnd, parse);
    assert CursorAfter(looks, fromEnd) == CursorOf(init);
    assert Published(looks, fromEnd, parse) == Published(looks, SinceFirst(init), parse);
    Regroup(Earlier(init, parse), Published(looks, fromEnd, parse),
            Found(CursorOf(init), StillFirst(init), look, parse));
  }

  lemma {:induction false} NoLooksTellNothing(turns: seq<Turn>, parse: Parser)
    requires forall k :: 0 <= k < |turns| ==> !turns[k].Seen?
    ensures Looks(turns) == [] && Since(turns) == [] && Told(turns, parse) == [] && Earlier(turns, parse) == []
  {
    if turns != [] {
      NoLooksTellNothing(turns[..|turns| - 1], parse);
    }
  }

  lemma {:induction false} LooksAreSeen(turns: seq<Turn>)
    ensures Looks(turns) == [] <==> forall k :: 0 <= k < |turns| ==> !turns[k].Seen?
  {
    if turns != [] {
      var n := |turns| - 1;
      LooksAreSeen(turns[..n]);
      assert forall k :: 0 <= k < n ==> turns[..n][k] == turns[k];
    }
  }

  /** Without trouble there is one tail, and it begins where the lab is to be read from. */
  lemma {:induction false} UntroubledIsOneTail(turns: seq<Turn>, parse: Parser)
    requires Untroubled(turns)
    ensures Since(turns) == Looks(turns) && Earlier(turns, parse) == []
    ensures Looks(turns) != [] ==> ToRead(turns) == Origin(Looks(turns), SinceFirst(turns))
  {
    if turns != [] {
      var n := |turns| - 1;
      var init := turns[..n];
      UntroubledMore(turns);
      UntroubledIsOneTail(init, parse);
      LooksAreSeen(init);
      assert forall k :: 0 <= k < n ==> init[k] == turns[k];
      if Drops(turns[n]) {
        NoLooksTellNothing(init, parse);
      } else if turns[n].Seen? {
        FirstLook(turns);
      } else if Looks(init) != [] {
        NoListNoLook(init);
      }
    }
  }

  lemma NoListNoLook(turns: seq<Turn>)
    requires Looks(turns) != []
    ensures !NoListYet(turns)
  {
    LooksAreSeen(turns);
    var k :| 0 <= k < |turns| && turns[k].Seen?;
    assert HasList(turns[k]);
  }

  /** A look that is not trouble is a later one, or begins the tail where the lab is to be read from. */
  lemma FirstLook(turns: seq<Turn>)
    requires turns != [] && turns[|turns| - 1].Seen? && !Trouble(turns, |turns| - 1)
    requires var init := turns[..|turns| - 1];
             && Since(init) == Looks(init)
             && (Looks(init) != [] ==> ToRead(init) == Origin(Looks(init), SinceFirst(init)))
    ensures ToRead(turns) == Origin(Looks(turns), SinceFirst(turns))
  {
    var n := |turns| - 1;
    var init := turns[..n];
    assert forall k :: 0 <= k < n ==> init[k] == turns[k];
    if Looks(init) != [] {
      NoListNoLook(init);
      assert Looks(turns)[0] == Looks(init)[0];
    } else {
      LooksAreSeen(init);
      if NoListYet(init) {
        assert StillFirst(init);
      } else {
        ListedBefore(init);
      }
    }
  }

  /** A list that lacks the lab comes first: it is to be read from its start, and no scan is a first one any more. */
  lemma {:induction false} ListedBefore(turns: seq<Turn>)
    requires Looks(turns) == [] && !NoListYet(turns)
    ensures ToRead(turns) == 0 && !StillFirst(turns)
  {
    LooksAreSeen(turns);
    var k :| 0 <= k < |turns| && HasList(turns[k]);
    assert !turns[k].ScanLost?;
    var n := |turns| - 1;
    if !NoListYet(turns[..n]) {
      ListedBefore(turns[..n]);
    }
  }

  /** With trouble, the tail since begins at the file's start. */
  lemma {:induction false} TroubledStartsAgain(turns: seq<Turn>, parse: Parser)
    requires !Untroubled(turns)
    ensures !StillFirst(turns) && (Since(turns) != [] ==> !SinceFirst(turns))
  {
    var n := |turns| - 1;
    var init := turns[..n];
    UntroubledMore(turns);
    assert forall k :: 0 <= k < n ==> init[k] == turns[k];
    if Untroubled(init) {
      if Drops(turns[n]) {
        var k :| 0 <= k < n && turns[k].Seen?;
        assert !turns[k].ScanLost?;
      } else {
        var k :| 0 <= k < n && turns[k].NoneListed?;
        assert !init[k].ScanLost?;
        NoLooksTellNothing(init, parse);
      }
    } else {
      TroubledStartsAgain(init, parse);
      var k :| 0 <= k < n && !init[k].ScanLost?;
      assert !turns[k].ScanLost?;
    }
  }

  lemma {:induction false} SinceIsASuffix(turns: seq<Turn>)
    ensures |Since(turns)| <= |Looks(turns)|
    ensures Since(turns) == Looks(turns)[|Looks(turns)| - |Since(turns)|..]
  {
    if turns != [] {
      SinceIsASuffix(turns[..|turns| - 1]);
    }
  }

  lemma SuffixGrows(looks: seq<Look>, i: nat)
    requires Growing(looks) && i <= |looks|
    ensures Growing(looks[i..])
  {
    var rest := looks[i..];
    assert forall k :: 0 <= k < |rest| ==> rest[k] == looks[i + k];
  }

  ghost predicate AtLineEnd(text: Bytes, o: nat) {
    o == 0 || (o <= |text| && text[o - 1] == NEWLINE)
  }

  lemma {:induction false} ConsumedAll(text: Bytes, i: nat)
    requires i <= |text| && (i < |text| ==> text[|text| - 1] == NEWLINE)
    ensures Consumed(text, i) == |text|
    decreases |text| - i
  {
    if i < |text| {
      ConsumedAll(text, AfterLine(text, i).value);
    }
  }

  /** The records before the end of a line, then those after it. */
  lemma RecordsSplit(text: Bytes, o: nat, parse: Parser)
    requires o <= |text| && AtLineEnd(text, o)
    ensures Records(text, 0, parse) == Records(text[..o], 0, parse) + Records(text, o, parse)
  {
    ConsumedAll(text[..o], 0);
    RecordsGrow(text[..o], text, 0, parse);
  }

  /** A turn whose read of the lab's file works. */
  predicate Reads(turn: Turn) {
    turn.Seen? && turn.look.ok
  }

  lemma LastIsLast(turns: seq<Turn>)
    requires turns != [] && turns[|turns| - 1].Seen?
    ensures Looks(turns) != [] && Looks(turns)[|Looks(turns)| - 1] == turns[|turns| - 1].look
    ensures Since(turns) != [] && Since(turns)[|Since(turns)| - 1] == turns[|turns| - 1].look
  {
  }

  lemma FirstFits(looks: seq<Look>)
    requires looks != [] && Growing(looks)
    ensures looks[0].len <= |looks[|looks| - 1].text|
  {
    assert |looks| > 1 ==> looks[0].text <= looks[|looks| - 1].text;
  }

  lemma ReadToTheEnd(looks: seq<Look>, fromEnd: bool, parse: Parser)
    requires looks != [] && Growing(looks) && looks[|looks| - 1].ok
    ensures Origin(looks, fromEnd) <= |looks[|looks| - 1].text|
    ensures Published(looks, fromEnd, parse) == Records(looks[|looks| - 1].text, Origin(looks, fromEnd), parse)
  {
    TailedExactlyOnce(looks, fromEnd, parse);
    assert LastRead(looks) == Some(looks[|looks| - 1].text);
  }

  /** At a read that works, the tail since the cursor was dropped last is the file's records from where it began. */
  lemma ToldSince(turns: seq<Turn>, parse: Parser)
    requires turns != [] && Reads(turns[|turns| - 1]) && Growing(Looks(turns))
    ensures var text, o := turns[|turns| - 1].look.text, Origin(Since(turns), SinceFirst(turns));
            o <= |text| && Told(turns, parse) == Earlier(turns, parse) + Records(text, o, parse)
  {
    LastIsLast(turns);
    SinceIsASuffix(turns);
    SuffixGrows(Looks(turns), |Looks(turns)| - |Since(turns)|);
    ToldInTails(turns, parse);
    ReadToTheEnd(Since(turns), SinceFirst(turns), parse);
  }

  lemma {:induction false} ToReadIsALength(turns: seq<Turn>)
    ensures ToRead(turns) == 0 || (Looks(turns) != [] && ToRead(turns) == Looks(turns)[0].len)
  {
    if turns != [] {
      var n := |turns| - 1;
      ToReadIsALength(turns[..n]);
      if NoListYet(turns[..n]) {
        assert forall k :: 0 <= k < n ==> !turns[..n][k].Seen? by {
          assert forall k :: 0 <= k < n ==> !HasList(turns[..n][k]);
        }
        LooksAreSeen(turns[..n]);
      }
    }
  }

  lemma ToReadFits(turns: seq<Turn>)
    requires turns != [] && turns[|turns| - 1].Seen? && Growing(Looks(turns))
    ensures ToRead(turns) <= |turns[|turns| - 1].look.text|
  {
    LastIsLast(turns);
    FirstFits(Looks(turns));
    ToReadIsALength(turns);
  }

  /**
   Any lab whose file only grows, at any read of it that works. Without trouble, what was
   published of it is the file's records from where it is to be read, each once and in
   order; with trouble, what was published before, and then the file's records from its
   start. When it is to be read from the end of a line, the first is what was published if
   and only if there was no trouble, or nothing was published before and there is no
   record below for the trouble to show.
   */
  lemma ToldOnceIff(turns: seq<Turn>, parse: Parser)
    requires turns != [] && Reads(turns[|turns| - 1]) && Growing(Looks(turns))
    ensures var o, text := ToRead(turns), turns[|turns| - 1].look.text;
            && o <= |text|
            && (Untroubled(turns) ==> Told(turns, parse) == Records(text, o, parse))
            && (!Untroubled(turns) ==> Told(turns, parse) == Earlier(turns, parse) + Records(text, 0, parse))
            && (AtLineEnd(text, o) ==>
                  (Told(turns, parse) == Records(text, o, parse) <==>
                   Untroubled(turns) || (Earlier(turns, parse) == [] && Records(text[..o], 0, parse) == [])))
  {
    var o, text := ToRead(turns), turns[|turns| - 1].look.text;
    ToReadFits(turns);
    ToldSince(turns, parse);
    LastIsLast(turns);
    if Untroubled(turns) {
      UntroubledIsOneTail(turns, parse);
    } else {
      TroubledStartsAgain(turns, parse);
      if AtLineEnd(text, o) {
        RecordsSplit(text, o, parse);
        MoreIsLonger(Earlier(turns, parse), Records(text[..o], 0, parse), Records(text, o, parse));
      }
    }
  }

  lemma MoreIsLonger(a: seq<string>, b: seq<string>, c: seq<string>)
    ensures a + (b + c) == c <==> a == [] && b == []
  {
    assert |a + (b + c)| == |a| + |b| + |c|;
    assert a == [] && b == [] ==> a + (b + c) == c;
  }

  // ---- the registry's loop

  /** What a turn of the loop brings: labs listed, with a look at each one's file; no list; or a scan that died. */
  datatype Event = Listed(labs: seq<(string, Look)>) | ListingFailed | Died

  datatype State = State(cursors: map<string, Cursor>, first: bool)

  const START := State(map[], true)

  function After(s: State, e: Event): State {
    match e
    case Listed(labs) => State(Visited(Kept(s.cursors, labs), s.first, labs), false)
    case ListingFailed => s.(first := false)
    case Died => s.(cursors := map[])
  }

  function NewsAt(s: State, e: Event, parse: Parser): seq<(string, seq<string>)> {
    if e.Listed? then News(Kept(s.cursors, e.labs), s.first, e.labs, parse) else []
  }

  function AfterAll(events: seq<Event>): State {
    if events == [] then START else After(AfterAll(events[..|events| - 1]), events[|events| - 1])
  }

  /** Everything published, scan after scan. */
  function Announced(events: seq<Event>, parse: Parser): seq<(string, seq<string>)> {
    if events == [] then []
    else
      var init := events[..|events| - 1];
      Announced(init, parse) + NewsAt(AfterAll(init), events[|events| - 1], parse)
  }

  class Scanner {
    var cursors: map<string, Cursor>
    var first: bool

    ghost function Now(): State
      reads this
    {
      State(cursors, first)
    }

    constructor ()
      ensures Now() == START
    {
      cursors, first := map[], true;
    }

    /** The loop: scan after scan, whatever each brings. */
    method Run(events: seq<Event>, parse: Parser) returns (published: seq<(string, seq<string>)>)
      requires Now() == START
      modifies this
      ensures Now() == AfterAll(events) && published == Announced(events, parse)
    {
      published := [];
      for i := 0 to |events|
        invariant Now() == AfterAll(events[..i]) && published == Announced(events[..i], parse)
      {
        assert events[..i + 1][..i] == events[..i];
        var news := Turn(events[i], parse);
        published := published + news;
      }
      assert events[..|events|] == events;
    }

    /** The cursors are taken into the scan and come back with it; a scan that dies keeps them. */
    method Turn(e: Event, parse: Parser) returns (news: seq<(string, seq<string>)>)
      modifies this
      ensures Now() == After(old(Now()), e) && news == NewsAt(old(Now()), e, parse)
    {
      news := [];
      match e {
        case Listed(labs) =>
          news := Scan(labs, parse);
          first := false;
        case ListingFailed => first := false;
        case Died => cursors := map[];
      }
    }

    /** A lab no longer listed loses its cursor, each listed one moves its own on, and what it found is news. */
    method Scan(labs: seq<(string, Look)>, parse: Parser) returns (events: seq<(string, seq<string>)>)
      modifies this`cursors
      ensures cursors == Visited(Kept(old(cursors), labs), first, labs)
      ensures events == News(Kept(old(cursors), labs), first, labs, parse)
    {
      cursors := Kept(cursors, labs);
      ghost var kept := cursors;
      events := [];
      for i := 0 to |labs|
        invariant cursors == Visited(kept, first, labs[..i])
        invariant events == News(kept, first, labs[..i], parse)
      {
        assert labs[..i + 1][..i] == labs[..i];
        var found := Visit(labs[i].0, labs[i].1, first, parse);
        if found != [] {
          events := events + [(labs[i].0, found)];
        }
      }
      assert labs[..|labs|] == labs;
    }

    /** One lab's file: its cursor (a first one when it has none) moved on. */
    method Visit(lab: string, look: Look, fromEnd: bool, parse: Parser) returns (found: seq<string>)
      modifies this`cursors
      ensures cursors == old(cursors)[lab := Advanced(Was(old(cursors), lab), fromEnd, look)]
      ensures found == Found(Was(old(cursors), lab), fromEnd, look, parse)
    {
      var c := if lab in cursors then cursors[lab] else Cursor(look.ino, if fromEnd then look.len else 0);
      if c.ino != look.ino {
        c := Cursor(look.ino, 0);
      }
      found, c := MoveOn(c, look, parse);
      cursors := cursors[lab := c];
    }
  }

  /** A read that works takes the cursor on; one that does not leaves it. */
  method MoveOn(c: Cursor, look: Look, parse: Parser) returns (found: seq<string>, moved: Cursor)
    ensures found == if look.ok then Records(look.text, From(c, look), parse) else []
    ensures moved == if look.ok then c.(offset := Consumed(look.text, From(c, look))) else c
  {
    found, moved := [], c;
    if look.ok {
      var next;
      found, next := ReadEvents(look.text, c.offset, parse);
      moved := c.(offset := next);
    }
  }

  function Was(cursors: map<string, Cursor>, lab: string): Option<Cursor> {
    if lab in cursors then Some(cursors[lab]) else None
  }

  function Kept(cursors: map<string, Cursor>, labs: seq<(string, Look)>): map<string, Cursor> {
    map lab | lab in cursors && lab in (set i | 0 <= i < |labs| :: labs[i].0) :: cursors[lab]
  }

  /** The cursors after the labs of a scan were visited in turn. */
  function Visited(cursors: map<string, Cursor>, fromEnd: bool, labs: seq<(string, Look)>): map<string, Cursor> {
    if labs == [] then cursors
    else
      var m := Visited(cursors, fromEnd, labs[..|labs| - 1]);
      var (lab, look) := labs[|labs| - 1];
      m[lab := Advanced(Was(m, lab), fromEnd, look)]
  }

  /** The labs that have news, with them, in turn. */
  function News(cursors: map<string, Cursor>, fromEnd: bool, labs: seq<(string, Look)>, parse: Parser)
    : seq<(string, seq<string>)>
  {
    if labs == [] then []
    else
      var init := labs[..|labs| - 1];
      var (lab, look) := labs[|labs| - 1];
      var found := Found(Was(Visited(cursors, fromEnd, init), lab), fromEnd, look, parse);
      News(cursors, fromEnd, init, parse) + (if found == [] then [] else [(lab, found)])
  }

  /** What some news say of one lab, in turn. */
  function OfLab(news: seq<(string, seq<string>)>, lab: string): seq<string> {
    if news == [] then []
    else
      OfLab(news[..|news| - 1], lab) + if news[|news| - 1].0 == lab then news[|news| - 1].1 else []
  }

  lemma {:induction false} OfLabJoins(a: seq<(string, seq<string>)>, b: seq<(string, seq<string>)>, lab: string)
    ensures OfLab(a + b, lab) == OfLab(a, lab) + OfLab(b, lab)
  {
    if b == [] {
      assert a + b == a;
    } else {
      var n := |b| - 1;
      OfLabJoins(a, b[..n], lab);
      assert (a + b)[..|a + b| - 1] == a + b[..n] && (a + b)[|a + b| - 1] == b[n];
      Regroup(OfLab(a, lab), OfLab(b[..n], lab), if b[n].0 == lab then b[n].1 else []);
    }
  }

  lemma {:induction false} NotVisited(
      cursors: map<string, Cursor>, fromEnd: bool, labs: seq<(string, Look)>, parse: Parser, lab: string)
    requires forall i :: 0 <= i < |labs| ==> labs[i].0 != lab
    ensures Was(Visited(cursors, fromEnd, labs), lab) == Was(cursors, lab)
    ensures forall x :: (lab, x) !in News(cursors, fromEnd, labs, parse)
    ensures OfLab(News(cursors, fromEnd, labs, parse), lab) == []
  {
    if labs != [] {
      NotVisited(cursors, fromEnd, labs[..|labs| - 1], parse, lab);
      VisitMore(cursors, fromEnd, labs, parse, lab);
    }
  }

  lemma NewsGrow(news: seq<(string, seq<string>)>, of: string, found: seq<string>, lab: string)
    ensures var all := news + (if found == [] then [] else [(of, found)]);
            && OfLab(all, lab) == OfLab(news, lab) + (if of == lab then found else [])
            && (forall x :: (lab, x) in all <==> (lab, x) in news || (of == lab && x == found && x != []))
  {
    if found == [] {
      assert news + [] == news;
    } else {
      assert (news + [(of, found)])[..|news|] == news;
    }
  }

  ghost predicate DistinctLabs(labs: seq<(string, Look)>) {
    forall a, b :: 0 <= a < b < |labs| ==> labs[a].0 != labs[b].0
  }

  /** The lab's cursor moves on as if it were alone; the news of it are what it found, once, and nothing else. */
  ghost predicate Alone(
    m: map<string, Cursor>, was: Option<Cursor>, fromEnd: bool, labs: seq<(string, Look)>, parse: Parser,
    lab: string, look: Look)
  {
    var news, found := News(m, fromEnd, labs, parse), Found(was, fromEnd, look, parse);
    && Was(Visited(m, fromEnd, labs), lab) == Some(Advanced(was, fromEnd, look))
    && OfLab(news, lab) == found
    && forall x :: (lab, x) in news <==> x != [] && x == found
  }

  /** In a scan of distinct labs each one is visited as if it were alone, from the cursor it had. */
  lemma EachLabAlone(
      cursors: map<string, Cursor>, fromEnd: bool, labs: seq<(string, Look)>, parse: Parser, i: nat)
    requires DistinctLabs(labs) && i < |labs|
    ensures Alone(Kept(cursors, labs), Was(cursors, labs[i].0), fromEnd, labs, parse, labs[i].0, labs[i].1)
  {
    assert labs[i].0 in (set k | 0 <= k < |labs| :: labs[k].0);
    assert Was(Kept(cursors, labs), labs[i].0) == Was(cursors, labs[i].0);
    VisitedAlone(Kept(cursors, labs), fromEnd, labs, parse, i);
  }

  lemma VisitMore(m: map<string, Cursor>, fromEnd: bool, labs: seq<(string, Look)>, parse: Parser, lab: string)
    requires labs != []
    ensures var init, of, look := labs[..|labs| - 1], labs[|labs| - 1].0, labs[|labs| - 1].1;
            var was, cursor := Visited(m, fromEnd, init), Was(Visited(m, fromEnd, init), of);
            var found, before := Found(cursor, fromEnd, look, parse), News(m, fromEnd, init, parse);
            && Was(Visited(m, fromEnd, labs), lab) ==
               (if lab == of then Some(Advanced(cursor, fromEnd, look)) else Was(was, lab))
            && OfLab(News(m, fromEnd, labs, parse), lab) == OfLab(before, lab) + (if of == lab then found else [])
            && (forall x :: (lab, x) in News(m, fromEnd, labs, parse) <==>
                  (lab, x) in before || (of == lab && x == found && x != []))
  {
    var init, of, look := labs[..|labs| - 1], labs[|labs| - 1].0, labs[|labs| - 1].1;
    var found := Found(Was(Visited(m, fromEnd, init), of), fromEnd, look, parse);
    NewsGrow(News(m, fromEnd, init, parse), of, found, lab);
  }

  lemma VisitedBefore(
      m: map<string, Cursor>, fromEnd: bool, labs: seq<(string, Look)>, parse: Parser, lab: string, look: Look)
    requires labs != [] && labs[|labs| - 1].0 != lab
    requires Alone(m, Was(m, lab), fromEnd, labs[..|labs| - 1], parse, lab, look)
    ensures Alone(m, Was(m, lab), fromEnd, labs, parse, lab, look)
  {
    VisitMore(m, fromEnd, labs, parse, lab);
  }

  lemma VisitedLast(m: map<string, Cursor>, fromEnd: bool, labs: seq<(string, Look)>, parse: Parser)
    requires labs != [] && DistinctLabs(labs)
    ensures Alone(m, Was(m, labs[|labs| - 1].0), fromEnd, labs, parse, labs[|labs| - 1].0, labs[|labs| - 1].1)
  {
    var n := |labs| - 1;
    var lab, look, init := labs[n].0, labs[n].1, labs[..n];
    NotVisited(m, fromEnd, init, parse, lab);
    VisitMore(m, fromEnd, labs, parse, lab);
    var found := Found(Was(m, lab), fromEnd, look, parse);
    assert OfLab(News(m, fromEnd, labs, parse), lab) == [] + found == found;
  }

  lemma {:induction false} VisitedAlone(
      m: map<string, Cursor>, fromEnd: bool, labs: seq<(string, Look)>, parse: Parser, i: nat)
    requires DistinctLabs(labs) && i < |labs|
    ensures Alone(m, Was(m, labs[i].0), fromEnd, labs, parse, labs[i].0, labs[i].1)
  {
    var n := |labs| - 1;
    if i < n {
      VisitedAlone(m, fromEnd, labs[..n], parse, i);
      VisitedBefore(m, fromEnd, labs, parse, labs[i].0, labs[i].1);
    } else {
      VisitedLast(m, fromEnd, labs, parse);
    }
  }

  // ---- one lab of the whole run

  /** No list has a lab twice. */
  ghost predicate EachOnce(events: seq<Event>) {
    forall k :: 0 <= k < |events| && events[k].Listed? ==> DistinctLabs(events[k].labs)
  }

  function LookAt(labs: seq<(string, Look)>, lab: string): (r: Option<Look>)
    ensures r.None? <==> forall i :: 0 <= i < |labs| ==> labs[i].0 != lab
  {
    if labs == [] then None
    else if labs[0].0 == lab then Some(labs[0].1)
    else
      assert forall i :: 0 < i < |labs| ==> labs[i] == labs[1..][i - 1];
      LookAt(labs[1..], lab)
  }

  function TurnOf(e: Event, lab: string): Turn {
    match e
    case Listed(labs) =>
      var look := LookAt(labs, lab);
      if look.Some? then Seen(look.value) else Absent
    case ListingFailed => NoneListed
    case Died => ScanLost
  }

  function TurnsOf(events: seq<Event>, lab: string): seq<Turn> {
    seq(|events|, k requires 0 <= k < |events| => TurnOf(events[k], lab))
  }

  lemma {:induction false} LookIsTheLabs(labs: seq<(string, Look)>, i: nat)
    requires DistinctLabs(labs) && i < |labs|
    ensures LookAt(labs, labs[i].0) == Some(labs[i].1)
  {
    if i > 0 {
      assert labs[1..][i - 1] == labs[i];
      LookIsTheLabs(labs[1..], i - 1);
    }
  }

  /** A turn of the loop is the lab's own turn. */
  lemma OneTurn(s: State, e: Event, lab: string, parse: Parser)
    requires e.Listed? ==> DistinctLabs(e.labs)
    ensures var was, turn := Was(s.cursors, lab), TurnOf(e, lab);
            && (turn.Seen? ==>
                  && Was(After(s, e).cursors, lab) == Some(Advanced(was, s.first, turn.look))
                  && OfLab(NewsAt(s, e, parse), lab) == Found(was, s.first, turn.look, parse))
            && (!turn.Seen? ==>
                  && Was(After(s, e).cursors, lab) == (if turn.NoneListed? then was else None)
                  && OfLab(NewsAt(s, e, parse), lab) == [])
            && (After(s, e).first <==> s.first && turn.ScanLost?)
  {
    if e.Listed? {
      if LookAt(e.labs, lab).Some? {
        var i :| 0 <= i < |e.labs| && e.labs[i].0 == lab;
        EachLabAlone(s.cursors, s.first, e.labs, parse, i);
        LookIsTheLabs(e.labs, i);
      } else {
        NotVisited(Kept(s.cursors, e.labs), s.first, e.labs, parse, lab);
      }
    }
  }

  /** The lab's own turns, the state of the loop and what was published agree about the lab. */
  ghost predicate Agree(s: State, published: seq<string>, turns: seq<Turn>, lab: string, parse: Parser) {
    && Was(s.cursors, lab) == CursorOf(turns)
    && s.first == StillFirst(turns)
    && published == Told(turns, parse)
  }

  lemma TurnAgrees(s: State, news: seq<(string, seq<string>)>, turns: seq<Turn>, e: Event, lab: string, parse: Parser)
    requires Agree(s, OfLab(news, lab), turns, lab, parse)
    requires e.Listed? ==> DistinctLabs(e.labs)
    ensures Agree(After(s, e), OfLab(news + NewsAt(s, e, parse), lab), turns + [TurnOf(e, lab)], lab, parse)
  {
    OneTurn(s, e, lab, parse);
    TurnMore(turns, TurnOf(e, lab), parse);
    OfLabJoins(news, NewsAt(s, e, parse), lab);
  }

  lemma TurnsMore(events: seq<Event>, lab: string)
    requires events != []
    ensures TurnsOf(events, lab) == TurnsOf(events[..|events| - 1], lab) + [TurnOf(events[|events| - 1], lab)]
  {
  }

  /** Over every run of the loop, what is published of any lab is what its own turns tell. */
  lemma {:induction false} OneLabOfTheRun(events: seq<Event>, lab: string, parse: Parser)
    requires EachOnce(events)
    ensures Agree(AfterAll(events), OfLab(Announced(events, parse), lab), TurnsOf(events, lab), lab, parse)
  {
    if events == [] {
      assert TurnsOf(events, lab) == [];
    } else {
      var n := |events| - 1;
      var init, e := events[..n], events[n];
      OneLabOfTheRun(init, lab, parse);
      TurnAgrees(AfterAll(init), Announced(init, parse), TurnsOf(init, lab), e, lab, parse);
      TurnsMore(events, lab);
    }
  }

  /** A scan that listed the lab and whose read of its file worked. */
  predicate ReadsLab(e: Event, lab: string) {
    e.Listed? && LookAt(e.labs, lab).Some? && LookAt(e.labs, lab).value.ok
  }

  /**
   Exactly-once tailing of any lab over every run of the registry's loop, and exactly when
   it fails: see `ToldOnceIff`.
   */
  lemma PublishedOnceIff(events: seq<Event>, lab: string, parse: Parser)
    requires EachOnce(events) && events != [] && ReadsLab(events[|events| - 1], lab)
    requires Growing(Looks(TurnsOf(events, lab)))
    ensures var turns, text := TurnsOf(events, lab), LookAt(events[|events| - 1].labs, lab).value.text;
            var published, o := OfLab(Announced(events, parse), lab), ToRead(turns);
            && o <= |text|
            && (Untroubled(turns) ==> published == Records(text, o, parse))
            && (!Untroubled(turns) ==> published == Earlier(turns, parse) + Records(text, 0, parse))
            && (AtLineEnd(text, o) ==>
                  (published == Records(text, o, parse) <==>
                   Untroubled(turns) || (Earlier(turns, parse) == [] && Records(text[..o], 0, parse) == [])))
  {
    OneLabOfTheRun(events, lab, parse);
    ToldOnceIff(TurnsOf(events, lab), parse);
  }

  /**
   A lab deployed after the first list came, over every run in which each list since its
   first has it and no scan died since: its file is published from its start, each record once.
   */
  lemma NewLabFromItsStart(events: seq<Event>, lab: string, parse: Parser, d: nat)
    requires EachOnce(events) && events != [] && ReadsLab(events[|events| - 1], lab)
    requires Growing(Looks(TurnsOf(events, lab)))
    requires d < |events| && TurnOf(events[d], lab).Absent?
    requires forall k :: 0 <= k < d ==> !TurnOf(events[k], lab).Seen?
    requires forall j, k :: 0 <= j < k < |events| && TurnOf(events[j], lab).Seen? ==> !Drops(TurnOf(events[k], lab))
    ensures OfLab(Announced(events, parse), lab) ==
            Records(LookAt(events[|events| - 1].labs, lab).value.text, 0, parse)
  {
    var turns := TurnsOf(events, lab);
    LackedIsFromTheStart(turns, d);
    assert Untroubled(turns) by {
      forall k | 0 <= k < |turns|
        ensures !Trouble(turns, k)
      {
        assert k > d ==> HasList(turns[d]);
      }
    }
    PublishedOnceIff(events, lab, parse);
  }

  lemma {:induction false} LackedIsFromTheStart(turns: seq<Turn>, d: nat)
    requires d < |turns| && turns[d].Absent? && forall k :: 0 <= k < d ==> !turns[k].Seen?
    ensures ToRead(turns) == 0
  {
    var n := |turns| - 1;
    var init := turns[..n];
    if d < n {
      assert HasList(init[d]);
      LackedIsFromTheStart(init, d);
    } else if !NoListYet(init) {
      var k :| 0 <= k < n && HasList(init[k]);
      LackedIsFromTheStart(init, k);
    }
  }

  // ---- the runs in which it fails

  lemma ToldTwice(look: Look, turn: Turn, parse: Parser)
    requires look.ok && look.len <= |look.text| && Drops(turn)
    ensures Told([Seen(look), turn, Seen(look)], parse) ==
            Records(look.text, look.len, parse) + Records(look.text, 0, parse)
  {
    var two := [Seen(look), turn];
    assert two + [Seen(look)] == [Seen(look), turn, Seen(look)];
    ToldThenDropped(look, turn, parse);
    TurnMore(two, Seen(look), parse);
  }

  lemma ToldThenDropped(look: Look, turn: Turn, parse: Parser)
    requires look.ok && look.len <= |look.text| && Drops(turn)
    ensures var turns := [Seen(look), turn];
            CursorOf(turns) == None && !StillFirst(turns) && Told(turns, parse) == Records(look.text, look.len, parse)
  {
    var one := [] + [Seen(look)];
    assert one + [turn] == [Seen(look), turn];
    TurnMore([], Seen(look), parse);
    TurnMore(one, turn, parse);
  }

  lemma ToldWhole(look: Look, parse: Parser)
    requires look.ok
    ensures Told([NoneListed, Seen(look)], parse) == Records(look.text, 0, parse)
  {
    var one := [] + [NoneListed];
    assert one + [Seen(look)] == [NoneListed, Seen(look)];
    TurnMore([], NoneListed, parse);
    TurnMore(one, Seen(look), parse);
    assert Told(one, parse) == [];
  }

  /** The first scan cannot list the labs, and the next one can. */
  function FailedFirst(lab: string, look: Look): seq<Event> {
    [ListingFailed, Listed([(lab, look)])]
  }

  /** A scan dies, or a list misses the lab (its state could not be read), between two that list it. */
  function MissedBetween(lab: string, look: Look, dies: bool): seq<Event> {
    [Listed([(lab, look)]), if dies then Died else Listed([]), Listed([(lab, look)])]
  }

  lemma TheirTurns(lab: string, look: Look, dies: bool)
    ensures EachOnce(FailedFirst(lab, look)) && EachOnce(MissedBetween(lab, look, dies))
    ensures TurnsOf(FailedFirst(lab, look), lab) == [NoneListed, Seen(look)]
    ensures TurnsOf(MissedBetween(lab, look, dies), lab) == [Seen(look), if dies then ScanLost else Absent, Seen(look)]
  {
    assert LookAt([(lab, look)], lab) == Some(look);
    assert TurnOf(Listed([]), lab) == Absent;
  }

  /**
   Tailing does not survive them: a lab's whole file is published though it is older than
   the daemon, or again from its start.
   */
  lemma PublishedAgain(lab: string, look: Look, dies: bool, parse: Parser)
    requires look.ok && look.len <= |look.text|
    ensures OfLab(Announced(FailedFirst(lab, look), parse), lab) == Records(look.text, 0, parse)
    ensures OfLab(Announced(MissedBetween(lab, look, dies), parse), lab) ==
            Records(look.text, look.len, parse) + Records(look.text, 0, parse)
  {
    TheirTurns(lab, look, dies);
    OneLabOfTheRun(FailedFirst(lab, look), lab, parse);
    OneLabOfTheRun(MissedBetween(lab, look, dies), lab, parse);
    ToldWhole(look, parse);
    ToldTwice(look, if dies then ScanLost else Absent, parse);
  }
}
