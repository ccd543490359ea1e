/**
 A session's output (`bins/gui/src/session.rs`): text comes in chunks on two streams, whole
 lines are kept up to a bound, and what is not ended yet is held.
 */
module Session {
  import opened Prelude

  /** Lines a session keeps. */
  const LINES := 2000

  datatype Stream = Out | Err | Note
  datatype Line = Line(stream: Stream, text: string)
  datatype Status = Running | Ended(how: string, ok: bool)

  // ---- what a stream's text means

  /** The lines a text ends, after what was held before it. */
  function LinesOf(held: string, text: string): seq<string> {
    if text == [] then []
    else
      var init := text[..|text| - 1];
      LinesOf(held, init) + (if text[|text| - 1] == '\n' then [HeldOf(held, init)] else [])
  }

  /** What is held after a text: all since its last newline or carriage return, or after what was held before. */
  function HeldOf(held: string, text: string): string {
    if text == [] then held
    else
      var c := text[|text| - 1];
      if c == '\n' || c == '\r' then [] else HeldOf(held, text[..|text| - 1]) + [c]
  }

  lemma {:induction false} ChunksJoin(held: string, a: string, b: string)
    ensures LinesOf(held, a + b) == LinesOf(held, a) + LinesOf(HeldOf(held, a), b)
    ensures HeldOf(held, a + b) == HeldOf(HeldOf(held, a), b)
  {
    if b == [] {
      assert a + b == a;
    } else {
      ChunksJoin(held, a, b[..|b| - 1]);
      assert (a + b)[..|a + b| - 1] == a + b[..|b| - 1];
    }
  }

  /** Text without newlines and carriage returns is added to what is held, and ends no line. */
  lemma {:induction false} PlainIsHeld(held: string, text: string)
    requires '\n' !in text && '\r' !in text
    ensures LinesOf(held, text) == [] && HeldOf(held, text) == held + text
  {
    if text != [] {
      PlainIsHeld(held, text[..|text| - 1]);
      assert text == text[..|text| - 1] + [text[|text| - 1]];
    }
  }

  /** A carriage return discards what is held, and a newline makes it a line. */
  lemma ReturnAndNewline(held: string, text: string)
    requires '\n' !in text && '\r' !in text
    ensures LinesOf(held, text + "\r") == [] && HeldOf(held, text + "\r") == ""
    ensures LinesOf(held, text + "\n") == [held + text] && HeldOf(held, text + "\n") == ""
  {
    PlainIsHeld(held, text);
    assert (text + "\r")[..|text|] == text && (text + "\n")[..|text|] == text;
  }

  function Tagged(stream: Stream, ts: seq<string>): seq<Line> {
    seq(|ts|, i requires 0 <= i < |ts| => Line(stream, ts[i]))
  }

  function LastLines(history: seq<Line>): seq<Line> {
    if |history| <= LINES then history else history[|history| - LINES..]
  }

  function Slot(stream: Stream): nat {
    if stream.Err? then 1 else 0
  }

  class Session {
    var state: Status
    var lines: seq<Line>
    var partial: seq<string>
    ghost var history: seq<Line>

    /** The kept lines are the last of all there were. */
    ghost predicate Valid()
      reads this
    {
      |partial| == 2 && lines == LastLines(history)
    }

    constructor (start: string)
      ensures Valid() && history == [Line(Note, start)] && partial == ["", ""] && state == Running
    {
      state, lines, partial, history := Running, [Line(Note, start)], ["", ""], [Line(Note, start)];
    }

    method Push(stream: Stream, text: string)
      requires Valid()
      modifies this`lines, this`history
      ensures Valid() && history == old(history) + [Line(stream, text)]
    {
      ghost var k := |history| - |lines|;
      lines := lines + [Line(stream, text)];
      history := history + [Line(stream, text)];
      assert old(history)[k..] + [Line(stream, text)] == history[k..];
      while |lines| > LINES
        invariant history == old(history) + [Line(stream, text)]
        invariant 0 <= k <= |history| && lines == history[k..] && (k > 0 ==> |lines| >= LINES)
        decreases |lines|
      {
        assert lines[1..] == history[k + 1..];
        lines, k := lines[1..], k + 1;
      }
    }

    /** Output as it came: the lines it ends are kept, the rest is held; the other stream's is left alone. */
    method Output(stream: Stream, text: string)
      requires Valid()
      modifies this`lines, this`partial, this`history
      ensures Valid() && state == old(state)
      ensures history == old(history) + Tagged(stream, LinesOf(old(partial)[Slot(stream)], text))
      ensures partial == old(partial)[Slot(stream) := HeldOf(old(partial)[Slot(stream)], text)]
    {
      var i := Slot(stream);
      var held := partial[i];
      ghost var was := held;
      for k := 0 to |text|
        invariant Valid() && partial == old(partial)
        invariant history == old(history) + Tagged(stream, LinesOf(was, text[..k]))
        invariant held == HeldOf(was, text[..k])
      {
        assert text[..k + 1][..k] == text[..k];
        var c := text[k];
        if c == '\n' {
          Push(stream, held);
          held := [];
        } else if c == '\r' {
          held := [];
        } else {
          held := held + [c];
        }
      }
      assert text[..|text|] == text;
      partial := partial[i := held];
    }

    /** Nothing is held any more: each stream's rest has become a line, and a note follows them. */
    method End(how: string, ok: bool)
      requires Valid()
      modifies this
      ensures Valid() && state == Ended(how, ok) && partial == ["", ""]
      ensures history == old(history) + HeldLines(old(partial)) + [Line(Note, how)]
    {
      var o, e := partial[0], partial[1];
      partial := ["", ""];
      if o != "" {
        Push(Out, o);
      }
      if e != "" {
        Push(Err, e);
      }
      Push(Note, how);
      state := Ended(how, ok);
    }

    /** The last lines of the history, then what each stream holds. */
    method Shown() returns (all: seq<Line>)
      requires Valid()
      ensures all == LastLines(history) + HeldLines(partial)
    {
      all := lines;
      if partial[0] != "" {
        all := all + [Line(Out, partial[0])];
      }
      if partial[1] != "" {
        all := all + [Line(Err, partial[1])];
      }
    }
  }

  function HeldLines(partial: seq<string>): seq<Line>
    requires |partial| == 2
  {
    (if partial[0] != "" then [Line(Out, partial[0])] else []) +
    (if partial[1] != "" then [Line(Err, partial[1])] else [])
  }

  /** What a stream holds is shown as a line of that stream, unless it is nothing. */
  lemma HeldIsShown(partial: seq<string>, stream: Stream, text: string)
    requires |partial| == 2 && !stream.Note?
    ensures Line(stream, text) in HeldLines(partial) <==> text != "" && text == partial[Slot(stream)]
    ensures |HeldLines(partial)| == (if partial[0] == "" then 0 else 1) + (if partial[1] == "" then 0 else 1)
  {
  }

  // ---- chunks of both streams, in any order

  /** A session's lines without the bound, and what each stream holds. */
  datatype State = State(history: seq<Line>, held: seq<string>)

  datatype Chunk = Chunk(stream: Stream, text: string)

  function Fed(s: State, c: Chunk): State
    requires |s.held| == 2
  {
    var i := Slot(c.stream);
    State(s.history + Tagged(c.stream, LinesOf(s.held[i], c.text)), s.held[i := HeldOf(s.held[i], c.text)])
  }

  function FedAll(s: State, cs: seq<Chunk>): (t: State)
    requires |s.held| == 2
    ensures |t.held| == 2
  {
    if cs == [] then s else Fed(FedAll(s, cs[..|cs| - 1]), cs[|cs| - 1])
  }

  function TextOf(cs: seq<Chunk>, stream: Stream): string {
    if cs == [] then ""
    else TextOf(cs[..|cs| - 1], stream) + (if cs[|cs| - 1].stream == stream then cs[|cs| - 1].text else "")
  }

  function LinesIn(history: seq<Line>, stream: Stream): seq<string> {
    if history == [] then []
    else
      LinesIn(history[..|history| - 1], stream) +
      (if history[|history| - 1].stream == stream then [history[|history| - 1].text] else [])
  }

  lemma {:induction false} LinesInTagged(h: seq<Line>, stream: Stream, ts: seq<string>, of: Stream)
    ensures LinesIn(h + Tagged(stream, ts), of) == LinesIn(h, of) + (if stream == of then ts else [])
  {
    if ts == [] {
      assert h + Tagged(stream, ts) == h;
    } else {
      var init, last := ts[..|ts| - 1], ts[|ts| - 1];
      LinesInTagged(h, stream, init, of);
      var all := h + Tagged(stream, ts);
      assert all[..|all| - 1] == h + Tagged(stream, init) && all[|all| - 1] == Line(stream, last);
      assert ts == init + [last];
      assert LinesIn(all, of) == LinesIn(h + Tagged(stream, init), of) + (if stream == of then [last] else []);
      if stream == of {
        Regroup(LinesIn(h, of), init, [last]);
      } else {
        assert LinesIn(all, of) == LinesIn(h, of) + [] + [] == LinesIn(h, of) + [];
      }
    }
  }

  /** A split of a chunk changes nothing. */
  lemma SplitChunk(s: State, stream: Stream, a: string, b: string)
    requires |s.held| == 2
    ensures Fed(Fed(s, Chunk(stream, a)), Chunk(stream, b)) == Fed(s, Chunk(stream, a + b))
  {
    var i := Slot(stream);
    ChunksJoin(s.held[i], a, b);
    var x, y := LinesOf(s.held[i], a), LinesOf(HeldOf(s.held[i], a), b);
    assert Tagged(stream, x + y) == Tagged(stream, x) + Tagged(stream, y);
    Regroup(s.history, Tagged(stream, x), Tagged(stream, y));
  }

  /** A chunk adds to its own stream's lines and held text, and to no other's. */
  lemma FedStream(s: State, c: Chunk, stream: Stream)
    requires |s.held| == 2 && !c.stream.Note? && !stream.Note?
    ensures var i := Slot(stream);
            var t := Fed(s, c);
            if c.stream == stream then
              && LinesIn(t.history, stream) == LinesIn(s.history, stream) + LinesOf(s.held[i], c.text)
              && t.held[i] == HeldOf(s.held[i], c.text)
            else LinesIn(t.history, stream) == LinesIn(s.history, stream) && t.held[i] == s.held[i]
  {
    LinesInTagged(s.history, c.stream, LinesOf(s.held[Slot(c.stream)], c.text), stream);
  }

  /**
   Each stream's lines and what it holds depend on its own text only, whatever chunks it
   came in and however the two streams interleave.
   */
  lemma {:induction false} StreamsAreIndependent(h: seq<Line>, cs: seq<Chunk>, stream: Stream)
    requires forall i :: 0 <= i < |cs| ==> !cs[i].stream.Note?
    requires !stream.Note?
    ensures var t := FedAll(State(h, ["", ""]), cs);
            && LinesIn(t.history, stream) == LinesIn(h, stream) + LinesOf("", TextOf(cs, stream))
            && t.held[Slot(stream)] == HeldOf("", TextOf(cs, stream))
  {
    if cs != [] {
      var init, c := cs[..|cs| - 1], cs[|cs| - 1];
      StreamsAreIndependent(h, init, stream);
      var s := FedAll(State(h, ["", ""]), init);
      FedStream(s, c, stream);
      assert FedAll(State(h, ["", ""]), cs) == Fed(s, c);
      var before := TextOf(init, stream);
      if c.stream == stream {
        ChunksJoin("", before, c.text);
        Regroup(LinesIn(h, stream), LinesOf("", before), LinesOf(HeldOf("", before), c.text));
      } else {
        assert TextOf(cs, stream) == TextOf(init, stream);
      }
    }
  }

  // ---- nothing of a text is lost

  function Joined(ts: seq<string>, held: string): string {
    if ts == [] then held else ts[0] + "\n" + Joined(ts[1..], held)
  }

  lemma {:induction false} JoinedMore(ts: seq<string>, t: string, held: string)
    ensures Joined(ts + [t], held) == Joined(ts, t + "\n" + held)
  {
    if ts != [] {
      assert (ts + [t])[1..] == ts[1..] + [t];
      JoinedMore(ts[1..], t, held);
    } else {
      assert ([] + [t])[1..] == [];
    }
  }

  lemma {:induction false} JoinedLonger(ts: seq<string>, held: string, c: char)
    ensures Joined(ts, held + [c]) == Joined(ts, held) + [c]
  {
    if ts != [] {
      JoinedLonger(ts[1..], held, c);
    }
  }

  /** Text without carriage returns comes back: its lines joined, with what is held. */
  lemma {:induction false} TextComesBack(text: string)
    requires '\r' !in text
    ensures Joined(LinesOf("", text), HeldOf("", text)) == text
  {
    if text != [] {
      var init, c := text[..|text| - 1], text[|text| - 1];
      TextComesBack(init);
      assert text == init + [c] && c in text;
      var ts, held := LinesOf("", init), HeldOf("", init);
      if c == '\n' {
        JoinedMore(ts, held, "");
        assert held + "\n" + "" == held + ['\n'];
        JoinedLonger(ts, held, '\n');
      } else {
        JoinedLonger(ts, held, c);
        assert LinesOf("", text) == ts && HeldOf("", text) == held + [c];
      }
    }
  }
}
