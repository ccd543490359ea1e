/**
 The NLL highlighter (`bins/gui/src/highlight.rs`): `classes` is an automaton over a line
 that may begin inside nested comments, and `Nll` keeps the nesting at each line, so that
 an edit re-highlights from its first changed line only. Lines are their UTF-8 bytes, as
 the source's ranges are.
 */
module Highlight {
  import opened Prelude

  type Byte = b: int | 0 <= b < 256
  type Line = seq<Byte>

  const SLASH: Byte := 47
  const STAR: Byte := 42
  const QUOTE: Byte := 34
  const HASH: Byte := 35

  predicate Continuation(b: Byte) {
    128 <= b < 192
  }

  /** Where the line may be sliced: not inside a character. */
  predicate Boundary(line: Line, i: int) {
    i == |line| || (0 <= i < |line| && !Continuation(line[i]))
  }

  /** What every UTF-8 text meets: no character starts with, and no ASCII byte is followed by, a continuation. */
  ghost predicate IsText(line: Line) {
    && Boundary(line, 0)
    && forall i :: 0 < i < |line| && line[i - 1] < 128 ==> !Continuation(line[i])
  }

  /** `line[i..].starts_with(two)`; slicing inside a character would panic. */
  predicate At(line: Line, i: nat, a: Byte, b: Byte)
    requires Boundary(line, i)
  {
    i + 1 < |line| && line[i] == a && line[i + 1] == b
  }

  predicate AtOne(line: Line, i: nat, a: Byte)
    requires Boundary(line, i)
  {
    i < |line| && line[i] == a
  }

  /** Where the character at `i` ends. */
  function CharEnd(line: Line, i: nat): (j: nat)
    requires i < |line|
    ensures i < j <= |line| && Boundary(line, j)
    ensures forall k :: i < k < j ==> Continuation(line[k])
    decreases |line| - i
  {
    if Boundary(line, i + 1) then i + 1 else CharEnd(line, i + 1)
  }

  // ---- the reference: an automaton over the bytes of a line

  datatype Mode = Code | InText | Block(depth: nat)
  datatype Kind = CodeKind | TextKind | CommentKind

  function Fill(n: nat, kind: Kind): seq<Kind> {
    seq(n, _ => kind)
  }

  predicate Starts(line: Line, i: nat, a: Byte, b: Byte) {
    i + 1 < |line| && line[i] == a && line[i + 1] == b
  }

  /** The kind of every byte from `i` on. */
  function Paint(line: Line, i: nat, mode: Mode): (kinds: seq<Kind>)
    requires i <= |line|
    ensures |kinds| == |line| - i
    decreases |line| - i
  {
    if i == |line| then []
    else match mode
      case Code =>
        if line[i] == HASH || Starts(line, i, SLASH, SLASH) then Fill(|line| - i, CommentKind)
        else if Starts(line, i, SLASH, STAR) then [CommentKind, CommentKind] + Paint(line, i + 2, Block(1))
        else if line[i] == QUOTE then [TextKind] + Paint(line, i + 1, InText)
        else [CodeKind] + Paint(line, i + 1, Code)
      case InText =>
        [TextKind] + Paint(line, i + 1, if line[i] == QUOTE then Code else InText)
      case Block(d) =>
        if Starts(line, i, SLASH, STAR) then [CommentKind, CommentKind] + Paint(line, i + 2, Block(d + 1))
        else if Starts(line, i, STAR, SLASH) then
          [CommentKind, CommentKind] + Paint(line, i + 2, if d <= 1 then Code else Block(d - 1))
        else [CommentKind] + Paint(line, i + 1, mode)
  }

  /** The nesting the automaton is left with at the end of the line. */
  function EndDepth(line: Line, i: nat, mode: Mode): nat
    requires i <= |line|
    decreases |line| - i
  {
    if i == |line| then if mode.Block? then mode.depth else 0
    else match mode
      case Code =>
        if line[i] == HASH || Starts(line, i, SLASH, SLASH) then 0
        else if Starts(line, i, SLASH, STAR) then EndDepth(line, i + 2, Block(1))
        else EndDepth(line, i + 1, if line[i] == QUOTE then InText else Code)
      case InText => EndDepth(line, i + 1, if line[i] == QUOTE then Code else InText)
      case Block(d) =>
        if Starts(line, i, SLASH, STAR) then EndDepth(line, i + 2, Block(d + 1))
        else if Starts(line, i, STAR, SLASH) then EndDepth(line, i + 2, if d <= 1 then Code else Block(d - 1))
        else EndDepth(line, i + 1, mode)
  }

  function StartMode(depth: nat): Mode {
    if depth == 0 then Code else Block(depth)
  }

  // ---- the regions of a line, in order

  datatype Piece = Piece(kind: Kind, lo: nat, hi: nat)

  ghost predicate InLine(line: Line, ps: seq<Piece>) {
    forall k :: 0 <= k < |ps| ==> ps[k].lo <= ps[k].hi <= |line|
  }

  /** The regions from `start` on, the automaton being at `i` in a region begun at `start`. */
  function Pieces(line: Line, i: nat, mode: Mode, start: nat): (ps: seq<Piece>)
    requires start <= i <= |line|
    ensures InLine(line, ps)
    decreases |line| - i
  {
    if i == |line| then
      if mode.Code? then [Piece(CodeKind, start, i)] else [Piece(KindOf(mode), start, i), Piece(CodeKind, i, i)]
    else match mode
      case Code =>
        if line[i] == HASH || Starts(line, i, SLASH, SLASH) then
          [Piece(CodeKind, start, i), Piece(CommentKind, i, |line|)]
        else if Starts(line, i, SLASH, STAR) then [Piece(CodeKind, start, i)] + Pieces(line, i + 2, Block(1), i)
        else if line[i] == QUOTE then [Piece(CodeKind, start, i)] + Pieces(line, i + 1, InText, i)
        else Pieces(line, i + 1, Code, start)
      case InText =>
        if line[i] == QUOTE then [Piece(TextKind, start, i + 1)] + Pieces(line, i + 1, Code, i + 1)
        else Pieces(line, i + 1, InText, start)
      case Block(d) =>
        if Starts(line, i, SLASH, STAR) then Pieces(line, i + 2, Block(d + 1), start)
        else if Starts(line, i, STAR, SLASH) then
          if d <= 1 then [Piece(CommentKind, start, i + 2)] + Pieces(line, i + 2, Code, i + 2)
          else Pieces(line, i + 2, Block(d - 1), start)
        else Pieces(line, i + 1, mode, start)
  }

  function KindOf(mode: Mode): Kind {
    match mode case Code => CodeKind case InText => TextKind case Block(_) => CommentKind
  }

  /** The regions follow one another from `lo` to the end, and each is of the kind the automaton paints there. */
  ghost predicate Tiles(ps: seq<Piece>, lo: nat, hi: nat, kinds: seq<Kind>) {
    if ps == [] then lo == hi
    else
      && ps[0].lo == lo <= ps[0].hi <= hi <= |kinds|
      && (forall k :: ps[0].lo <= k < ps[0].hi ==> kinds[k] == ps[0].kind)
      && Tiles(ps[1..], ps[0].hi, hi, kinds)
  }

  /** `kinds` says what the automaton paints from `i` on, and all of `start..i` is of its region's kind. */
  ghost predicate Painted(line: Line, i: nat, mode: Mode, start: nat, kinds: seq<Kind>) {
    && start <= i <= |line| == |kinds|
    && kinds[i..] == Paint(line, i, mode)
    && forall k :: start <= k < i ==> kinds[k] == KindOf(mode)
  }

  /** The automaton paints `n` bytes with one kind and goes on. */
  lemma PaintSplit(line: Line, i: nat, n: nat, mode: Mode, next: Mode, kind: Kind, kinds: seq<Kind>)
    requires i + n <= |line| == |kinds| && kinds[i..] == Paint(line, i, mode)
    requires Paint(line, i, mode) == Fill(n, kind) + Paint(line, i + n, next)
    ensures kinds[i + n..] == Paint(line, i + n, next)
    ensures forall k :: i <= k < i + n ==> kinds[k] == kind
  {
    assert kinds[i + n..] == kinds[i..][n..];
    forall k | i <= k < i + n
      ensures kinds[k] == kind
    {
      assert kinds[k] == kinds[i..][k - i];
    }
  }

  /** Comments, strings and the ranges given to the lexer tile the line as the automaton paints it. */
  lemma {:induction false} PiecesTile(line: Line, i: nat, mode: Mode, start: nat, kinds: seq<Kind>)
    requires Painted(line, i, mode, start, kinds)
    ensures Tiles(Pieces(line, i, mode, start), start, |line|, kinds)
    decreases |line| - i
  {
    if i == |line| {
      var ps := Pieces(line, i, mode, start);
      assert !mode.Code? ==> ps[1..] == [Piece(CodeKind, i, i)] && ps[1..][1..] == [];
    } else {
      match mode {
        case Code => CodeTiles(line, i, start, kinds);
        case InText => TextTiles(line, i, start, kinds);
        case Block(_) => BlockTiles(line, i, mode, start, kinds);
      }
    }
  }

  lemma {:induction false} TextTiles(line: Line, i: nat, start: nat, kinds: seq<Kind>)
    requires Painted(line, i, InText, start, kinds) && i < |line|
    ensures Tiles(Pieces(line, i, InText, start), start, |line|, kinds)
    decreases |line| - i, 0
  {
    var next := if line[i] == QUOTE then Code else InText;
    PaintSplit(line, i, 1, InText, next, TextKind, kinds);
    PiecesTile(line, i + 1, next, if next.Code? then i + 1 else start, kinds);
  }

  lemma {:induction false} BlockTiles(line: Line, i: nat, mode: Mode, start: nat, kinds: seq<Kind>)
    requires mode.Block? && Painted(line, i, mode, start, kinds) && i < |line|
    ensures Tiles(Pieces(line, i, mode, start), start, |line|, kinds)
    decreases |line| - i, 0
  {
    var d := mode.depth;
    if Starts(line, i, SLASH, STAR) {
      PaintSplit(line, i, 2, mode, Block(d + 1), CommentKind, kinds);
      PiecesTile(line, i + 2, Block(d + 1), start, kinds);
    } else if Starts(line, i, STAR, SLASH) {
      var next := if d <= 1 then Code else Block(d - 1);
      PaintSplit(line, i, 2, mode, next, CommentKind, kinds);
      PiecesTile(line, i + 2, next, if d <= 1 then i + 2 else start, kinds);
    } else {
      PaintSplit(line, i, 1, mode, mode, CommentKind, kinds);
      PiecesTile(line, i + 1, mode, start, kinds);
    }
  }

  lemma {:induction false} CodeTiles(line: Line, i: nat, start: nat, kinds: seq<Kind>)
    requires Painted(line, i, Code, start, kinds) && i < |line|
    ensures Tiles(Pieces(line, i, Code, start), start, |line|, kinds)
    decreases |line| - i, 0
  {
    if line[i] == HASH || Starts(line, i, SLASH, SLASH) {
      forall k | i <= k < |line|
        ensures kinds[k] == CommentKind
      {
        assert kinds[k] == kinds[i..][k - i];
      }
      var ps := Pieces(line, i, Code, start);
      assert ps[1..] == [Piece(CommentKind, i, |line|)] && ps[1..][1..] == [];
    } else if Starts(line, i, SLASH, STAR) {
      PaintSplit(line, i, 2, Code, Block(1), CommentKind, kinds);
      PiecesTile(line, i + 2, Block(1), i, kinds);
    } else if line[i] == QUOTE {
      PaintSplit(line, i, 1, Code, InText, TextKind, kinds);
      PiecesTile(line, i + 1, InText, i, kinds);
    } else {
      PaintSplit(line, i, 1, Code, Code, CodeKind, kinds);
      PiecesTile(line, i + 1, Code, start, kinds);
    }
  }

  /** The regions of a whole line that starts `depth` comments deep. */
  function Regions(line: Line, depth: nat): seq<Piece> {
    Pieces(line, 0, StartMode(depth), 0)
  }

  /** For every line and starting depth, its regions tile it in order, each of the automaton's kind. */
  lemma RegionsTile(line: Line, depth: nat)
    ensures Tiles(Regions(line, depth), 0, |line|, Paint(line, 0, StartMode(depth)))
  {
    var kinds := Paint(line, 0, StartMode(depth));
    assert kinds[0..] == kinds;
    PiecesTile(line, 0, StartMode(depth), 0, kinds);
  }

  // ---- what is drawn of the regions

  datatype Class = Keyword | Field | Word | Literal | Text | Comment | Interp | Punct | Error | Warning

  /** A token of a range of code, placed in it; a newline has no class. */
  datatype Token = Token(lo: nat, hi: nat, class_: Option<Class>)

  datatype Span = Span(lo: int, hi: int, class_: Class)

  /** The lexer is taken as it is: any function from a range's bytes to tokens. */
  type Lexer = Line -> seq<Token>

  function Tokens(ts: seq<Token>, lo: nat): seq<Span> {
    if ts == [] then []
    else
      Tokens(ts[..|ts| - 1], lo) +
      var t := ts[|ts| - 1];
      if t.class_.Some? then [Span(lo + t.lo, lo + t.hi, t.class_.value)] else []
  }

  function Drawn(line: Line, p: Piece, lex: Lexer): seq<Span>
    requires p.lo <= p.hi <= |line|
  {
    match p.kind
    case CodeKind => if p.lo == p.hi then [] else Tokens(lex(line[p.lo..p.hi]), p.lo)
    case TextKind => [Span(p.lo, p.hi, Text)]
    case CommentKind => [Span(p.lo, p.hi, Comment)]
  }

  ghost function DrawAll(line: Line, ps: seq<Piece>, lex: Lexer): seq<Span>
    requires InLine(line, ps)
  {
    if ps == [] then [] else Drawn(line, ps[0], lex) + DrawAll(line, ps[1..], lex)
  }

  predicate IsSpanOf(t: Token, lo: nat, s: Span) {
    t.class_ == Some(s.class_) && s.lo - lo == t.lo && s.hi - lo == t.hi
  }

  /** Span `k` is that of token `from[k]`, at its place in the line; every token with a class has its one span. */
  ghost predicate OnePerToken(ts: seq<Token>, lo: nat, spans: seq<Span>, from: seq<nat>) {
    && |from| == |spans| && Ascending(from)
    && (forall k :: 0 <= k < |from| ==> from[k] < |ts| && IsSpanOf(ts[from[k]], lo, spans[k]))
    && (forall i: nat :: i < |ts| && ts[i].class_.Some? ==> i in from)
  }

  lemma OneSpanMore(ts: seq<Token>, t: Token, lo: nat, spans: seq<Span>, from: seq<nat>, s: Span)
    requires OnePerToken(ts, lo, spans, from) && IsSpanOf(t, lo, s)
    ensures OnePerToken(ts + [t], lo, spans + [s], from + [|ts|])
  {
    var all, more := ts + [t], from + [|ts|];
    forall i: nat | i < |all| && all[i].class_.Some?
      ensures i in more
    {
      assert i < |ts| ==> all[i] == ts[i] && i in from;
      assert more[|from|] == |ts|;
    }
  }

  /** The spans of a range's tokens: one for each token with a class, in order, at its place in the line. */
  lemma {:induction false} TokensInPlace(ts: seq<Token>, lo: nat) returns (from: seq<nat>)
    ensures OnePerToken(ts, lo, Tokens(ts, lo), from)
  {
    if ts == [] {
      from := [];
    } else {
      var n := |ts| - 1;
      var init, t := ts[..n], ts[n];
      from := TokensInPlace(init, lo);
      assert ts == init + [t];
      if t.class_.Some? {
        OneSpanMore(init, t, lo, Tokens(init, lo), from, Span(lo + t.lo, lo + t.hi, t.class_.value));
        from := from + [n];
      } else {
      }
    }
  }

  /** A lexer whose tokens are within what it is given. */
  ghost predicate Fits(lex: Lexer, text: Line) {
    forall i :: 0 <= i < |lex(text)| ==> lex(text)[i].lo <= lex(text)[i].hi <= |text|
  }

  /** A span is drawn within its region, as a comment or a string exactly in one of that kind. */
  ghost predicate DrawnWithin(p: Piece, s: Span) {
    && p.lo <= s.lo <= s.hi <= p.hi
    && (p.kind.TextKind? ==> s == Span(p.lo, p.hi, Text))
    && (p.kind.CommentKind? ==> s == Span(p.lo, p.hi, Comment))
  }

  /** What is drawn of a region is within it; strings and comments are drawn whole. */
  lemma DrawnInPlace(line: Line, p: Piece, lex: Lexer)
    requires p.lo <= p.hi <= |line| && Fits(lex, line[p.lo..p.hi])
    ensures forall s :: s in Drawn(line, p, lex) ==> DrawnWithin(p, s)
    ensures !p.kind.CodeKind? ==> |Drawn(line, p, lex)| == 1
  {
    if p.kind.CodeKind? && p.lo < p.hi {
      var ts := lex(line[p.lo..p.hi]);
      var from := TokensInPlace(ts, p.lo);
      forall k | 0 <= k < |from|
        ensures DrawnWithin(p, Tokens(ts, p.lo)[k])
      {
        assert IsSpanOf(ts[from[k]], p.lo, Tokens(ts, p.lo)[k]);
      }
    }
  }

  ghost predicate InARegion(ps: seq<Piece>, s: Span) {
    exists k :: 0 <= k < |ps| && DrawnWithin(ps[k], s)
  }

  /** What is drawn of a line: every span within one of its regions, and every string and comment there. */
  lemma {:induction false} AllDrawnInPlace(line: Line, ps: seq<Piece>, lex: Lexer)
    requires InLine(line, ps) && forall text :: Fits(lex, text)
    ensures forall s :: s in DrawAll(line, ps, lex) ==> InARegion(ps, s)
    ensures forall k :: 0 <= k < |ps| && !ps[k].kind.CodeKind? ==>
              Span(ps[k].lo, ps[k].hi, if ps[k].kind.TextKind? then Text else Comment) in DrawAll(line, ps, lex)
  {
    if ps != [] {
      assert Fits(lex, line[ps[0].lo..ps[0].hi]);
      DrawnInPlace(line, ps[0], lex);
      AllDrawnInPlace(line, ps[1..], lex);
      forall s | s in DrawAll(line, ps, lex)
        ensures InARegion(ps, s)
      {
        if s in Drawn(line, ps[0], lex) {
          assert DrawnWithin(ps[0], s);
        } else {
          assert InARegion(ps[1..], s);
          var k :| 0 <= k < |ps[1..]| && DrawnWithin(ps[1..][k], s);
          assert DrawnWithin(ps[k + 1], s);
        }
      }
      forall k | 0 <= k < |ps| && !ps[k].kind.CodeKind?
        ensures Span(ps[k].lo, ps[k].hi, if ps[k].kind.TextKind? then Text else Comment) in DrawAll(line, ps, lex)
      {
        if k > 0 {
          assert ps[1..][k - 1] == ps[k];
        } else {
          assert Drawn(line, ps[0], lex)[0] in Drawn(line, ps[0], lex);
        }
      }
    }
  }

  // ---- `classes`: the loops

  /** Inside a character no marker starts: stepping over it is stepping over its bytes. */
  lemma {:induction false} StepOver(line: Line, i: nat, j: nat, mode: Mode, start: nat)
    requires start <= i <= j <= |line| && !mode.InText?
    requires forall k :: i <= k < j ==> Continuation(line[k])
    ensures Pieces(line, i, mode, start) == Pieces(line, j, mode, start)
    ensures EndDepth(line, i, mode) == EndDepth(line, j, mode)
    decreases j - i
  {
    if i < j {
      StepOver(line, i + 1, j, mode, start);
    }
  }

  /** Where a comment that is `depth` deep at `from` is left, and with what depth if the line ends first. */
  method EndOfComment(line: Line, from: nat, depth: nat, start: nat) returns (i: nat, left: nat)
    requires IsText(line) && start <= from <= |line| && Boundary(line, from) && depth > 0
    ensures from <= i <= |line| && Boundary(line, i)
    ensures left > 0 ==> i == |line|
    ensures Pieces(line, from, Block(depth), start) == [Piece(CommentKind, start, i)] + Pieces(line, i, Code, i)
    ensures EndDepth(line, from, Block(depth)) == if left == 0 then EndDepth(line, i, Code) else left
  {
    i, left := from, depth;
    while i < |line| && left > 0
      invariant from <= i <= |line| && Boundary(line, i)
      invariant left > 0 ==> Pieces(line, from, Block(depth), start) == Pieces(line, i, Block(left), start)
      invariant left > 0 ==> EndDepth(line, from, Block(depth)) == EndDepth(line, i, Block(left))
      invariant left == 0 ==>
                  Pieces(line, from, Block(depth), start) == [Piece(CommentKind, start, i)] + Pieces(line, i, Code, i)
      invariant left == 0 ==> EndDepth(line, from, Block(depth)) == EndDepth(line, i, Code)
      decreases |line| - i
    {
      if At(line, i, SLASH, STAR) {
        i, left := i + 2, left + 1;
      } else if At(line, i, STAR, SLASH) {
        i, left := i + 2, left - 1;
      } else {
        var j := CharEnd(line, i);
        StepOver(line, i + 1, j, Block(left), start);
        i := j;
      }
    }
  }

  /** The byte after the next quote, or the end of the line. */
  method EndOfText(line: Line, from: nat, start: nat) returns (end: nat)
    requires IsText(line) && start <= from <= |line|
    ensures from <= end <= |line| && Boundary(line, end)
    ensures Pieces(line, from, InText, start) == [Piece(TextKind, start, end)] + Pieces(line, end, Code, end)
    ensures EndDepth(line, from, InText) == EndDepth(line, end, Code)
  {
    end := from;
    while end < |line| && line[end] != QUOTE
      invariant from <= end <= |line|
      invariant Pieces(line, from, InText, start) == Pieces(line, end, InText, start)
      invariant EndDepth(line, from, InText) == EndDepth(line, end, InText)
    {
      end := end + 1;
    }
    if end < |line| {
      end := end + 1;
    }
  }

  method CodeTokens(line: Line, lo: nat, hi: nat, lex: Lexer) returns (spans: seq<Span>)
    requires lo <= hi <= |line|
    ensures spans == Drawn(line, Piece(CodeKind, lo, hi), lex)
  {
    spans := [];
    if lo < hi {
      var ts := lex(line[lo..hi]);
      for k := 0 to |ts|
        invariant spans == Tokens(ts[..k], lo)
      {
        assert ts[..k + 1][..k] == ts[..k];
        if ts[k].class_.Some? {
          spans := spans + [Span(lo + ts[k].lo, lo + ts[k].hi, ts[k].class_.value)];
        }
      }
      assert ts[..|ts|] == ts;
    }
  }

  /** What is still to draw after `out`: the rest's regions. */
  ghost predicate Remains(line: Line, depth: nat, lex: Lexer, out: seq<Span>, rest: seq<Piece>) {
    InLine(line, rest) && out + DrawAll(line, rest, lex) == DrawAll(line, Regions(line, depth), lex)
  }

  lemma DrawnOne(line: Line, depth: nat, lex: Lexer, out: seq<Span>, p: Piece, rest: seq<Piece>)
    requires Remains(line, depth, lex, out, [p] + rest)
    ensures Remains(line, depth, lex, out + Drawn(line, p, lex), rest)
  {
    assert ([p] + rest)[1..] == rest;
    assert ([p] + rest)[0] == p;
    assert forall k :: 0 <= k < |rest| ==> rest[k] == ([p] + rest)[k + 1];
    assert out + DrawAll(line, [p] + rest, lex) == (out + Drawn(line, p, lex)) + DrawAll(line, rest, lex);
  }

  /** The code up to `i` drawn, and the region that begins there. */
  method DrawCode(line: Line, ghost depth: nat, lex: Lexer, out: seq<Span>, code: nat, i: nat, ghost rest: seq<Piece>)
    returns (more: seq<Span>)
    requires code <= i <= |line| && Remains(line, depth, lex, out, [Piece(CodeKind, code, i)] + rest)
    ensures Remains(line, depth, lex, more, rest)
  {
    var spans := CodeTokens(line, code, i, lex);
    DrawnOne(line, depth, lex, out, Piece(CodeKind, code, i), rest);
    more := out + spans;
  }

  /** A block comment that starts or goes on at `start`, drawn from `i` on. */
  method DrawComment(line: Line, ghost depth: nat, lex: Lexer, out: seq<Span>, start: nat, from: nat, deep: nat)
    returns (more: seq<Span>, i: nat, left: nat)
    requires IsText(line) && start <= from <= |line| && Boundary(line, from) && deep > 0
    requires Remains(line, depth, lex, out, Pieces(line, from, Block(deep), start))
    ensures from <= i <= |line| && Boundary(line, i) && (left > 0 ==> i == |line|)
    ensures Remains(line, depth, lex, more, Pieces(line, i, Code, i))
    ensures EndDepth(line, from, Block(deep)) == if left == 0 then EndDepth(line, i, Code) else left
  {
    i, left := EndOfComment(line, from, deep, start);
    DrawnOne(line, depth, lex, out, Piece(CommentKind, start, i), Pieces(line, i, Code, i));
    more := out + [Span(start, i, Comment)];
  }

  /** The code up to a block comment at `at`, and the comment. */
  method CodeThenComment(line: Line, ghost depth: nat, lex: Lexer, out: seq<Span>, code: nat, at: nat)
    returns (more: seq<Span>, i: nat, left: nat)
    requires IsText(line) && code <= at < |line| && Boundary(line, at) && At(line, at, SLASH, STAR)
    requires Remains(line, depth, lex, out, Pieces(line, at, Code, code))
    ensures at < i <= |line| && Boundary(line, i) && (left > 0 ==> i == |line|)
    ensures Remains(line, depth, lex, more, Pieces(line, i, Code, i))
    ensures EndDepth(line, at, Code) == if left == 0 then EndDepth(line, i, Code) else left
  {
    more := DrawCode(line, depth, lex, out, code, at, Pieces(line, at + 2, Block(1), at));
    more, i, left := DrawComment(line, depth, lex, more, at, at + 2, 1);
  }

  /** The code up to a string at `at`, and the string. */
  method CodeThenText(line: Line, ghost depth: nat, lex: Lexer, out: seq<Span>, code: nat, at: nat)
    returns (more: seq<Span>, i: nat)
    requires IsText(line) && code <= at < |line| && Boundary(line, at) && AtOne(line, at, QUOTE)
    requires Remains(line, depth, lex, out, Pieces(line, at, Code, code))
    ensures at < i <= |line| && Boundary(line, i)
    ensures Remains(line, depth, lex, more, Pieces(line, i, Code, i))
    ensures EndDepth(line, at, Code) == EndDepth(line, i, Code)
  {
    more := DrawCode(line, depth, lex, out, code, at, Pieces(line, at + 1, InText, at));
    i := EndOfText(line, at + 1, at);
    DrawnOne(line, depth, lex, more, Piece(TextKind, at, i), Pieces(line, i, Code, i));
    more := more + [Span(at, i, Text)];
  }

  /** The code up to a comment that takes the rest of the line. */
  method CodeThenRest(line: Line, ghost depth: nat, lex: Lexer, out: seq<Span>, code: nat, at: nat)
    returns (more: seq<Span>)
    requires code <= at < |line| && Boundary(line, at)
    requires AtOne(line, at, HASH) || At(line, at, SLASH, SLASH)
    requires Remains(line, depth, lex, out, Pieces(line, at, Code, code))
    ensures Remains(line, depth, lex, more, []) && EndDepth(line, at, Code) == 0
  {
    ghost var last := Piece(CommentKind, at, |line|);
    more := DrawCode(line, depth, lex, out, code, at, [last]);
    assert [last] == [last] + [];
    DrawnOne(line, depth, lex, more, last, []);
    more := more + [Span(at, |line|, Comment)];
  }

  /** A character that starts nothing. */
  lemma PlainCode(line: Line, i: nat, code: nat)
    requires code <= i < |line| && Boundary(line, i)
    requires !AtOne(line, i, HASH) && !At(line, i, SLASH, SLASH) && !At(line, i, SLASH, STAR) && !AtOne(line, i, QUOTE)
    ensures Pieces(line, i, Code, code) == Pieces(line, CharEnd(line, i), Code, code)
    ensures EndDepth(line, i, Code) == EndDepth(line, CharEnd(line, i), Code)
  {
    StepOver(line, i + 1, CharEnd(line, i), Code, code);
  }

  /**
   A line highlighted from nesting `depth`: its regions drawn in order, and the nesting
   the automaton ends with.
   */
  method Classes(line: Line, depth: nat, lex: Lexer) returns (out: seq<Span>, end: nat)
    requires IsText(line)
    ensures out == DrawAll(line, Regions(line, depth), lex)
    ensures end == EndDepth(line, 0, StartMode(depth))
  {
    out, end := [], depth;
    var i: nat, code: nat := 0, 0;
    if depth > 0 {
      out, i, end := DrawComment(line, depth, lex, out, 0, 0, depth);
      code := i;
    }
    while i < |line|
      invariant code <= i <= |line| && Boundary(line, i) && (end > 0 ==> i == |line|)
      invariant Remains(line, depth, lex, out, Pieces(line, i, Code, code))
      invariant EndDepth(line, 0, StartMode(depth)) == if end == 0 then EndDepth(line, i, Code) else end
      decreases |line| - i
    {
      if AtOne(line, i, HASH) || At(line, i, SLASH, SLASH) {
        out := CodeThenRest(line, depth, lex, out, code, i);
        return;
      }
      if At(line, i, SLASH, STAR) {
        out, i, end := CodeThenComment(line, depth, lex, out, code, i);
        code := i;
      } else if AtOne(line, i, QUOTE) {
        out, i := CodeThenText(line, depth, lex, out, code, i);
        code := i;
      } else {
        PlainCode(line, i, code);
        i := CharEnd(line, i);
      }
    }
    assert Pieces(line, i, Code, code) == [Piece(CodeKind, code, i)] + [];
    out := DrawCode(line, depth, lex, out, code, |line|, []);
  }

  // ---- a document, incrementally

  /** Where a problem is: its line, its bytes there, an error or a warning. */
  datatype Mark = Mark(line: nat, lo: nat, hi: nat, error: bool)

  /** The nesting line `i` inherits from all the lines above it. */
  function DepthAt(doc: seq<Line>, i: nat): nat
    requires i <= |doc|
  {
    if i == 0 then 0 else EndDepth(doc[i - 1], 0, StartMode(DepthAt(doc, i - 1)))
  }

  function MarkSpans(marks: seq<Mark>, n: nat, len: nat): seq<Span> {
    if marks == [] then []
    else
      var m := marks[|marks| - 1];
      var lo, hi := Min(m.lo, len), Min(m.hi, len);
      MarkSpans(marks[..|marks| - 1], n, len) +
      if m.line == n && lo < hi then [Span(lo, hi, if m.error then Error else Warning)] else []
  }

  /** A mark is drawn on line `n`: it is there, and not empty within the line. */
  predicate IsDrawn(m: Mark, n: nat, len: nat) {
    m.line == n && m.lo < len && m.lo < m.hi
  }

  predicate IsMarkOf(m: Mark, len: nat, s: Span) {
    s.lo == m.lo && s.hi == Min(m.hi, len) && s.class_ == (if m.error then Error else Warning)
  }

  /** Span `k` is that of mark `from[k]`, within the line, as its severity; every mark drawn there has its one span. */
  ghost predicate OnePerMark(marks: seq<Mark>, n: nat, len: nat, spans: seq<Span>, from: seq<nat>) {
    && |from| == |spans| && Ascending(from)
    && (forall k :: 0 <= k < |from| ==>
          from[k] < |marks| && IsDrawn(marks[from[k]], n, len) && IsMarkOf(marks[from[k]], len, spans[k]))
    && (forall i: nat :: i < |marks| && IsDrawn(marks[i], n, len) ==> i in from)
  }

  lemma OneMarkMore(marks: seq<Mark>, m: Mark, n: nat, len: nat, spans: seq<Span>, from: seq<nat>, s: Span)
    requires OnePerMark(marks, n, len, spans, from) && IsDrawn(m, n, len) && IsMarkOf(m, len, s)
    ensures OnePerMark(marks + [m], n, len, spans + [s], from + [|marks|])
  {
    var all, more := marks + [m], from + [|marks|];
    forall i: nat | i < |all| && IsDrawn(all[i], n, len)
      ensures i in more
    {
      assert i < |marks| ==> all[i] == marks[i] && i in from;
      assert more[|from|] == |marks|;
    }
  }

  /** The marks drawn on a line: one span for each mark there, in order. */
  lemma {:induction false} MarksInPlace(marks: seq<Mark>, n: nat, len: nat) returns (from: seq<nat>)
    ensures OnePerMark(marks, n, len, MarkSpans(marks, n, len), from)
  {
    if marks == [] {
      from := [];
    } else {
      var j := |marks| - 1;
      var init, m := marks[..j], marks[j];
      from := MarksInPlace(init, n, len);
      assert marks == init + [m];
      if IsDrawn(m, n, len) {
        var s := Span(m.lo, Min(m.hi, len), if m.error then Error else Warning);
        OneMarkMore(init, m, n, len, MarkSpans(init, n, len), from, s);
        from := from + [j];
      } else {
      }
    }
  }

  /** Line `i` of a document highlighted from scratch: every line above it looked at for its depth. */
  ghost function FromScratch(doc: seq<Line>, marks: seq<Mark>, lex: Lexer, i: nat): seq<Span>
    requires i < |doc|
  {
    DrawAll(doc[i], Regions(doc[i], DepthAt(doc, i)), lex) + MarkSpans(marks, i, |doc[i]|)
  }

  lemma {:induction false} DepthFromAbove(a: seq<Line>, b: seq<Line>, n: nat, i: nat)
    requires i <= n <= |a| && n <= |b| && a[..n] == b[..n]
    ensures DepthAt(a, i) == DepthAt(b, i)
  {
    if i > 0 {
      DepthFromAbove(a, b, n, i - 1);
      assert a[i - 1] == a[..n][i - 1] && b[i - 1] == b[..n][i - 1];
    }
  }

  /** An edit leaves every line above it highlighted as it was. */
  lemma EditKeepsAbove(a: seq<Line>, b: seq<Line>, n: nat, marks: seq<Mark>, lex: Lexer, i: nat)
    requires i < n <= |a| && n <= |b| && a[..n] == b[..n]
    ensures FromScratch(a, marks, lex, i) == FromScratch(b, marks, lex, i)
  {
    DepthFromAbove(a, b, n, i);
    assert a[i] == a[..n][i] && b[i] == b[..n][i];
  }

  function Resized(depths: seq<nat>, n: nat): seq<nat> {
    if n <= |depths| then depths[..n] else depths + seq(n - |depths|, _ => 0)
  }

  /**
   The incremental highlighter. `doc` is the document the editor shows and `shown` the
   spans it was given for the lines above `current`.
   */
  class Nll {
    const lex: Lexer
    var marks: seq<Mark>
    var current: nat
    var depth: seq<nat>
    ghost var doc: seq<Line>
    ghost var shown: seq<seq<Span>>

    /** The depths are the document's, and every line shown is as highlighted from scratch. */
    ghost predicate Valid()
      reads this
    {
      && |depth| == current + 1 && current <= |doc| && |shown| == current
      && (forall i :: 0 <= i < |doc| ==> IsText(doc[i]))
      && (forall i :: 0 <= i <= current ==> depth[i] == DepthAt(doc, i))
      && (forall i :: 0 <= i < current ==> shown[i] == FromScratch(doc, marks, lex, i))
    }

    constructor (lex: Lexer, marks: seq<Mark>, ghost doc: seq<Line>)
      requires forall i :: 0 <= i < |doc| ==> IsText(doc[i])
      ensures Valid() && this.marks == marks && this.doc == doc && current == 0 && this.lex == lex
    {
      this.lex, this.marks, this.doc := lex, marks, doc;
      current, depth, shown := 0, [0], [];
    }

    /** New marks: everything again. */
    method Update(marks: seq<Mark>)
      requires Valid()
      modifies this
      ensures Valid() && this.marks == marks && doc == old(doc) && current == 0
    {
      this.marks := marks;
      current := 0;
      depth := depth[..1];
      shown := [];
    }

    /** The document changed, `line` being the first line that did. */
    method ChangeLine(line: nat, ghost edited: seq<Line>)
      requires Valid()
      requires line <= |doc| && line <= |edited| && doc[..line] == edited[..line]
      requires forall i :: 0 <= i < |edited| ==> IsText(edited[i])
      modifies this
      ensures Valid() && doc == edited && marks == old(marks) && current == Min(old(current), line)
    {
      current := if current <= line then current else line;
      depth := depth[..current + 1];
      forall i | 0 <= i <= current
        ensures depth[i] == DepthAt(edited, i)
      {
        DepthFromAbove(doc, edited, line, i);
      }
      forall i | 0 <= i < current
        ensures shown[i] == FromScratch(edited, marks, lex, i)
      {
        EditKeepsAbove(doc, edited, line, marks, lex, i);
      }
      shown := shown[..current];
      doc := edited;
    }

    /** What the marks on the current line add. */
    method MarkedSpans(len: nat) returns (spans: seq<Span>)
      ensures spans == MarkSpans(marks, current, len)
    {
      spans := [];
      for k := 0 to |marks|
        invariant spans == MarkSpans(marks[..k], current, len)
      {
        assert marks[..k + 1][..k] == marks[..k];
        var m := marks[k];
        if m.line == current {
          var lo, hi := Min(m.lo, len), Min(m.hi, len);
          if lo < hi {
            spans := spans + [Span(lo, hi, if m.error then Error else Warning)];
          }
        }
      }
      assert marks[..|marks|] == marks;
    }

    /** The next line's spans: what highlighting the whole document from scratch gives it. */
    method HighlightLine(line: Line) returns (spans: seq<Span>)
      requires Valid() && current < |doc| && line == doc[current]
      modifies this
      ensures Valid() && doc == old(doc) && marks == old(marks) && current == old(current) + 1
      ensures spans == FromScratch(doc, marks, lex, old(current))
    {
      var d := if current < |depth| then depth[current] else 0;
      var end;
      spans, end := Classes(line, d, lex);
      var marked := MarkedSpans(|line|);
      spans := spans + marked;
      depth := Resized(depth, current + 1) + [end];
      shown := shown + [spans];
      current := current + 1;
    }
  }
}
