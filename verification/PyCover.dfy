/** What lexing accepts: a source is made of words, blanks, comments and newlines, and its tokens are those words. */
module PyCover {
  import opened PyTokens
  import opened PyLexer
  import opened PyText

  /** A stretch of a source: a blank, a comment, a newline, or a word and its token. */
  datatype Piece = Gap(c: char) | Note(text: string) | Eol | Bit(w: string, t: Tok)

  function TextOf(p: Piece): string {
    match p
    case Gap(c) => [c]
    case Note(text) => "#" + text
    case Eol => "\n"
    case Bit(w, _) => w
  }

  function TokensOf(p: Piece): seq<Tok> {
    match p
    case Eol => [Plain(NEWLINE)]
    case Bit(_, t) => [t]
    case _ => []
  }

  function Glued(ps: seq<Piece>): string { if ps == [] then [] else Glued(ps[..|ps| - 1]) + TextOf(ps[|ps| - 1]) }

  function Words(ps: seq<Piece>): seq<Tok> { if ps == [] then [] else Words(ps[..|ps| - 1]) + TokensOf(ps[|ps| - 1]) }

  /** Text that a quote closes where it stands: it has no newline, and no bare quote of that kind. */
  predicate Closed(s: string, q: char) {
    s == [] || (s[0] == '\\' && |s| > 1 && s[1] != '\n' && Closed(s[2..], q))
      || (s[0] !in {'\\', q, '\n'} && Closed(s[1..], q))
  }

  /** How the token is written. */
  predicate Writes(w: string, t: Tok) {
    match t.kind
    case NAME => Identifier(w) && t == Tok(NAME, w, 0)
    case NUMBER => |w| > 0 && (forall i :: 0 <= i < |w| ==> Digit(w[i])) && t == Tok(NUMBER, w, Int32(Decimal(w)))
    case STRING =>
      |w| >= 2 && w[0] in {'"', '\''} && w[|w| - 1] == w[0] && t == Tok(STRING, w[1..|w| - 1], 0)
      && Closed(t.text, w[0])
    case k => !Structural(k) && t == Sym(k) && (w == Spelt(k) || (k == SLASH && w == "//"))
  }

  predicate Fair(p: Piece) {
    match p
    case Gap(c) => c in {' ', '\t', '\r'}
    case Note(text) => '\n' !in text
    case Eol => true
    case Bit(w, t) => Writes(w, t)
  }

  ghost predicate AllFair(ps: seq<Piece>) { forall i :: 0 <= i < |ps| ==> Fair(ps[i]) }

  /** The tokens without those that only indentation and the end make. */
  function Flat(ts: seq<Tok>): seq<Tok> {
    if ts == [] then []
    else Flat(ts[..|ts| - 1]) + if ts[|ts| - 1].kind in {INDENT, DEDENT, EOF} then [] else [ts[|ts| - 1]]
  }

  lemma FlatOne(ts: seq<Tok>, t: Tok)
    ensures Flat(ts + [t]) == Flat(ts) + if t.kind in {INDENT, DEDENT, EOF} then [] else [t]
  {
    assert (ts + [t])[..|ts|] == ts;
  }

  lemma OneMore(ps: seq<Piece>, p: Piece)
    requires AllFair(ps) && Fair(p)
    ensures AllFair(ps + [p]) && Glued(ps + [p]) == Glued(ps) + TextOf(p) && Words(ps + [p]) == Words(ps) + TokensOf(p)
  {
    hide Fair;
    assert (ps + [p])[..|ps|] == ps;
  }

  /** The pieces make up the source up to here, and the tokens so far. */
  ghost predicate Made(src: string, s: LState, ps: seq<Piece>) {
    s.pos <= |src| && AllFair(ps) && Glued(ps) == src[..s.pos] && Words(ps) == Flat(s.toks)
  }

  // ---- one round ----

  /** One piece more. */
  lemma MadeOne(src: string, s: LState, s': LState, ps: seq<Piece>, p: Piece)
    requires Made(src, s, ps) && Fair(p) && s.pos <= s'.pos <= |src| && TextOf(p) == src[s.pos..s'.pos]
    requires Flat(s'.toks) == Flat(s.toks) + TokensOf(p)
    ensures Made(src, s', ps + [p])
  {
    hide Fair, Flat, TokensOf, TextOf;
    OneMore(ps, p);
    assert src[..s'.pos] == src[..s.pos] + src[s.pos..s'.pos];
  }

  lemma {:induction false} SpacesMade(src: string, s: LState, e: nat, ps: seq<Piece>) returns (qs: seq<Piece>)
    requires Made(src, s, ps) && s.pos <= e <= |src| && forall i :: s.pos <= i < e ==> src[i] == ' '
    ensures Made(src, s.(pos := e, start := false), qs)
    decreases e - s.pos
  {
    if s.pos == e {
      qs := ps;
    } else {
      assert src[s.pos..s.pos + 1] == [' '];
      MadeOne(src, s, s.(pos := s.pos + 1), ps, Gap(' '));
      qs := SpacesMade(src, s.(pos := s.pos + 1), e, ps + [Gap(' ')]);
    }
  }

  lemma {:induction false} DedentsFlat(stack: seq<nat>, toks: seq<Tok>, n: nat)
    requires |stack| > 0
    ensures Flat(Dedents(stack, toks, n).1) == Flat(toks)
    decreases |stack|
  {
    hide Flat;
    if |stack| > 1 && stack[|stack| - 1] > n {
      FlatOne(toks, Plain(DEDENT));
      DedentsFlat(stack[..|stack| - 1], toks + [Plain(DEDENT)], n);
    }
  }

  lemma AdjustedFlat(s: LState, n: nat)
    requires 0 < |s.stack| <= MAX_INDENT && Adjusted(s, n).Next?
    ensures var r := Adjusted(s, n).s; r.pos == s.pos && Flat(r.toks) == Flat(s.toks)
  {
    hide Flat, Dedents;
    FlatOne(s.toks, Plain(INDENT));
    DedentsFlat(s.stack, s.toks, n);
  }

  lemma IndentedMade(src: string, s: LState, ps: seq<Piece>) returns (qs: seq<Piece>)
    requires PyLexer.Sound(src, s) && Made(src, s, ps) && Indented(src, s).Next?
    ensures Made(src, Indented(src, s).s, qs)
  {
    hide Flat, Glued, Words, AllFair, Adjusted;
    var e := RunEnd(src, s.pos, c => c == ' ');
    var s1 := s.(pos := e, start := false);
    qs := SpacesMade(src, s, e, ps);
    if !(e == |src| || src[e] == '\n' || src[e] == '#') {
      AdjustedFlat(s1, e - s.pos);
    }
  }

  lemma {:induction false} ClosedAt(src: string, p: nat, q: char)
    requires p <= |src| && q in {'"', '\''}
    ensures var e := StringEnd(src, p, q); e < |src| && src[e] == q ==> Closed(src[p..e], q)
    decreases |src| - p
  {
    hide StringEnd;
    if p < |src| && src[p] != q {
      var n := if src[p] == '\\' then 2 else 1;
      EndOn(src, p, q);
      if p + n <= |src| && src[p + n - 1] != '\n' {
        ClosedAt(src, p + n, q);
        var e := StringEnd(src, p, q);
        if e < |src| && src[e] == q {
          assert src[p..e][n..] == src[p + n..e];
        }
      }
    } else if p < |src| {
      EndOn(src, p, q);
      assert src[p..p] == [];
    }
  }

  lemma EndOn(src: string, p: nat, q: char)
    requires p < |src| && q in {'"', '\''}
    ensures src[p] == q ==> StringEnd(src, p, q) == p
    ensures src[p] != q ==>
      var n := if src[p] == '\\' then 2 else 1;
      if p + n > |src| || src[p + n - 1] == '\n' then var e := StringEnd(src, p, q); e == |src| || src[e] == '\n'
      else StringEnd(src, p, q) == StringEnd(src, p + n, q)
  {
  }

  lemma KeywordWord(w: string)
    ensures Keyword(w) !in {NUMBER, STRING}
    ensures Keyword(w) != NAME ==> Letters(Keyword(w)) == w && Spelt(Keyword(w)) == w
  {
  }

  /** A piece that takes the lexer from here to there. */
  ghost predicate Takes(src: string, s: LState, r: Outcome, p: Piece) {
    && r.Next? && Fair(p) && s.pos <= r.s.pos <= |src| && TextOf(p) == src[s.pos..r.s.pos]
    && r.s.toks == s.toks + TokensOf(p)
  }

  lemma BlankPiece(src: string, s: LState) returns (p: Piece)
    requires s.pos < |src| && src[s.pos] in {' ', '\t', '\r', '\n', '#'}
    ensures Takes(src, s, Scanned(src, s), p)
  {
    hide StringEnd, OpAt, Keyword, Value;
    var c, a := src[s.pos], s.pos;
    if c == '#' {
      var e := RunEnd(src, a, c => c != '\n');
      p := Note(src[a + 1..e]);
      assert src[a..e] == ['#'] + src[a + 1..e];
    } else if c == '\n' {
      p := Eol;
    } else {
      p := Gap(c);
    }
  }

  lemma LetterPiece(src: string, s: LState) returns (p: Piece)
    requires s.pos < |src| && Alpha(src[s.pos])
    ensures Takes(src, s, Scanned(src, s), p)
  {
    hide StringEnd, OpAt, Keyword, Value, Spelt, Letters;
    var e := RunEnd(src, s.pos, c => Alnum(c));
    var w := src[s.pos..e];
    assert w[0] == src[s.pos];
    KeywordWord(w);
    p := Bit(w, Tok(Keyword(w), w, 0));
  }

  lemma NumberPiece(src: string, s: LState) returns (p: Piece)
    requires s.pos < |src| && Digit(src[s.pos])
    ensures Takes(src, s, Scanned(src, s), p)
  {
    hide StringEnd, OpAt, Keyword, Value, Decimal;
    var e := RunEnd(src, s.pos, c => Digit(c));
    var w := src[s.pos..e];
    ValueDecimal(w);
    p := Bit(w, Tok(NUMBER, w, Value(w)));
  }

  lemma LiteralPiece(src: string, s: LState) returns (p: Piece)
    requires s.pos < |src| && src[s.pos] in {'"', '\''} && Scanned(src, s).Next?
    ensures Takes(src, s, Scanned(src, s), p)
  {
    hide StringEnd, OpAt, Keyword, Value, Closed;
    var a := s.pos;
    var e := StringEnd(src, a + 1, src[a]);
    ClosedAt(src, a + 1, src[a]);
    var w := src[a..e + 1];
    assert w[1..|w| - 1] == src[a + 1..e];
    p := Bit(w, Tok(STRING, src[a + 1..e], 0));
  }

  lemma OpSpelt(src: string, a: nat)
    requires a < |src| && OpAt(src, a).Op?
    ensures var o := OpAt(src, a);
      && o.kind !in {NAME, NUMBER, STRING} && Letters(o.kind) == []
      && var w := src[a..a + o.len]; w == Spelt(o.kind) || (o.kind == SLASH && w == "//")
  {
    assert src[a..a + 1] == [src[a]];
    if a + 2 <= |src| {
      assert src[a..a + 2] == [src[a], src[a + 1]];
    }
  }

  lemma OpPiece(src: string, s: LState) returns (p: Piece)
    requires s.pos < |src| && Scanned(src, s).Next?
    requires var c := src[s.pos]; !Alnum(c) && c !in {' ', '\t', '\r', '\n', '#', '"', '\''}
    ensures Takes(src, s, Scanned(src, s), p)
  {
    hide StringEnd, OpAt, Keyword, Value, Letters, Spelt;
    OpSpelt(src, s.pos);
    var o := OpAt(src, s.pos);
    p := Bit(src[s.pos..s.pos + o.len], Plain(o.kind));
  }

  /** What a round takes is one piece. */
  lemma ScannedPiece(src: string, s: LState) returns (p: Piece)
    requires s.pos < |src| && Scanned(src, s).Next?
    ensures Takes(src, s, Scanned(src, s), p)
  {
    hide Scanned, Takes;
    var c := src[s.pos];
    if c in {' ', '\t', '\r', '\n', '#'} {
      p := BlankPiece(src, s);
    } else if Alpha(c) {
      p := LetterPiece(src, s);
    } else if Digit(c) {
      p := NumberPiece(src, s);
    } else if c == '"' || c == '\'' {
      p := LiteralPiece(src, s);
    } else {
      p := OpPiece(src, s);
    }
  }

  lemma FlatPiece(src: string, s: LState, r: Outcome, p: Piece)
    requires Takes(src, s, r, p)
    ensures Flat(r.s.toks) == Flat(s.toks) + TokensOf(p)
  {
    hide Flat, TextOf, Writes;
    if TokensOf(p) == [] {
      assert r.s.toks == s.toks;
    } else {
      FlatOne(s.toks, TokensOf(p)[0]);
      WordFlat(p);
      assert TokensOf(p) == [TokensOf(p)[0]];
    }
  }

  lemma WordFlat(p: Piece)
    requires Fair(p) && TokensOf(p) != []
    ensures TokensOf(p)[0].kind !in {INDENT, DEDENT, EOF}
  {
    hide Identifier, Closed, Decimal;
  }

  // ---- whole sources ----

  lemma {:induction false} OwedFlat(toks: seq<Tok>, n: nat)
    ensures Flat(toks + Owed(n) + [Plain(EOF)]) == Flat(toks)
  {
    hide Flat;
    FlatOne(toks + Owed(n), Plain(EOF));
    if n > 0 {
      OwedFlat(toks, n - 1);
      FlatOne(toks + Owed(n - 1), Plain(EOF));
      FlatOne(toks + Owed(n - 1), Plain(DEDENT));
      assert toks + Owed(n) == toks + Owed(n - 1) + [Plain(DEDENT)];
    } else {
      assert toks + Owed(0) == toks;
    }
  }

  lemma {:induction false} CoveredFrom(src: string, s: LState, ps: seq<Piece>) returns (qs: seq<Piece>)
    requires PyLexer.Sound(src, s) && Made(src, s, ps) && Lexed(src, s).Next?
    ensures AllFair(qs) && Glued(qs) == src && Words(qs) == Flat(Lexed(src, s).s.toks)
    decreases |src| - s.pos
  {
    hide Flat, Glued, Words, AllFair, Indented, Scanned;
    if s.pos == |src| {
      OwedFlat(s.toks, |s.stack| - 1);
      qs := ps;
      assert src[..|src|] == src;
    } else {
      var s1, ps1 := s, ps;
      if s.start {
        ps1 := IndentedMade(src, s, ps);
        s1 := Indented(src, s).s;
      }
      if s1.pos == |src| {
        OwedFlat(s1.toks, |s1.stack| - 1);
        qs := ps1;
        assert src[..|src|] == src;
      } else {
        var p := ScannedPiece(src, s1);
        var r := Scanned(src, s1);
        FlatPiece(src, s1, r, p);
        MadeOne(src, s1, r.s, ps1, p);
        qs := CoveredFrom(src, r.s, ps1 + [p]);
      }
    }
  }

  /**
   * Every source that lexes is words, blanks, comments and newlines from its first character to its last, and its
   * tokens are those words, those newlines, and the block structure.
   */
  lemma SourceCovered(src: string) returns (ps: seq<Piece>)
    requires Tokens(src).Next?
    ensures AllFair(ps) && Glued(ps) == src && Words(ps) == Flat(Tokens(src).s.toks)
  {
    hide Lexed, Flat;
    Nothing(src);
    ps := CoveredFrom(src, Begin(), []);
  }

  lemma Nothing(src: string)
    ensures Made(src, Begin(), []) && PyLexer.Sound(src, Begin())
  {
  }

  // ---- single characters ----

  const SIGNS: set<char> := {'+', '-', '*', '/', '%', '(', ')', '[', ']', ':', ',', '=', '<', '>'}

  /** Letters, digits, signs, spaces, ends of lines and what begins a comment make sources alone; nothing else does. */
  lemma CharKnown(c: char)
    ensures Tokens([c]).Next? <==>
      'a' <= c <= 'z' || 'A' <= c <= 'Z' || '0' <= c <= '9' || c in SIGNS || c in {'_', ' ', '\r', '\n', '#'}
  {
    hide Keyword, Value, Lexed;
    OneRound(c);
  }

  lemma OneRound(c: char)
    ensures Tokens([c]).Next? <==> c == ' ' || (c != '\t' && Scanned([c], Begin().(start := false)).Next?)
  {
    hide Scanned, Adjusted;
    var src, s := [c], Begin();
    assert c == ' ' ==> RunEnd(src, 1, c => c == ' ') == 1;
    assert RunEnd(src, 0, c => c == ' ') == if c == ' ' then 1 else 0;
    if c != ' ' && c != '\t' {
      LevelStays(s.(start := false));
      LastRound(src, s.(start := false));
    }
  }

  lemma LevelStays(s: LState)
    requires s.stack == [0]
    ensures Adjusted(s, 0) == Next(s)
  {
  }

  lemma LastRound(src: string, s: LState)
    requires |src| == 1 && PyLexer.Sound(src, s) && s.pos == 0 && !s.start
    ensures Lexed(src, s).Next? <==> Scanned(src, s).Next?
  {
    hide Scanned;
    if Scanned(src, s).Next? {
      var r := Scanned(src, s).s;
      assert PyLexer.Sound(src, r) && r.pos == 1;
    }
  }
}
