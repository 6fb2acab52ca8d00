/** Layout that does not matter: comments, blank lines and blanks between tokens. */
module PyLayout {
  import opened Wrappers
  import opened PyTokens
  import opened PyLexer

  // ---- what a character is part of ----

  /**
   * Code, a string literal that is open, one whose next character is escaped, a comment, or a literal cut by a newline.
   */
  datatype Mode = Code | Quoted(q: char) | Escaped(q: char) | Comment | Cut

  function After(m: Mode, c: char): Mode {
    match m
    case Code => if c == '"' || c == '\'' then Quoted(c) else if c == '#' then Comment else Code
    case Quoted(q) => if c == q then Code else if c == '\n' then Cut else if c == '\\' then Escaped(q) else Quoted(q)
    case Escaped(q) => if c == '\n' then Cut else Quoted(q)
    case Comment => if c == '\n' then Code else Comment
    case Cut => Cut
  }

  /** Where a text leaves off. */
  function ModeOf(s: string): Mode { if s == [] then Code else After(ModeOf(s[..|s| - 1]), s[|s| - 1]) }

  lemma ModeNext(s: string, p: nat)
    requires p < |s|
    ensures ModeOf(s[..p + 1]) == After(ModeOf(s[..p]), s[p])
  {
    assert s[..p + 1][..p] == s[..p];
  }

  /** Characters that open nothing leave code as it is. */
  lemma {:induction false} ModeRun(s: string, p: nat, e: nat)
    requires p <= e <= |s| && ModeOf(s[..p]) == Code && forall i :: p <= i < e ==> s[i] !in {'"', '\'', '#'}
    ensures ModeOf(s[..e]) == Code
    decreases e - p
  {
    if p < e {
      ModeRun(s, p, e - 1);
      ModeNext(s, e - 1);
    }
  }

  lemma {:induction false} ModeComment(s: string, p: nat, e: nat)
    requires p <= e <= |s| && ModeOf(s[..p]) == Comment && forall i :: p <= i < e ==> s[i] != '\n'
    ensures ModeOf(s[..e]) == Comment
    decreases e - p
  {
    if p < e {
      ModeComment(s, p, e - 1);
      ModeNext(s, e - 1);
    }
  }

  lemma {:induction false} ModeCut(s: string, p: nat, e: nat)
    requires p <= e <= |s| && ModeOf(s[..p]) == Cut
    ensures ModeOf(s[..e]) == Cut
    decreases e - p
  {
    if p < e {
      ModeCut(s, p, e - 1);
      ModeNext(s, e - 1);
    }
  }

  /** One character of an open literal, or an escape and what it takes along, or the closing quote. */
  lemma QuotedStep(a: string, p: nat, q: char) returns (n: nat)
    requires p <= |a| && ModeOf(a[..p]) == Quoted(q) && ModeOf(a) == Code && (q == '"' || q == '\'')
    ensures p < |a| && n <= 2 && (n == 0 <==> a[p] == q)
    ensures n == 0 ==> ModeOf(a[..p + 1]) == Code
    ensures n == 1 ==> p + 1 <= |a| && ModeOf(a[..p + 1]) == Quoted(q) && a[p] !in {'\\', '\n'}
    ensures n == 2 ==> p + 2 <= |a| && ModeOf(a[..p + 2]) == Quoted(q) && a[p] == '\\' && a[p + 1] != '\n'
  {
    hide ModeOf;
    assert a[..|a|] == a;
    ModeNext(a, p);
    n := if a[p] == q then 0 else if a[p] == '\\' then 2 else 1;
    if n > 0 && a[p] == '\n' {
      ModeCut(a, p + 1, |a|);
    }
    if n == 2 {
      ModeNext(a, p + 1);
      if a[p + 1] == '\n' {
        ModeCut(a, p + 2, |a|);
      }
    }
  }

  lemma EndStep(s: string, p: nat, n: nat, q: char)
    requires p < |s| && p + n <= |s| && s[p] != q
    requires if s[p] == '\\' then n == 2 && s[p + 1] != '\n' else n == 1 && s[p] != '\n'
    ensures StringEnd(s, p, q) == StringEnd(s, p + n, q)
  {
  }

  /** A literal begun in code is closed in a text that ends in code, at the same place whatever follows. */
  lemma {:induction false} QuotedEnds(a: string, r: string, p: nat, q: char)
    requires p <= |a| && ModeOf(a[..p]) == Quoted(q) && ModeOf(a) == Code && (q == '"' || q == '\'')
    ensures var e := StringEnd(a, p, q);
      e < |a| && a[e] == q && StringEnd(a + r, p, q) == e && ModeOf(a[..e + 1]) == Code && '\n' !in a[p..e]
    decreases |a| - p
  {
    hide ModeOf, StringEnd;
    var n := QuotedStep(a, p, q);
    if n == 0 {
      EndHere(a, p, q);
      EndHere(a + r, p, q);
    } else {
      EndStep(a, p, n, q);
      EndStep(a + r, p, n, q);
      QuotedEnds(a, r, p + n, q);
      var e := StringEnd(a, p + n, q);
      assert a[p..e] == a[p..p + n] + a[p + n..e];
    }
  }

  lemma EndHere(s: string, p: nat, q: char)
    requires p < |s| && s[p] == q
    ensures StringEnd(s, p, q) == p
  {
  }

  // ---- what is lexed before a cut ----

  /** Characters that a cut between them could separate. */
  predicate Merges(x: char, y: char) {
    (Alnum(x) && Alnum(y)) || (x in {'=', '!', '<', '>'} && y == '=') || (x == '/' && y == '/')
  }

  /** `r` may follow `a` without changing what its last token is. */
  predicate Apart(a: string, r: string) { a == [] || r == [] || !Merges(a[|a| - 1], r[0]) }

  predicate AllSpaces(s: string) { forall i :: 0 <= i < |s| ==> s[i] == ' ' }

  /** The rounds that take the lexer to the end of a text, or to the spaces that begin its last line. */
  function Upto(a: string, s: LState): (r: Outcome)
    requires PyLexer.Sound(a, s)
    ensures r.Next? ==> PyLexer.Sound(a, r.s) && s.pos <= r.s.pos
    ensures r.Next? ==> r.s.pos == |a| || (r.s.start && AllSpaces(a[r.s.pos..]))
    decreases |a| - s.pos
  {
    if s.pos == |a| || (s.start && AllSpaces(a[s.pos..])) then Next(s)
    else
      var s1 := if s.start then Indented(a, s) else Next(s);
      if s1.Fail? || s1.s.pos == |a| then s1
      else
        var s2 := Scanned(a, s1.s);
        if s2.Fail? then s2 else Upto(a, s2.s)
  }

  lemma RunIs(s: string, p: nat, e: nat, f: char -> bool)
    requires p <= e <= |s| && (forall i :: p <= i < e ==> f(s[i])) && (e < |s| ==> !f(s[e]))
    ensures RunEnd(s, p, f) == e
  {
    var k := RunEnd(s, p, f);
  }

  /** An indentation that does not reach the cut is what it is without what follows. */
  lemma IndentedApart(a: string, r: string, s: LState)
    requires s.pos <= |a| && 0 < |s.stack| <= MAX_INDENT && !AllSpaces(a[s.pos..])
    ensures Indented(a + r, s) == Indented(a, s) && (Indented(a, s).Next? ==> Indented(a, s).s.pos < |a|)
    ensures Indented(a, s).Next? ==> forall i :: s.pos <= i < Indented(a, s).s.pos ==> a[i] == ' '
  {
    hide Adjusted;
    var e := RunEnd(a, s.pos, c => c == ' ');
    var k :| 0 <= k < |a[s.pos..]| && a[s.pos..][k] != ' ';
    assert a[s.pos + k] != ' ';
    RunIs(a + r, s.pos, e, c => c == ' ');
    AdjustedPos(s.(pos := e, start := false), e - s.pos);
  }

  lemma AdjustedPos(s: LState, n: nat)
    requires 0 < |s.stack| <= MAX_INDENT
    ensures Adjusted(s, n).Next? ==> Adjusted(s, n).s.pos == s.pos
  {
  }

  /** Where a round may begin: in code, or at the newline behind a comment. */
  predicate Held(a: string, p: nat)
    requires p <= |a|
  {
    ModeOf(a[..p]) == Code || (ModeOf(a[..p]) == Comment && p < |a| && a[p] == '\n')
  }

  /** A round at the end of whose text a line starts if and only if the text ends with a newline. */
  predicate Fine(a: string, s: LState) {
    s.pos <= |a| && Held(a, s.pos) && (s.start <==> s.pos == 0 || a[s.pos - 1] == '\n')
  }

  lemma WordApart(a: string, r: string, s: LState)
    requires s.pos < |a| && ModeOf(a[..s.pos]) == Code && Apart(a, r) && Alnum(a[s.pos]) && !s.start
    ensures Scanned(a + r, s) == Scanned(a, s) && Scanned(a, s).Next? && Fine(a, Scanned(a, s).s)
  {
    hide ModeOf, Keyword, Value, OpAt;
    var p, src := s.pos, a + r;
    var f := if Alpha(a[p]) then c => Alnum(c) else c => Digit(c);
    if Alpha(a[p]) {
      var e := RunEnd(a, p, c => Alnum(c));
      RunIs(src, p, e, c => Alnum(c));
      assert src[p..e] == a[p..e];
      ModeRun(a, p, e);
    } else {
      var e := RunEnd(a, p, c => Digit(c));
      RunIs(src, p, e, c => Digit(c));
      assert src[p..e] == a[p..e];
      ModeRun(a, p, e);
    }
  }

  lemma LiteralIs(src: string, s: LState, e: nat)
    requires s.pos < |src| && src[s.pos] in {'"', '\''} && e == StringEnd(src, s.pos + 1, src[s.pos])
    ensures Scanned(src, s) ==
      if e == |src| || src[e] != src[s.pos] then Fail(Unterminated)
      else Next(s.(pos := e + 1, toks := s.toks + [Tok(STRING, src[s.pos + 1..e], 0)]))
  {
    hide Keyword, Value, OpAt, StringEnd, RunEnd;
  }

  lemma LiteralApart(a: string, r: string, s: LState)
    requires s.pos < |a| && ModeOf(a[..s.pos]) == Code && ModeOf(a) == Code && (a[s.pos] == '"' || a[s.pos] == '\'')
    requires !s.start
    ensures Scanned(a + r, s) == Scanned(a, s) && Scanned(a, s).Next? && Fine(a, Scanned(a, s).s)
  {
    hide ModeOf, Scanned, StringEnd;
    var p := s.pos;
    ModeNext(a, p);
    QuotedEnds(a, r, p + 1, a[p]);
    var e := StringEnd(a, p + 1, a[p]);
    assert (a + r)[p + 1..e] == a[p + 1..e];
    LiteralIs(a, s, e);
    LiteralIs(a + r, s, e);
  }

  lemma CommentApart(a: string, r: string, s: LState)
    requires s.pos < |a| && ModeOf(a[..s.pos]) == Code && ModeOf(a) == Code && a[s.pos] == '#' && !s.start
    ensures Scanned(a + r, s) == Scanned(a, s) && Scanned(a, s).Next? && Fine(a, Scanned(a, s).s)
  {
    hide ModeOf, Keyword, Value, OpAt, StringEnd;
    var p := s.pos;
    ModeNext(a, p);
    var e := RunEnd(a, p, c => c != '\n');
    ModeComment(a, p + 1, e);
    assert a[..|a|] == a;
    RunIs(a + r, p, e, c => c != '\n');
  }

  lemma OpApart(a: string, r: string, s: LState)
    requires s.pos < |a| && ModeOf(a[..s.pos]) == Code && Apart(a, r) && !s.start
    requires a[s.pos] !in {' ', '\t', '\r', '#', '\n', '"', '\''} && !Alnum(a[s.pos])
    ensures Scanned(a + r, s) == Scanned(a, s) && (Scanned(a, s).Next? ==> Fine(a, Scanned(a, s).s))
  {
    hide ModeOf, Keyword, Value, StringEnd, RunEnd, OpAt;
    SameOp(a, r, s.pos);
    if Scanned(a, s).Next? {
      ModeRun(a, s.pos, Scanned(a, s).s.pos);
    }
  }

  lemma SameOp(a: string, r: string, p: nat)
    requires p < |a| && Apart(a, r)
    ensures OpAt(a + r, p) == OpAt(a, p)
    ensures OpAt(a, p).Op? ==> a[p] !in {'"', '\'', '#', '\n'} && (OpAt(a, p).len == 2 ==> a[p + 1] in {'=', '/'})
  {
  }

  lemma PlainApart(a: string, r: string, s: LState)
    requires s.pos < |a| && Held(a, s.pos) && a[s.pos] in {' ', '\t', '\r', '\n'} && !s.start
    ensures Scanned(a + r, s) == Scanned(a, s) && Scanned(a, s).Next? && Fine(a, Scanned(a, s).s)
  {
    hide ModeOf, Keyword, Value, StringEnd, RunEnd, OpAt;
    ModeNext(a, s.pos);
  }

  /** A round before the cut is what it is without what follows. */
  lemma ScannedApart(a: string, r: string, s: LState)
    requires s.pos < |a| && Held(a, s.pos) && ModeOf(a) == Code && Apart(a, r) && !s.start
    ensures Scanned(a + r, s) == Scanned(a, s) && (Scanned(a, s).Next? ==> Fine(a, Scanned(a, s).s))
  {
    hide Scanned, ModeOf, Fine;
    var c := a[s.pos];
    if c in {' ', '\t', '\r', '\n'} {
      PlainApart(a, r, s);
    } else if c == '#' {
      CommentApart(a, r, s);
    } else if c == '"' || c == '\'' {
      LiteralApart(a, r, s);
    } else if Alnum(c) {
      WordApart(a, r, s);
    } else {
      OpApart(a, r, s);
    }
  }

  lemma {:induction false} SpacesHeld(a: string, p: nat, e: nat)
    requires p <= e <= |a| && Held(a, p) && forall i :: p <= i < e ==> a[i] == ' '
    ensures Held(a, e)
  {
    if p < e {
      ModeRun(a, p, e);
    }
  }

  /** What is lexed before a cut does not depend on what is behind it. */
  lemma {:induction false} LexedApart(a: string, r: string, s: LState)
    requires PyLexer.Sound(a, s) && Fine(a, s) && ModeOf(a) == Code && Apart(a, r)
    ensures PyLexer.Sound(a + r, s)
    ensures Upto(a, s).Next? ==> PyLexer.Sound(a + r, Upto(a, s).s) && Fine(a, Upto(a, s).s)
    ensures Lexed(a + r, s) == if Upto(a, s).Fail? then Upto(a, s) else Lexed(a + r, Upto(a, s).s)
    decreases |a| - s.pos
  {
    hide Scanned, Indented, ModeOf, Apart;
    if s.pos < |a| && !(s.start && AllSpaces(a[s.pos..])) {
      var s1 := if s.start then Indented(a, s) else Next(s);
      if s.start {
        IndentedApart(a, r, s);
      }
      if s1.Next? {
        SpacesHeld(a, s.pos, s1.s.pos);
        ScannedApart(a, r, s1.s);
        var s2 := Scanned(a, s1.s);
        if s2.Next? {
          LexedApart(a, r, s2.s);
        }
      }
    }
  }

  // ---- what is lexed behind a cut ----

  /** From `p` on the one text is what the other is from `q` on. */
  ghost predicate Level(a: string, p: nat, b: string, q: nat) {
    p <= |a| && q <= |b| && a[p..] == b[q..]
  }

  lemma LevelChars(a: string, p: nat, b: string, q: nat)
    requires Level(a, p, b, q)
    ensures p <= |a| && q <= |b| && |a| - p == |b| - q
    ensures forall k :: p <= k < |a| ==> a[k] == b[k - p + q]
  {
    forall k | p <= k < |a| ensures a[k] == b[k - p + q] {
      assert a[k] == a[p..][k - p];
    }
  }

  /** The two lexers agree but for where they are and what they have. */
  ghost predicate Alike(a: string, s: LState, b: string, t: LState) {
    Level(a, s.pos, b, t.pos) && s.start == t.start && s.stack == t.stack
  }

  /** The same tokens were added, or the same error arose. */
  ghost predicate SameMore(s: LState, r: Outcome, t: LState, q: Outcome) {
    if r.Fail? then q == r
    else
      && q.Next? && r.s.stack == q.s.stack && s.toks <= r.s.toks && t.toks <= q.s.toks
      && r.s.toks[|s.toks|..] == q.s.toks[|t.toks|..]
  }

  lemma MoreOnce(s: LState, r: Outcome, t: LState, q: Outcome, x: seq<Tok>)
    requires r.Next? && q.Next? && r.s.toks == s.toks + x && q.s.toks == t.toks + x && r.s.stack == q.s.stack
    ensures SameMore(s, r, t, q)
  {
  }

  lemma MoreFail(s: LState, r: Outcome, t: LState)
    requires r.Fail?
    ensures SameMore(s, r, t, r)
  {
  }

  lemma MoreThen(s: LState, s1: LState, r: Outcome, t: LState, t1: LState, q: Outcome)
    requires SameMore(s, Next(s1), t, Next(t1)) && SameMore(s1, r, t1, q)
    ensures SameMore(s, r, t, q)
  {
    if r.Next? {
      var x, y := s1.toks[|s.toks|..], r.s.toks[|s1.toks|..];
      assert s1.toks == s.toks + x && t1.toks == t.toks + x;
      assert r.s.toks == s.toks + (x + y) && q.s.toks == t.toks + (x + y);
    }
  }

  lemma RunLevel(a: string, p: nat, b: string, q: nat, f: char -> bool)
    requires Level(a, p, b, q)
    ensures RunEnd(b, q, f) - q == RunEnd(a, p, f) - p && a[p..RunEnd(a, p, f)] == b[q..RunEnd(b, q, f)]
  {
    LevelChars(a, p, b, q);
    LevelChars(b, q, a, p);
    var e := RunEnd(a, p, f);
    RunIs(b, q, q + (e - p), f);
    assert a[p..e] == a[p..][..e - p];
  }

  lemma EndIs(s: string, p: nat, c: char)
    requires p <= |s|
    ensures StringEnd(s, p, c) ==
      if p == |s| || s[p] == c || (s[p] != '\\' && s[p] == '\n') then p
      else if s[p] != '\\' then StringEnd(s, p + 1, c)
      else if p + 1 == |s| || s[p + 1] == '\n' then p + 1
      else StringEnd(s, p + 2, c)
  {
  }

  lemma {:induction false} LiteralLevel(a: string, p: nat, b: string, q: nat, c: char)
    requires Level(a, p, b, q)
    ensures StringEnd(b, q, c) - q == StringEnd(a, p, c) - p
    decreases |a| - p
  {
    hide StringEnd, Level;
    LevelChars(a, p, b, q);
    EndIs(a, p, c);
    EndIs(b, q, c);
    if p < |a| {
      LevelOn(a, p, b, q, 1);
      LiteralLevel(a, p + 1, b, q + 1, c);
      if p + 1 < |a| {
        LevelOn(a, p, b, q, 2);
        LiteralLevel(a, p + 2, b, q + 2, c);
      }
    }
  }

  lemma OpLevel(a: string, p: nat, b: string, q: nat)
    requires Level(a, p, b, q) && p < |a|
    ensures OpAt(b, q) == OpAt(a, p)
  {
    LevelChars(a, p, b, q);
  }

  lemma {:induction false} DedentsMore(stack: seq<nat>, toks: seq<Tok>, toks': seq<Tok>, n: nat)
    requires |stack| > 0
    ensures var (st, ts), (st', ts') := Dedents(stack, toks, n), Dedents(stack, toks', n);
      && st == st' && toks <= ts && toks' <= ts' && ts[|toks|..] == ts'[|toks'|..]
    decreases |stack|
  {
    if |stack| > 1 && stack[|stack| - 1] > n {
      var d := [Plain(DEDENT)];
      DedentsMore(stack[..|stack| - 1], toks + d, toks' + d, n);
      var ts, ts' := Dedents(stack, toks, n).1, Dedents(stack, toks', n).1;
      assert ts == toks + (d + ts[|toks + d|..]) && ts' == toks' + (d + ts'[|toks' + d|..]);
    }
  }

  lemma AdjustedMore(s: LState, t: LState, n: nat)
    requires 0 < |s.stack| <= MAX_INDENT && s.stack == t.stack && s.start == t.start
    ensures SameMore(s, Adjusted(s, n), t, Adjusted(t, n))
    ensures Adjusted(s, n).Next? ==> Adjusted(s, n).s.pos == s.pos && Adjusted(t, n).s.pos == t.pos
  {
    DedentsMore(s.stack, s.toks, t.toks, n);
  }

  lemma IndentedLevel(a: string, s: LState, b: string, t: LState)
    requires Alike(a, s, b, t) && 0 < |s.stack| <= MAX_INDENT
    ensures var r, q := Indented(a, s), Indented(b, t);
      SameMore(s, r, t, q) && (r.Next? ==> Alike(a, r.s, b, q.s))
  {
    hide Adjusted, SameMore;
    RunLevel(a, s.pos, b, t.pos, c => c == ' ');
    var e := RunEnd(a, s.pos, c => c == ' ');
    var n := e - s.pos;
    var s1, t1 := s.(pos := e, start := false), t.(pos := t.pos + n, start := false);
    LevelChars(a, s.pos, b, t.pos);
    LevelOn(a, s.pos, b, t.pos, n);
    AdjustedMore(s1, t1, n);
    MoreOnce(s, Next(s1), t, Next(t1), []);
    MoreFail(s, Fail(Tabs), t);
    MoreThen(s, s1, Adjusted(s1, n), t, t1, Adjusted(t1, n));
    MoreStart(s1, Adjusted(s1, n), t1, Adjusted(t1, n));
    AdjustedStart(s1, n);
    AdjustedStart(t1, n);
  }

  lemma AdjustedStart(s: LState, n: nat)
    requires 0 < |s.stack| <= MAX_INDENT
    ensures Adjusted(s, n).Next? ==> Adjusted(s, n).s.start == s.start
  {
  }

  lemma MoreStart(s: LState, r: Outcome, t: LState, q: Outcome)
    requires SameMore(s, r, t, q)
    ensures r.Next? ==> q.Next? && r.s.stack == q.s.stack
    ensures r.Fail? <==> q.Fail?
  {
  }

  lemma LevelOn(a: string, p: nat, b: string, q: nat, n: nat)
    requires Level(a, p, b, q) && n <= |a| - p
    ensures Level(a, p + n, b, q + n)
  {
    assert a[p + n..] == a[p..][n..] && b[q + n..] == b[q..][n..];
  }

  lemma ScannedLevel(a: string, s: LState, b: string, t: LState)
    requires Alike(a, s, b, t) && s.pos < |a|
    ensures var r, q := Scanned(a, s), Scanned(b, t);
      SameMore(s, r, t, q) && (r.Next? ==> Alike(a, r.s, b, q.s))
  {
    hide Keyword, Value, OpAt, StringEnd, RunEnd, SameMore, Level;
    var p, c := s.pos, a[s.pos];
    LevelChars(a, p, b, t.pos);
    var r, q := Scanned(a, s), Scanned(b, t);
    ScannedBy(a, s, b, t);
    if r.Fail? {
      MoreFail(s, r, t);
    } else {
      var x := r.s.toks[|s.toks|..];
      MoreOnce(s, r, t, q, x);
      LevelOn(a, p, b, t.pos, r.s.pos - p);
    }
  }

  /** One round went equally far and added the same. */
  ghost predicate SameRound(s: LState, r: Outcome, t: LState, q: Outcome) {
    if r.Fail? then q == r
    else
      && q.Next? && q.s.pos - t.pos == r.s.pos - s.pos && q.s.start == r.s.start && q.s.stack == r.s.stack
      && s.toks <= r.s.toks && q.s.toks == t.toks + r.s.toks[|s.toks|..]
      && r.s.toks == s.toks + r.s.toks[|s.toks|..]
  }

  lemma RoundOf(s: LState, t: LState, n: nat, start: bool, x: seq<Tok>)
    requires s.stack == t.stack
    ensures SameRound(s, Next(s.(pos := s.pos + n, start := start, toks := s.toks + x)), t,
                      Next(t.(pos := t.pos + n, start := start, toks := t.toks + x)))
  {
  }

  lemma WordBy(a: string, s: LState, b: string, t: LState)
    requires Alike(a, s, b, t) && s.pos < |a| && t.pos < |b| && a[s.pos] == b[t.pos] && Alnum(a[s.pos])
    ensures SameRound(s, Scanned(a, s), t, Scanned(b, t))
  {
    hide Keyword, Value, OpAt, StringEnd, RunEnd, Level, SameRound;
    var p, c := s.pos, a[s.pos];
    if Alpha(c) {
      RunLevel(a, p, b, t.pos, c => Alnum(c));
      var w := a[p..RunEnd(a, p, c => Alnum(c))];
      RoundOf(s, t, |w|, s.start, [Tok(Keyword(w), w, 0)]);
    } else {
      RunLevel(a, p, b, t.pos, c => Digit(c));
      var w := a[p..RunEnd(a, p, c => Digit(c))];
      RoundOf(s, t, |w|, s.start, [Tok(NUMBER, w, Value(w))]);
    }
  }

  lemma LiteralBy(a: string, s: LState, b: string, t: LState)
    requires Alike(a, s, b, t) && s.pos < |a| && t.pos < |b| && a[s.pos] == b[t.pos] && a[s.pos] in {'"', '\''}
    ensures SameRound(s, Scanned(a, s), t, Scanned(b, t))
  {
    hide Scanned, StringEnd, Level, SameRound;
    var p, c := s.pos, a[s.pos];
    LevelChars(a, p, b, t.pos);
    LevelOn(a, p, b, t.pos, 1);
    LiteralLevel(a, p + 1, b, t.pos + 1, c);
    var e := StringEnd(a, p + 1, c);
    LiteralText(a, p + 1, b, t.pos + 1, e - p - 1);
    LiteralIs(a, s, e);
    LiteralIs(b, t, t.pos + (e - p));
    RoundOf(s, t, e + 1 - p, s.start, [Tok(STRING, a[p + 1..e], 0)]);
    RoundFailed(s, Fail(Unterminated), t);
  }

  lemma RoundFailed(s: LState, r: Outcome, t: LState)
    requires r.Fail?
    ensures SameRound(s, r, t, r)
  {
  }

  lemma OtherBy(a: string, s: LState, b: string, t: LState)
    requires Alike(a, s, b, t) && s.pos < |a| && t.pos < |b| && a[s.pos] == b[t.pos]
    requires !Alnum(a[s.pos]) && a[s.pos] !in {'"', '\''}
    ensures SameRound(s, Scanned(a, s), t, Scanned(b, t))
  {
    hide Keyword, Value, OpAt, StringEnd, RunEnd, Level, SameRound;
    var p, c := s.pos, a[s.pos];
    assert s.toks + [] == s.toks && t.toks + [] == t.toks;
    RoundOf(s, t, 1, s.start, []);
    RoundOf(s, t, 1, true, [Plain(NEWLINE)]);
    RoundFailed(s, Fail(Invalid), t);
    if c == '#' {
      RunLevel(a, p, b, t.pos, c => c != '\n');
      RoundOf(s, t, RunEnd(a, p, c => c != '\n') - p, s.start, []);
    } else {
      OpLevel(a, p, b, t.pos);
      if OpAt(a, p).Op? {
        RoundOf(s, t, OpAt(a, p).len, s.start, [Plain(OpAt(a, p).kind)]);
      }
    }
  }

  lemma ScannedBy(a: string, s: LState, b: string, t: LState)
    requires Alike(a, s, b, t) && s.pos < |a| && t.pos < |b| && a[s.pos] == b[t.pos]
    ensures SameRound(s, Scanned(a, s), t, Scanned(b, t))
  {
    hide Scanned, Level, SameRound;
    if Alnum(a[s.pos]) {
      WordBy(a, s, b, t);
    } else if a[s.pos] in {'"', '\''} {
      LiteralBy(a, s, b, t);
    } else {
      OtherBy(a, s, b, t);
    }
  }

  lemma LiteralText(a: string, p: nat, b: string, q: nat, n: nat)
    requires Level(a, p, b, q) && n <= |a| - p
    ensures q + n <= |b| && a[p..p + n] == b[q..q + n] && (p + n == |a| <==> q + n == |b|)
    ensures p + n < |a| ==> a[p + n] == b[q + n]
  {
    LevelChars(a, p, b, q);
    assert a[p..p + n] == a[p..][..n] && b[q..q + n] == b[q..][..n];
  }

  /** What is lexed from a state on depends on what is left of the source and on the block structure only. */
  lemma {:induction false} LexedLevel(a: string, s: LState, b: string, t: LState)
    requires Alike(a, s, b, t) && PyLexer.Sound(a, s) && PyLexer.Sound(b, t)
    ensures SameMore(s, Lexed(a, s), t, Lexed(b, t))
    decreases |a| - s.pos
  {
    hide Scanned, Indented, SameMore, Level;
    LevelChars(a, s.pos, b, t.pos);
    if s.pos == |a| {
      ClosedMore(s, t);
    } else {
      var s1 := if s.start then Indented(a, s) else Next(s);
      var t1 := if s.start then Indented(b, t) else Next(t);
      if s.start {
        IndentedLevel(a, s, b, t);
      } else {
        MoreOnce(s, s1, t, t1, []);
      }
      MoreStart(s, s1, t, t1);
      if s1.Next? {
        LevelChars(a, s1.s.pos, b, t1.s.pos);
        if s1.s.pos == |a| {
          ClosedMore(s1.s, t1.s);
          MoreThen(s, s1.s, Next(Closed(s1.s)), t, t1.s, Next(Closed(t1.s)));
        } else {
          ScannedLevel(a, s1.s, b, t1.s);
          var s2, t2 := Scanned(a, s1.s), Scanned(b, t1.s);
          MoreThen(s, s1.s, s2, t, t1.s, t2);
          MoreStart(s1.s, s2, t1.s, t2);
          if s2.Next? {
            LexedLevel(a, s2.s, b, t2.s);
            MoreThen(s, s2.s, Lexed(a, s2.s), t, t2.s, Lexed(b, t2.s));
          }
        }
      }
    }
  }

  lemma ClosedMore(s: LState, t: LState)
    requires s.stack == t.stack && |s.stack| > 0
    ensures SameMore(s, Next(Closed(s)), t, Next(Closed(t)))
  {
    var x := Owed(|s.stack| - 1) + [Plain(EOF)];
    assert Closed(s).toks == s.toks + x && Closed(t).toks == t.toks + x;
    MoreOnce(s, Next(Closed(s)), t, Next(Closed(t)), x);
  }

  // ---- layout that does not matter ----

  ghost predicate SameTokens(r: Outcome, q: Outcome) { if r.Fail? then q == r else q.Next? && q.s.toks == r.s.toks }

  /** Nothing but spaces since the last newline. */
  predicate Indenting(a: string) {
    a == [] || a[|a| - 1] == '\n' || (a[|a| - 1] == ' ' && Indenting(a[..|a| - 1]))
  }

  lemma {:induction false} IndentingFrom(a: string, p: nat)
    requires p <= |a| && AllSpaces(a[p..]) && (p == 0 || a[p - 1] == '\n')
    ensures Indenting(a)
    decreases |a|
  {
    if p < |a| {
      assert a[|a| - 1] == a[p..][|a| - 1 - p];
      assert a[..|a| - 1][p..] == a[p..][..|a| - 1 - p];
      IndentingFrom(a[..|a| - 1], p);
    }
  }

  /** A round of the loop. */
  lemma LexedRound(src: string, s: LState, m: LState)
    requires PyLexer.Sound(src, s) && PyLexer.Sound(src, m) && s.pos < |src| && s.start && Indented(src, s) == Next(m)
    ensures Lexed(src, s) == Lexed(src, m) && !m.start
  {
    hide Scanned;
  }

  lemma LexedStep(src: string, m: LState, n: LState)
    requires PyLexer.Sound(src, m) && PyLexer.Sound(src, n) && m.pos < |src| && !m.start && Scanned(src, m) == Next(n)
    ensures Lexed(src, m) == Lexed(src, n)
  {
    hide Indented;
  }

  /** The spaces of a line that has nothing, or a comment, behind them. */
  lemma SpacesThen(src: string, s: LState, e: nat)
    requires s.pos <= e <= |src| && 0 < |s.stack| <= MAX_INDENT && forall i :: s.pos <= i < e ==> src[i] == ' '
    requires e == |src| || src[e] in {'\n', '#'}
    ensures Indented(src, s) == Next(s.(pos := e, start := false))
  {
    RunIs(src, s.pos, e, c => c == ' ');
  }

  /** The state in which the lexer is at a cut behind which a line ends. */
  lemma AtCut(a: string, r: string, s: LState) returns (m: LState)
    requires PyLexer.Sound(a, s) && (s.pos == |a| || (s.start && AllSpaces(a[s.pos..])))
    requires r == [] || r[0] in {'\n', '#'}
    ensures m == s.(pos := |a|, start := false) && PyLexer.Sound(a + r, m) && PyLexer.Sound(a + r, s)
    ensures SameTokens(Lexed(a + r, m), Lexed(a + r, s))
  {
    m := s.(pos := |a|, start := false);
    var src := a + r;
    if s.start {
      assert forall i :: s.pos <= i < |a| ==> a[i] == a[s.pos..][i - s.pos];
      if s.pos < |src| {
        SpacesThen(src, s, |a|);
        LexedRound(src, s, m);
      }
    }
  }

  /** A comment behind code, at the end of a line. */
  lemma CommentBehind(a: string, text: string, rest: string)
    requires ModeOf(a) == Code && '\n' !in text && (rest == [] || rest[0] == '\n')
    ensures SameTokens(Tokens(a + rest), Tokens(a + ("#" + text + rest)))
  {
    hide Lexed, Scanned, Indented, ModeOf, SameMore, Level;
    var r, src, src' := "#" + text + rest, a + rest, a + ("#" + text + rest);
    Started(a);
    LexedApart(a, rest, Begin());
    LexedApart(a, r, Begin());
    var u := Upto(a, Begin());
    if u.Next? {
      var m := AtCut(a, rest, u.s);
      var m' := AtCut(a, r, u.s);
      var n := m.(pos := |a| + 1 + |text|);
      CommentSkipped(src', m, n, text, rest);
      LexedStep(src', m, n);
      SameTail(a, rest, a + "#" + text);
      assert a + "#" + text + rest == src';
      LexedLevel(src, m, src', n);
      SameFrom(m, Lexed(src, m), n, Lexed(src', n));
    }
  }

  lemma Started(a: string)
    ensures PyLexer.Sound(a, Begin()) && Fine(a, Begin())
  {
    assert a[..0] == [];
  }

  lemma SameTail(a: string, rest: string, b: string)
    ensures Level(a + rest, |a|, b + rest, |b|)
  {
    assert (a + rest)[|a|..] == rest == (b + rest)[|b|..];
  }

  lemma SameFrom(s: LState, r: Outcome, t: LState, q: Outcome)
    requires SameMore(s, r, t, q) && s.toks == t.toks
    ensures SameTokens(r, q)
  {
    if r.Next? {
      assert r.s.toks == s.toks + r.s.toks[|s.toks|..];
    }
  }

  lemma CommentSkipped(src: string, m: LState, n: LState, text: string, rest: string)
    requires m.pos + 1 + |text| + |rest| == |src| && src[m.pos..] == "#" + text + rest && '\n' !in text
    requires rest == [] || rest[0] == '\n'
    requires n == m.(pos := m.pos + 1 + |text|)
    ensures m.pos < |src| && src[m.pos] == '#' && Scanned(src, m) == Next(n)
  {
    var t := "#" + text + rest;
    assert forall i :: m.pos <= i < |src| ==> src[i] == src[m.pos..][i - m.pos] == t[i - m.pos];
    assert forall i :: 0 <= i <= |text| ==> t[i] != '\n' by {
      assert forall i :: 0 < i <= |text| ==> t[i] == text[i - 1] && text[i - 1] in text;
    }
    RunIs(src, m.pos, n.pos, c => c != '\n');
  }

  /** Where the comment a text leaves off in began. */
  lemma {:induction false} CommentOpen(a: string) returns (k: nat)
    requires ModeOf(a) == Comment
    ensures k < |a| && ModeOf(a[..k]) == Code && a[k] == '#' && '\n' !in a[k + 1..]
    decreases |a|
  {
    var f := a[..|a| - 1];
    if ModeOf(f) == Code {
      k := |a| - 1;
    } else {
      k := CommentOpen(f);
      assert a[..k] == f[..k] && a[k + 1..] == f[k + 1..] + [a[|a| - 1]];
    }
  }

  /**
   * A comment put in front of a newline, or at the end, where no string literal is open, changes no token.
   */
  lemma CommentIgnored(a: string, text: string, rest: string)
    requires ModeOf(a) in {Code, Comment} && '\n' !in text && (rest == [] || rest[0] == '\n')
    ensures SameTokens(Tokens(a + rest), Tokens(a + "#" + text + rest))
  {
    hide Tokens, ModeOf;
    if ModeOf(a) == Code {
      CommentBehind(a, text, rest);
      assert a + "#" + text + rest == a + ("#" + text + rest);
    } else {
      var k := CommentOpen(a);
      var b, t := a[..k], a[k + 1..];
      assert a == b + "#" + t;
      CommentBehind(b, t, rest);
      CommentBehind(b, t + "#" + text, rest);
      assert b + ("#" + t + rest) == a + rest;
      assert b + ("#" + (t + "#" + text) + rest) == a + "#" + text + rest;
    }
  }

  predicate Blank(c: char) { c == ' ' || c == '\t' || c == '\r' }

  /** The state at a cut behind which a line goes on: no line starts there. */
  lemma AtGap(a: string)
    requires ModeOf(a) == Code && !Indenting(a) && Upto(a, Begin()).Next? && Fine(a, Upto(a, Begin()).s)
    ensures Upto(a, Begin()).s.pos == |a| && !Upto(a, Begin()).s.start
  {
    hide ModeOf, Scanned, Indented;
    if Upto(a, Begin()).s.start {
      StartIndents(a, Upto(a, Begin()).s);
    }
  }

  lemma StartIndents(a: string, s: LState)
    requires Fine(a, s) && s.start && (s.pos == |a| || AllSpaces(a[s.pos..]))
    ensures Indenting(a)
  {
    hide ModeOf;
    assert s.pos == |a| ==> a[s.pos..] == [];
    IndentingFrom(a, s.pos);
  }

  /**
   * A blank between two characters that no token has next to each other, not at the start of a line, changes no token.
   */
  lemma BlankIgnored(a: string, c: char, b: string)
    requires ModeOf(a) == Code && !Indenting(a) && Blank(c) && Apart(a, b)
    ensures SameTokens(Tokens(a + b), Tokens(a + [c] + b))
  {
    hide Lexed, Scanned, Indented, ModeOf, SameMore, Level, Upto;
    var r := [c] + b;
    Started(a);
    LexedApart(a, b, Begin());
    LexedApart(a, r, Begin());
    assert a + r == a + [c] + b;
    var u := Upto(a, Begin());
    if u.Next? {
      AtGap(a);
      var m := u.s;
      var n := m.(pos := |a| + 1);
      BlankScanned(a + r, m);
      LexedStep(a + r, m, n);
      SameTail(a, b, a + [c]);
      LexedLevel(a + b, m, a + r, n);
      SameFrom(m, Lexed(a + b, m), n, Lexed(a + r, n));
    }
  }

  lemma BlankScanned(src: string, m: LState)
    requires m.pos < |src| && Blank(src[m.pos])
    ensures Scanned(src, m) == Next(m.(pos := m.pos + 1))
  {
  }

  /** Any more blanks where there is one already change no token. */
  lemma {:induction false} BlanksIgnored(a: string, c: char, w: string, b: string)
    requires ModeOf(a) == Code && !Indenting(a) && Blank(c) && forall i :: 0 <= i < |w| ==> Blank(w[i])
    ensures SameTokens(Tokens(a + [c] + b), Tokens(a + [c] + w + b))
    decreases |w|
  {
    hide Tokens, ModeOf, Indenting;
    if w == [] {
      assert a + [c] + w + b == a + [c] + b;
      TokensSame(a + [c] + b);
    } else {
      var a1 := a + [c];
      ModeBlank(a, c);
      BlanksIgnored(a1, w[0], w[1..], b);
      assert a1 + [w[0]] + w[1..] + b == a + [c] + w + b;
      BlankIgnored(a1, w[0], b);
    }
  }

  lemma TokensSame(s: string)
    ensures SameTokens(Tokens(s), Tokens(s))
  {
  }

  lemma ModeBlank(a: string, c: char)
    requires ModeOf(a) == Code && !Indenting(a) && Blank(c)
    ensures ModeOf(a + [c]) == Code && !Indenting(a + [c]) && forall b :: Apart(a + [c], b)
  {
    assert (a + [c])[..|a|] == a;
  }

  /** The text of a line of spaces and perhaps a comment. */
  function EmptyLine(n: nat, text: Option<string>): string {
    seq(n, _ => ' ') + (if text.Some? then "#" + text.value else "") + "\n"
  }

  /** Such a line adds one NEWLINE behind the tokens in front of it, and no block structure. */
  lemma LineIgnored(a: string, n: nat, text: Option<string>, rest: string)
    requires ModeOf(a) == Code && (a == [] || a[|a| - 1] == '\n') && (text.Some? ==> '\n' !in text.value)
    ensures var r, q, u := Tokens(a + rest), Tokens(a + EmptyLine(n, text) + rest), Upto(a, Begin());
      if r.Fail? then q == r
      else
        && u.Next? && q.Next? && u.s.toks <= r.s.toks && Tokens(a).Next? && u.s.toks <= Tokens(a).s.toks
        && q.s.toks == u.s.toks + [Plain(NEWLINE)] + r.s.toks[|u.s.toks|..]
  {
    hide Lexed, Scanned, Indented, ModeOf, SameMore, Level, Upto, EmptyLine;
    var l := EmptyLine(n, text);
    var src, src' := a + rest, a + l + rest;
    Started(a);
    assert a + (l + rest) == src' && a + [] == a;
    LineStarts(n, text);
    LexedApart(a, rest, Begin());
    LexedApart(a, l + rest, Begin());
    LexedApart(a, [], Begin());
    var u := Upto(a, Begin());
    if u.Next? {
      AtLine(a, u.s);
      var s := u.s;
      var t := s.(pos := |a| + |l|, toks := s.toks + [Plain(NEWLINE)]);
      LineSkipped(src', s, n, text, rest);
      SameTail(a, rest, a + l);
      LexedLevel(src, s, src', t);
      EndOfText(a, s);
      MoreIs(s, Lexed(src, s), t, Lexed(src', t));
    }
  }

  lemma LineStarts(n: nat, text: Option<string>)
    ensures |EmptyLine(n, text)| > 0 && EmptyLine(n, text)[0] in {' ', '#', '\n'}
  {
  }

  lemma AtLine(a: string, s: LState)
    requires Fine(a, s) && (a == [] || a[|a| - 1] == '\n') && (s.pos == |a| || (s.start && AllSpaces(a[s.pos..])))
    ensures s.pos == |a| && s.start
  {
    hide ModeOf;
    if s.pos < |a| {
      LastSpace(a, s.pos);
    }
  }

  lemma LastSpace(a: string, p: nat)
    requires p < |a| && AllSpaces(a[p..])
    ensures a[|a| - 1] == ' '
  {
    assert a[|a| - 1] == a[p..][|a| - 1 - p];
  }

  lemma EndOfText(a: string, s: LState)
    requires PyLexer.Sound(a, s) && s.pos == |a|
    ensures Lexed(a, s).Next? && s.toks <= Lexed(a, s).s.toks
  {
  }

  lemma MoreIs(s: LState, r: Outcome, t: LState, q: Outcome)
    requires SameMore(s, r, t, q)
    ensures if r.Fail? then q == r
      else q.Next? && s.toks <= r.s.toks && q.s.toks == t.toks + r.s.toks[|s.toks|..]
  {
  }

  lemma LineSkipped(src: string, s: LState, n: nat, text: Option<string>, rest: string)
    requires PyLexer.Sound(src, s) && s.start && src[s.pos..] == EmptyLine(n, text) + rest
    requires text.Some? ==> '\n' !in text.value
    ensures var t := s.(pos := s.pos + |EmptyLine(n, text)|, toks := s.toks + [Plain(NEWLINE)]);
      PyLexer.Sound(src, t) && Lexed(src, s) == Lexed(src, t)
  {
    hide Lexed, Scanned, Indented;
    var l := EmptyLine(n, text) + rest;
    var e := s.pos + n;
    assert forall i :: s.pos <= i < |src| ==> src[i] == src[s.pos..][i - s.pos] == l[i - s.pos];
    SpacesThen(src, s, e);
    var m := s.(pos := e, start := false);
    LexedRound(src, s, m);
    var k := s.pos + |EmptyLine(n, text)| - 1;
    var m1 := m.(pos := k);
    if text.Some? {
      var tail := "\n" + rest;
      assert src[e..] == "#" + text.value + tail by {
        assert src[e..] == src[s.pos..][n..] == l[n..];
      }
      CommentSkipped(src, m, m1, text.value, tail);
      LexedStep(src, m, m1);
    }
    assert src[k] == '\n';
    var t := s.(pos := k + 1, toks := s.toks + [Plain(NEWLINE)]);
    NewlineScanned(src, m1, t);
    LexedStep(src, m1, t);
  }

  lemma NewlineScanned(src: string, m: LState, t: LState)
    requires m.pos < |src| && src[m.pos] == '\n'
    requires t == m.(pos := m.pos + 1, start := true, toks := m.toks + [Plain(NEWLINE)])
    ensures Scanned(src, m) == Next(t)
  {
  }

  // ---- two spellings ----

  /** Two texts that are read as the same token give the same tokens in the same place. */
  lemma TwinLexed(a: string, u: string, v: string, b: string, x: Tok)
    requires ModeOf(a) == Code && !Indenting(a) && u != [] && v != [] && Apart(a, u) && Apart(a, v)
    requires forall m: LState :: m.pos == |a| && !m.start && m.pos < |a + (u + b)| ==>
      Scanned(a + (u + b), m) == Next(m.(pos := |a| + |u|, toks := m.toks + [x]))
    requires forall m: LState :: m.pos == |a| && !m.start && m.pos < |a + (v + b)| ==>
      Scanned(a + (v + b), m) == Next(m.(pos := |a| + |v|, toks := m.toks + [x]))
    ensures SameTokens(Tokens(a + (u + b)), Tokens(a + (v + b)))
  {
    hide Lexed, Scanned, Indented, ModeOf, SameMore, Level, Upto;
    var src, src' := a + (u + b), a + (v + b);
    Started(a);
    LexedApart(a, u + b, Begin());
    LexedApart(a, v + b, Begin());
    var w := Upto(a, Begin());
    if w.Next? {
      AtGap(a);
      var m := w.s;
      var n := m.(pos := |a| + |u|, toks := m.toks + [x]);
      var n' := m.(pos := |a| + |v|, toks := m.toks + [x]);
      LexedStep(src, m, n);
      LexedStep(src', m, n');
      SameTail(a + u, b, a + v);
      assert a + u + b == src && a + v + b == src';
      LexedLevel(src, n, src', n');
      SameFrom(n, Lexed(src, n), n', Lexed(src', n'));
    }
  }

  /** "//" is read as "/". */
  lemma SlashesAlike(a: string, b: string)
    requires ModeOf(a) == Code && !Indenting(a) && Apart(a, "/") && (b == [] || b[0] != '/')
    ensures SameTokens(Tokens(a + ("/" + b)), Tokens(a + ("//" + b)))
  {
    hide Tokens, ModeOf, Indenting;
    forall m: LState | m.pos == |a| && !m.start
      ensures Scanned(a + ("/" + b), m) == Next(m.(pos := |a| + 1, toks := m.toks + [Plain(SLASH)]))
      ensures Scanned(a + ("//" + b), m) == Next(m.(pos := |a| + 2, toks := m.toks + [Plain(SLASH)]))
    {
      assert (a + ("/" + b))[|a|] == '/' && (b != [] ==> (a + ("/" + b))[|a| + 1] == b[0]);
    }
    TwinLexed(a, "/", "//", b, Plain(SLASH));
  }

  /** A literal in single quotes is read as in double quotes, if it has neither quotes nor escapes. */
  lemma QuotesAlike(a: string, w: string, b: string)
    requires ModeOf(a) == Code && !Indenting(a) && forall i :: 0 <= i < |w| ==> w[i] !in {'"', '\'', '\\', '\n'}
    ensures SameTokens(Tokens(a + ("\"" + w + "\"" + b)), Tokens(a + ("'" + w + "'" + b)))
  {
    hide Tokens, ModeOf, Indenting, Scanned;
    forall m: LState, q: string | m.pos == |a| && !m.start && q in {"\"", "'"}
      ensures Scanned(a + (q + w + q + b), m)
        == Next(m.(pos := |a| + |w| + 2, toks := m.toks + [Tok(STRING, w, 0)]))
    {
      LiteralScanned(a + (q + w + q + b), m, q[0], w, b);
    }
    TwinLexed(a, "\"" + w + "\"", "'" + w + "'", b, Tok(STRING, w, 0));
  }

  lemma LiteralScanned(src: string, m: LState, q: char, w: string, b: string)
    requires m.pos < |src| && src[m.pos..] == [q] + w + [q] + b && q in {'"', '\''}
    requires forall i :: 0 <= i < |w| ==> w[i] !in {'"', '\'', '\\', '\n'}
    ensures Scanned(src, m) == Next(m.(pos := m.pos + |w| + 2, toks := m.toks + [Tok(STRING, w, 0)]))
  {
    hide Scanned, StringEnd;
    var p, l := m.pos, [q] + w + [q] + b;
    assert forall i :: p <= i < |src| ==> src[i] == src[p..][i - p] == l[i - p];
    assert forall i :: 0 <= i < |w| ==> l[i + 1] == w[i];
    PlainLiteral(src, p + 1, p + 1 + |w|, q);
    LiteralIs(src, m, p + 1 + |w|);
    assert src[p + 1..p + 1 + |w|] == src[p..][1..1 + |w|] == w;
  }

  lemma {:induction false} PlainLiteral(s: string, p: nat, e: nat, q: char)
    requires p <= e < |s| && s[e] == q && forall i :: p <= i < e ==> s[i] !in {q, '\\', '\n'}
    ensures StringEnd(s, p, q) == e
    decreases e - p
  {
    if p < e {
      PlainLiteral(s, p + 1, e, q);
    }
  }

  // ---- indentation ----

  /** Closing indentations leaves those that are not deeper, and adds a DEDENT for each other one. */
  lemma {:induction false} DedentsClose(stack: seq<nat>, toks: seq<Tok>, n: nat, k: nat)
    requires k < |stack| && Increasing(stack) && stack[k] <= n && (k + 1 < |stack| ==> n < stack[k + 1])
    ensures Dedents(stack, toks, n) == (stack[..k + 1], toks + Owed(|stack| - 1 - k))
    decreases |stack|
  {
    var j := |stack| - 1;
    if k < j {
      DedentsClose(stack[..j], toks + [Plain(DEDENT)], n, k);
      assert stack[..j][..k + 1] == stack[..k + 1];
      assert [Plain(DEDENT)] + Owed(j - 1 - k) == Owed(j - k);
      assert toks + [Plain(DEDENT)] + Owed(j - 1 - k) == toks + ([Plain(DEDENT)] + Owed(j - 1 - k));
    } else {
      assert stack[..k + 1] == stack && toks + Owed(0) == toks;
    }
  }

  /** The deepest open indentation that is no deeper than `n`. */
  lemma {:induction false} Innermost(stack: seq<nat>, n: nat) returns (k: nat)
    requires Increasing(stack) && |stack| > 0 && stack[0] <= n
    ensures k < |stack| && stack[k] <= n && (k + 1 < |stack| ==> n < stack[k + 1])
    decreases |stack|
  {
    k := |stack| - 1;
    if stack[k] > n {
      k := Innermost(stack[..k], n);
    }
  }

  /**
   * A line is accepted if and only if its indentation is one of the open ones, or deeper than all of them with room for
   * it. It closes exactly the deeper ones, or opens one.
   */
  lemma AdjustedWhen(s: LState, n: nat)
    requires 0 < |s.stack| <= MAX_INDENT && s.stack[0] == 0 && Increasing(s.stack)
    ensures var r, deep := Adjusted(s, n), n > s.stack[|s.stack| - 1];
      && (r.Next? <==> n in s.stack || (deep && |s.stack| < MAX_INDENT))
      && (r.Fail? ==> r.e == if deep then TooDeep else Inconsistent)
      && (r.Next? ==> r.s.stack[|r.s.stack| - 1] == n)
      && (r.Next? && deep ==> r.s.stack == s.stack + [n] && r.s.toks == s.toks + [Plain(INDENT)])
      && (r.Next? && !deep ==>
            r.s.stack == s.stack[..|r.s.stack|] && r.s.toks == s.toks + Owed(|s.stack| - |r.s.stack|))
  {
    var top := s.stack[|s.stack| - 1];
    if n <= top {
      var k := Innermost(s.stack, n);
      DedentsClose(s.stack, s.toks, n, k);
      assert s.stack[..k + 1][k] == s.stack[k];
      assert n in s.stack <==> s.stack[k] == n by {
        if n in s.stack {
          var i :| 0 <= i < |s.stack| && s.stack[i] == n;
          assert i <= k;
        }
      }
      if n == top {
        assert s.toks + Owed(0) == s.toks && s.stack[..|s.stack|] == s.stack;
      }
    } else {
      assert forall i :: 0 <= i < |s.stack| ==> s.stack[i] <= top;
    }
  }

  // ---- tabs ----

  /** A tab among the spaces a line begins with is refused, whatever the line holds. */
  lemma TabRefused(a: string, n: nat, rest: string)
    requires ModeOf(a) == Code && (a == [] || a[|a| - 1] == '\n')
    ensures var r := Tokens(a + (seq(n, _ => ' ') + "\t" + rest)); r == Fail(Tabs) || r == Upto(a, Begin())
    ensures Tokens(a + (seq(n, _ => ' ') + "\t" + rest)).Fail?
  {
    hide Lexed, Scanned, ModeOf;
    var r := seq(n, _ => ' ') + "\t" + rest;
    Started(a);
    LexedApart(a, r, Begin());
    var u := Upto(a, Begin());
    if u.Next? {
      NoSpacesLeft(a, u.s.pos);
      TabFails(a + r, u.s, |a| + n);
    }
  }

  lemma NoSpacesLeft(a: string, p: nat)
    requires p <= |a| && AllSpaces(a[p..]) && (a == [] || a[|a| - 1] == '\n')
    ensures p == |a|
  {
  }

  lemma TabFails(src: string, s: LState, e: nat)
    requires PyLexer.Sound(src, s) && s.start && s.pos <= e < |src| && src[e] == '\t'
    requires forall i :: s.pos <= i < e ==> src[i] == ' '
    ensures Lexed(src, s) == Fail(Tabs)
  {
    hide Scanned;
    RunIs(src, s.pos, e, c => c == ' ');
  }
}
