/** Splitting, joining and splitting again gives the same statements. */
module SqlRoundTrip {
  import opened SqlLexer
  import opened SqlSplitter

  // ---- A piece by itself ----

  /** No semicolon of `p` splits. */
  predicate Passes(p: seq<Token>, r: Reading) {
    p == [] || (!Splits(r, p[0]) && Passes(p[1..], Feed(r, p[0])))
  }

  /** The registers after `p`. */
  function Reads(p: seq<Token>, r: Reading): Reading {
    if p == [] then r else Reads(p[1..], Feed(r, p[0]))
  }

  /** The depth after `p` once its last word is complete. */
  function Leaves(p: seq<Token>, r: Reading): int {
    Finished(Reads(p, r))
  }

  lemma {:induction false} PassesAlone(p: seq<Token>, r: Reading)
    requires Passes(p, r)
    ensures Pieces(p, r) == Last(p)
  {
    if p != [] {
      PassesAlone(p[1..], Feed(r, p[0]));
      assert p == [p[0]] + p[1..];
    }
  }

  lemma SemicolonEnds(rest: seq<Token>, r: Reading)
    requires Finished(r) == 0
    ensures Pieces([Plain(';')] + rest, r) == Next([], Pieces(rest, Start()))
  {
    PiecesStep(r, Plain(';'), rest);
  }

  lemma PassesStep(p: seq<Token>, tail: seq<Token>, rest: Cuts, r: Reading)
    requires p != [] && !Splits(r, p[0]) && Pieces(p[1..] + tail, Feed(r, p[0])) == Next(p[1..], rest)
    ensures Pieces(p + tail, r) == Next(p, rest)
  {
    assert p + tail == [p[0]] + (p[1..] + tail);
    PiecesStep(r, p[0], p[1..] + tail);
    assert p == [p[0]] + p[1..];
  }

  lemma {:induction false} PassesOn(p: seq<Token>, rest: seq<Token>, r: Reading)
    requires Passes(p, r) && Leaves(p, r) == 0
    ensures Pieces(p + ([Plain(';')] + rest), r) == Next(p, Pieces(rest, Start()))
  {
    if p == [] {
      assert p + ([Plain(';')] + rest) == [Plain(';')] + rest;
      SemicolonEnds(rest, r);
    } else {
      PassesOn(p[1..], rest, Feed(r, p[0]));
      PassesStep(p, [Plain(';')] + rest, Pieces(rest, Start()), r);
    }
  }

  /** Every piece passes, and all but the last can be ended by a semicolon. */
  predicate Separable(ps: Cuts, r: Reading) {
    Passes(ps.piece, r) && (ps.Next? ==> Leaves(ps.piece, r) == 0 && Separable(ps.rest, Start()))
  }

  lemma SeparablePrepend(t: Token, ps: Cuts, r: Reading)
    requires !Splits(r, t) && Separable(ps, Feed(r, t))
    ensures Separable(Prepend(t, ps), r)
  {
    var p := [t] + ps.piece;
    assert p[0] == t && p[1..] == ps.piece;
  }

  lemma {:induction false} PiecesSeparable(tokens: seq<Token>, r: Reading)
    ensures Separable(Pieces(tokens, r), r)
  {
    if tokens != [] {
      var rest := Pieces(tokens[1..], Feed(r, tokens[0]));
      PiecesSeparable(tokens[1..], Feed(r, tokens[0]));
      if !Splits(r, tokens[0]) { SeparablePrepend(tokens[0], rest, r); }
    }
  }

  // ---- Trimming a piece ----

  predicate Blank(t: Token) {
    t.Plain? && Space(t.c)
  }

  function DropStart(p: seq<Token>): seq<Token> {
    if p != [] && Blank(p[0]) then DropStart(p[1..]) else p
  }

  /** A literal at the end loses white space only if it is ragged. */
  function DropEnd(p: seq<Token>): seq<Token> {
    if p == [] then []
    else
      var front, t := p[..|p| - 1], p[|p| - 1];
      if Blank(t) then DropEnd(front) else if t.Literal? then front + [Literal(TrimEnd(t.text))] else p
  }

  function Core(p: seq<Token>): seq<Token> {
    DropEnd(DropStart(p))
  }

  lemma {:induction false} TrimStartDrops(p: seq<Token>)
    requires Faithful(p)
    ensures TrimStart(Text(p)) == Text(DropStart(p)) && Faithful(DropStart(p))
  {
    if p != [] && Blank(p[0]) {
      FaithfulSlice(p, 1, |p|);
      TrimStartDrops(p[1..]);
      assert Text(p)[1..] == Text(p[1..]);
    } else if p != [] {
      assert Sealed(p[0]) || Ragged(p[0]);
    }
  }

  lemma FaithfulSlice(p: seq<Token>, i: nat, j: nat)
    requires Faithful(p) && i <= j <= |p|
    ensures Faithful(p[i..j])
    ensures j < |p| ==> forall k | 0 <= k < |p[i..j]| :: Sealed(p[i..j][k])
  {
    var q := p[i..j];
    forall k | 0 <= k < |q| ensures Sealed(q[k]) || (k == |q| - 1 && j == |p| && Ragged(q[k])) {
      assert q[k] == p[i + k];
    }
    forall k | 0 <= k < |q| - 1 ensures Apart(q[k], q[k + 1]) { assert Apart(p[i + k], p[i + k + 1]); }
  }

  lemma {:induction false} TrimEndPrefix(s: string)
    ensures |TrimEnd(s)| <= |s| && TrimEnd(s) == s[..|TrimEnd(s)|]
    ensures forall k | |TrimEnd(s)| <= k < |s| :: Space(s[k])
    ensures s != "" && !Space(s[0]) ==> TrimEnd(s) != ""
    ensures TrimEnd(TrimEnd(s)) == TrimEnd(s)
  {
    if s != "" && Space(s[|s| - 1]) { TrimEndPrefix(s[..|s| - 1]); }
  }

  lemma {:induction false} TrimEndAppend(a: string, b: string)
    requires TrimEnd(b) != ""
    ensures TrimEnd(a + b) == a + TrimEnd(b)
  {
    if Space(b[|b| - 1]) {
      TrimEndAppend(a, b[..|b| - 1]);
      assert (a + b)[..|a + b| - 1] == a + b[..|b| - 1];
    } else {
      assert TrimEnd(b) == b;
    }
  }

  lemma LiteralTrimmed(text: string)
    requires Sealed(Literal(text)) || Ragged(Literal(text))
    ensures TrimEnd(text) != "" && TrimEnd(text)[0] == text[0]
    ensures if Sealed(Literal(text)) then TrimEnd(text) == text else Ragged(Literal(TrimEnd(text)))
  {
    TrimEndPrefix(text);
    var n := |TrimEnd(text)|;
    if Sealed(Literal(text)) {
      ClosedLast(text[1..], Closer(text[0]));
    } else {
      UnclosedPrefix(text[1..], n - 1, Closer(text[0]));
      assert text[1..][..n - 1] == text[..n][1..];
    }
  }

  lemma FaithfulLast(p: seq<Token>, t: Token)
    requires p != [] && Faithful(p) && (Sealed(t) || Ragged(t)) && Source(t)[0] == Source(p[|p| - 1])[0]
    ensures Faithful(p[..|p| - 1] + [t])
  {
    var q := p[..|p| - 1] + [t];
    forall k | 0 <= k < |q| ensures Sealed(q[k]) || (k == |q| - 1 && Ragged(q[k])) {
      if k < |q| - 1 { assert q[k] == p[k]; }
    }
    forall k | 0 <= k < |q| - 1 ensures Apart(q[k], q[k + 1]) { assert Apart(p[k], p[k + 1]); }
  }

  lemma TextOne(t: Token)
    ensures Text([t]) == Source(t)
  {
    assert [t][1..] == [] && Source(t) + "" == Source(t);
  }

  lemma {:induction false} TrimEndDrops(p: seq<Token>)
    requires Faithful(p)
    ensures TrimEnd(Text(p)) == Text(DropEnd(p)) && Faithful(DropEnd(p))
  {
    if p != [] {
      var front, t := p[..|p| - 1], p[|p| - 1];
      assert p == front + [t];
      TextAppend(front, [t]);
      TextOne(t);
      assert Sealed(t) || Ragged(t);
      FaithfulSlice(p, 0, |p| - 1);
      if Blank(t) {
        TrimEndDrops(front);
        assert (Text(front) + [t.c])[..|Text(front)|] == Text(front);
      } else if t.Literal? {
        LiteralTrimmed(t.text);
        TrimEndAppend(Text(front), t.text);
        FaithfulLast(p, Literal(TrimEnd(t.text)));
        TextAppend(front, [Literal(TrimEnd(t.text))]);
        TextOne(Literal(TrimEnd(t.text)));
      } else {
        TrimEndAppend(Text(front), [t.c]);
      }
    }
  }

  lemma TrimIsCore(p: seq<Token>)
    requires Faithful(p)
    ensures Trim(Text(p)) == Text(Core(p)) && Faithful(Core(p))
  {
    TrimStartDrops(p);
    TrimEndDrops(DropStart(p));
  }

  // ---- A trimmed piece passes as the piece did ----

  lemma BlankFeeds(r: Reading, t: Token)
    requires Blank(t)
    ensures Feed(Start(), t) == Start() && !Splits(r, t) && !Letter(t)
  {
  }

  lemma {:induction false} DropStartPasses(p: seq<Token>)
    requires Passes(p, Start())
    ensures Passes(DropStart(p), Start()) && Leaves(DropStart(p), Start()) == Leaves(p, Start())
  {
    if p != [] && Blank(p[0]) {
      BlankFeeds(Start(), p[0]);
      DropStartPasses(p[1..]);
    }
  }

  /** The last token may go, or be replaced, if it is no letter and no semicolon. */
  lemma {:induction false} LastPasses(front: seq<Token>, t: Token, u: Token, r: Reading)
    requires Passes(front + [t], r) && !Letter(t) && !Letter(u) && u != Plain(';')
    ensures Passes(front, r) && Leaves(front, r) == Leaves(front + [t], r)
    ensures Passes(front + [u], r) && Leaves(front + [u], r) == Leaves(front, r)
  {
    if front == [] {
      assert front + [t] == [t] && front + [u] == [u];
      LeavesOne(t, r);
      LeavesOne(u, r);
    } else {
      assert (front + [t])[1..] == front[1..] + [t] && (front + [u])[1..] == front[1..] + [u];
      LastPasses(front[1..], t, u, Feed(r, front[0]));
    }
  }

  lemma LeavesOne(t: Token, r: Reading)
    requires !Letter(t)
    ensures Leaves([t], r) == Finished(r) && Passes([t], r) == !Splits(r, t)
  {
    assert [t][1..] == [] && Feed(r, t) == Reading("", Finished(r));
    assert Reads([t], r) == Feed(r, t);
  }

  lemma {:induction false} DropEndPasses(p: seq<Token>)
    requires Passes(p, Start())
    ensures Passes(DropEnd(p), Start()) && Leaves(DropEnd(p), Start()) == Leaves(p, Start())
  {
    if p != [] {
      var front, t := p[..|p| - 1], p[|p| - 1];
      assert p == front + [t];
      if Blank(t) {
        BlankFeeds(Start(), t);
        LastPasses(front, t, t, Start());
        DropEndPasses(front);
      } else if t.Literal? {
        var u := Literal(TrimEnd(t.text));
        LastPasses(front, t, u, Start());
        assert DropEnd(p) == front + [u];
      } else {
        assert DropEnd(p) == p;
      }
    }
  }

  lemma CorePasses(p: seq<Token>)
    requires Passes(p, Start())
    ensures Passes(Core(p), Start()) && Leaves(Core(p), Start()) == Leaves(p, Start())
  {
    DropStartPasses(p);
    DropEndPasses(DropStart(p));
  }

  // ---- Pieces of a faithful text ----

  predicate AllSealed(p: seq<Token>) {
    forall k | 0 <= k < |p| :: Sealed(p[k])
  }

  /** Only the last piece may end in mid-literal. */
  predicate WellFormed(ps: Cuts) {
    Faithful(ps.piece) && (ps.Next? ==> AllSealed(ps.piece) && WellFormed(ps.rest))
  }

  lemma {:induction false} PiecesWellFormed(ps: Cuts)
    requires Faithful(Joined(ps))
    ensures WellFormed(ps)
  {
    if ps.Next? {
      var p, whole := ps.piece, Joined(ps);
      FaithfulSlice(whole, 0, |p|);
      FaithfulSlice(whole, |p| + 1, |whole|);
      assert whole[0..|p|] == p && whole[|p| + 1..|whole|] == Joined(ps.rest);
      PiecesWellFormed(ps.rest);
    }
  }

  lemma {:induction false} DropEndSealed(p: seq<Token>)
    requires AllSealed(p)
    ensures AllSealed(DropEnd(p))
  {
    if p != [] {
      var t := p[|p| - 1];
      if Blank(t) { DropEndSealed(p[..|p| - 1]); } else if t.Literal? { LiteralTrimmed(t.text); }
    }
  }

  lemma {:induction false} CoreSealed(p: seq<Token>)
    requires AllSealed(p)
    ensures AllSealed(Core(p))
  {
    if p != [] && Blank(p[0]) { CoreSealed(p[1..]); } else { DropEndSealed(p); }
  }

  // ---- The statements joined again ----

  const BREAK := [Plain(';'), Plain('\n')]

  /** The tokens of the statements joined by a semicolon and a newline. */
  function Rejoined(ps: Cuts): seq<Token> {
    match ps
    case Last(p) => Core(p)
    case Next(p, rest) =>
      if Core(p) == [] then Rejoined(rest)
      else if Rejoined(rest) == [] then Core(p)
      else Core(p) + (BREAK + Rejoined(rest))
  }

  lemma StatementOfPiece(p: seq<Token>)
    requires Faithful(p)
    ensures Statement(Text(p)) == if Core(p) == [] then [] else [Text(Core(p))]
  {
    TrimIsCore(p);
    if Core(p) != [] { FirstOfText(Core(p)); }
  }

  lemma {:induction false} RejoinedText(ps: Cuts)
    requires WellFormed(ps)
    ensures Text(Rejoined(ps)) == Join(Statements(ps), ";\n")
    ensures Rejoined(ps) == [] <==> Statements(ps) == []
  {
    StatementOfPiece(ps.piece);
    if ps.Next? {
      RejoinedText(ps.rest);
      var c, more := Core(ps.piece), Rejoined(ps.rest);
      if c == [] {
        assert Statements(ps) == Statements(ps.rest);
      } else {
        assert Statements(ps) == [Text(c)] + Statements(ps.rest);
        assert Statements(ps)[1..] == Statements(ps.rest);
        if more != [] {
          TextAppend(c, BREAK + more);
          TextAppend(BREAK, more);
          assert BREAK[1..] == [Plain('\n')] && Text(BREAK) == ";\n" by { TextOne(Plain('\n')); }
        }
      }
    }
  }

  lemma FaithfulJoin(c: seq<Token>, more: seq<Token>)
    requires Faithful(c) && AllSealed(c) && Faithful(more)
    ensures Faithful(c + (BREAK + more))
  {
    var whole := c + (BREAK + more);
    forall k | 0 <= k < |whole| ensures Sealed(whole[k]) || (k == |whole| - 1 && Ragged(whole[k])) {
      if k >= |c| + 2 { assert whole[k] == more[k - |c| - 2]; }
    }
    forall k | 0 <= k < |whole| - 1 ensures Apart(whole[k], whole[k + 1]) {
      if k < |c| - 1 { assert Apart(c[k], c[k + 1]); }
      else if k >= |c| + 2 { assert Apart(more[k - |c| - 2], more[k - |c| - 1]); }
      else if k == |c| - 1 { assert Sealed(c[k]) && whole[k + 1] == Plain(';'); }
      else if k == |c| { assert whole[k] == Plain(';') && whole[k + 1] == Plain('\n'); }
      else { assert whole[k] == Plain('\n') && whole[k + 1] == more[0]; assert Sealed(more[0]) || Ragged(more[0]); }
    }
  }

  lemma {:induction false} RejoinedFaithful(ps: Cuts)
    requires WellFormed(ps)
    ensures Faithful(Rejoined(ps))
  {
    TrimIsCore(ps.piece);
    if ps.Next? {
      RejoinedFaithful(ps.rest);
      CoreSealed(ps.piece);
      FaithfulJoin(Core(ps.piece), Rejoined(ps.rest));
    }
  }

  /** White space before a piece: none, or the newline of a join. */
  predicate Lead(lead: seq<Token>) {
    lead == [] || lead == [Plain('\n')]
  }

  lemma LeadPasses(lead: seq<Token>, p: seq<Token>)
    requires Lead(lead) && Passes(p, Start())
    ensures Passes(lead + p, Start()) && Leaves(lead + p, Start()) == Leaves(p, Start())
  {
    if lead == [] {
      assert lead + p == p;
    } else {
      BlankFeeds(Start(), Plain('\n'));
      assert (lead + p)[0] == Plain('\n') && (lead + p)[1..] == p;
    }
  }

  lemma {:induction false} TrimStartTwice(s: string)
    ensures TrimStart(s) == "" || !Space(TrimStart(s)[0])
  {
    if s != "" && Space(s[0]) { TrimStartTwice(s[1..]); }
  }

  lemma TrimTwice(s: string)
    ensures Trim(Trim(s)) == Trim(s)
  {
    TrimStartTwice(s);
    TrimEndPrefix(TrimStart(s));
    assert TrimStart(Trim(s)) == Trim(s);
  }

  /** A trimmed piece, white space before it or not, gives the same statement again. */
  lemma LeadStatement(lead: seq<Token>, p: seq<Token>)
    requires Lead(lead) && Faithful(p)
    ensures Statement(Text(lead + Core(p))) == Statement(Text(p))
  {
    TrimIsCore(p);
    TrimTwice(Text(p));
    TextAppend(lead, Core(p));
    if lead == [] {
      assert lead + Core(p) == Core(p);
    } else {
      TextOne(Plain('\n'));
      assert ("\n" + Text(Core(p)))[1..] == Text(Core(p));
    }
  }

  lemma LastRejoined(lead: seq<Token>, p: seq<Token>)
    requires Lead(lead) && Faithful(p) && Passes(p, Start())
    ensures Statements(Pieces(lead + Core(p), Start())) == Statement(Text(p))
  {
    CorePasses(p);
    LeadPasses(lead, Core(p));
    LeadStatement(lead, p);
    PassesAlone(lead + Core(p), Start());
  }

  lemma Regroup(lead: seq<Token>, c: seq<Token>, more: seq<Token>)
    ensures lead + (c + (BREAK + more)) == (lead + c) + ([Plain(';')] + ([Plain('\n')] + more))
  {
    var tail := [Plain(';')] + ([Plain('\n')] + more);
    assert BREAK + more == tail;
    assert lead + (c + tail) == (lead + c) + tail;
  }

  lemma NextRejoined(lead: seq<Token>, p: seq<Token>, more: seq<Token>)
    requires Lead(lead) && Faithful(p) && Passes(p, Start()) && Leaves(p, Start()) == 0
    ensures Statements(Pieces(lead + (Core(p) + (BREAK + more)), Start()))
            == Statement(Text(p)) + Statements(Pieces([Plain('\n')] + more, Start()))
  {
    CorePasses(p);
    LeadPasses(lead, Core(p));
    LeadStatement(lead, p);
    var rest := [Plain('\n')] + more;
    Regroup(lead, Core(p), more);
    PassesOn(lead + Core(p), rest, Start());
  }

  /** Cutting the rejoined statements gives the statements back. */
  lemma {:induction false} RejoinedSplits(lead: seq<Token>, ps: Cuts)
    requires Lead(lead) && WellFormed(ps) && Separable(ps, Start())
    ensures Statements(Pieces(lead + Rejoined(ps), Start())) == Statements(ps)
    decreases ps
  {
    var p := ps.piece;
    LastRejoined(lead, p);
    if ps.Next? {
      StatementOfPiece(p);
      RejoinedText(ps.rest);
      if Core(p) == [] {
        RejoinedSplits(lead, ps.rest);
      } else if Rejoined(ps.rest) != [] {
        NextRejoined(lead, p, Rejoined(ps.rest));
        RejoinedSplits([Plain('\n')], ps.rest);
      }
    }
  }

  lemma PiecesOf(sql: string) returns (ps: Cuts)
    ensures ps == Pieces(Tokens(sql), Start()) && WellFormed(ps) && Separable(ps, Start())
  {
    ps := Pieces(Tokens(sql), Start());
    TokensFaithful(sql);
    PiecesConserve(Tokens(sql), Start());
    PiecesWellFormed(ps);
    PiecesSeparable(Tokens(sql), Start());
  }

  /** Joining the statements and splitting again gives exactly the same statements. */
  lemma SplitJoinSplit(sql: string)
    ensures Split(Join(Split(sql), ";\n")) == Split(sql)
  {
    var ps := PiecesOf(sql);
    RejoinedText(ps);
    RejoinedFaithful(ps);
    LexText(Rejoined(ps));
    RejoinedSplits([], ps);
    assert [] + Rejoined(ps) == Rejoined(ps);
  }

  lemma {:induction false} ReadsSnoc(p: seq<Token>, t: Token, r: Reading)
    ensures Reads(p + [t], r) == Feed(Reads(p, r), t)
  {
    if p == [] {
      assert [] + [t] == [t] && [t][1..] == [];
    } else {
      ReadsSnoc(p[1..], t, Feed(r, p[0]));
      assert (p + [t])[1..] == p[1..] + [t];
    }
  }

  /** The registers after a piece hold its last word, and the depth of the words before it. */
  lemma {:induction false} ReadsWords(p: seq<Token>)
    ensures Reads(p, Start()) == Reading(LastWord(p), Depth(p))
  {
    if p != [] {
      ReadsWords(p[..|p| - 1]);
      WordsStep(p[..|p| - 1], p[|p| - 1]);
      assert p == p[..|p| - 1] + [p[|p| - 1]];
    }
  }

  lemma WordsStep(front: seq<Token>, t: Token)
    requires Reads(front, Start()) == Reading(LastWord(front), Depth(front))
    ensures Reads(front + [t], Start()) == Reading(LastWord(front + [t]), Depth(front + [t]))
  {
    ReadsSnoc(front, t, Start());
    LastWordAppend(front, t);
    DepthAppend(front, t);
  }

  lemma LeavesDepth(p: seq<Token>)
    ensures Leaves(p, Start()) == Depth(p + [Plain(';')])
  {
    ReadsWords(p);
    DepthAppend(p, Plain(';'));
  }

  /** Every statement is a single one on its own, and every statement but the last leaves the scanner
      outside quotes, with no comment open, and at depth 0 once a semicolon follows. */
  lemma StatementsStandAlone(sql: string, i: nat)
    requires i < |Split(sql)|
    ensures var s := Split(sql)[i];
      Split(s) == [s] && (i < |Split(sql)| - 1 ==> AllSealed(Tokens(s)) && Depth(Tokens(s) + [Plain(';')]) == 0)
  {
    var ps := PiecesOf(sql);
    var p := PieceOf(ps, i);
    CoreStandsAlone(p);
    LeavesDepth(Core(p));
    if i < |Split(sql)| - 1 { CoreSealed(p); }
  }

  /** A piece that gives a statement, and can be ended by a semicolon if `more` are to come. */
  predicate Piece(p: seq<Token>, more: bool) {
    Faithful(p) && Passes(p, Start()) && Core(p) != [] && (more ==> AllSealed(p) && Leaves(p, Start()) == 0)
  }

  lemma StatementsCons(p: seq<Token>, rest: Cuts, i: nat)
    requires |Statement(Text(p))| <= i < |Statements(Next(p, rest))|
    ensures var skipped := |Statement(Text(p))|;
      |Statements(Next(p, rest))| == skipped + |Statements(rest)|
      && Statements(Next(p, rest))[i] == Statements(rest)[i - skipped]
  {
  }

  lemma HeadPiece(ps: Cuts)
    requires WellFormed(ps) && Separable(ps, Start())
    requires Statement(Text(ps.piece)) != []
    ensures Piece(ps.piece, 0 < |Statements(ps)| - 1)
    ensures |Statement(Text(ps.piece))| == 1 && Statements(ps)[0] == Text(Core(ps.piece))
  {
    StatementOfPiece(ps.piece);
  }

  /** The piece that gives statement `i`. */
  lemma {:induction false} PieceOf(ps: Cuts, i: nat) returns (p: seq<Token>)
    requires WellFormed(ps) && Separable(ps, Start()) && i < |Statements(ps)|
    ensures Piece(p, i < |Statements(ps)| - 1) && Statements(ps)[i] == Text(Core(p))
    decreases ps
  {
    var skipped := |Statement(Text(ps.piece))|;
    if ps.Last? || i < skipped {
      p := ps.piece;
      HeadPiece(ps);
    } else {
      StatementsCons(ps.piece, ps.rest, i);
      p := PieceOf(ps.rest, i - skipped);
    }
  }

  lemma CoreStandsAlone(p: seq<Token>)
    requires Faithful(p) && Passes(p, Start()) && Core(p) != []
    ensures Tokens(Text(Core(p))) == Core(p) && Split(Text(Core(p))) == [Text(Core(p))]
    ensures Leaves(Core(p), Start()) == Leaves(p, Start())
  {
    TrimIsCore(p);
    LexText(Core(p));
    CorePasses(p);
    PassesAlone(Core(p), Start());
    LeadStatement([], p);
    StatementOfPiece(p);
    assert [] + Core(p) == Core(p);
  }
}
