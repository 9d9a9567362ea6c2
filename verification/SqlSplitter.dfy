/** Splitting SQL at its top-level semicolons: cutting the token sequence into pieces, trimming them into
    statements, and the one-pass scanner that does all of it at once. */
module SqlSplitter {
  import opened SqlLexer

  // ---- Words and depth ----

  predicate Letter(t: Token) {
    t.Plain? && ('a' <= t.c <= 'z' || 'A' <= t.c <= 'Z' || t.c == '_')
  }

  function Upper(c: char): char {
    if 'a' <= c <= 'z' then (c as int - 32) as char else c
  }

  /** Equal but for case. */
  predicate Spells(word: string, keyword: string) {
    |word| == |keyword| && forall i | 0 <= i < |word| :: Upper(word[i]) == keyword[i]
  }

  /** What a word adds to the depth once it is complete. */
  function Opens(word: string): int {
    if Spells(word, "BEGIN") || Spells(word, "CASE") then 1 else if Spells(word, "END") then -1 else 0
  }

  /** The run of letters at the end of `tokens`. */
  function LastWord(tokens: seq<Token>): string {
    if tokens == [] || !Letter(tokens[|tokens| - 1]) then ""
    else LastWord(tokens[..|tokens| - 1]) + [tokens[|tokens| - 1].c]
  }

  /** BEGINs and CASEs less ENDs among the words of `tokens` that are complete: followed by something
      other than a letter. */
  function Depth(tokens: seq<Token>): int {
    if tokens == [] then 0
    else Depth(tokens[..|tokens| - 1])
         + if Letter(tokens[|tokens| - 1]) then 0 else Opens(LastWord(tokens[..|tokens| - 1]))
  }

  /** A semicolon at depth 0; the word before it is complete. */
  predicate Boundary(tokens: seq<Token>, k: int) {
    0 <= k < |tokens| && tokens[k] == Plain(';') && Depth(tokens[..k + 1]) == 0
  }

  // ---- Cutting ----

  /** The scanner's registers. */
  datatype Reading = Reading(word: string, depth: int)

  function Start(): Reading {
    Reading("", 0)
  }

  /** The depth once the word at hand is complete. */
  function Finished(r: Reading): int {
    r.depth + Opens(r.word)
  }

  function Feed(r: Reading, t: Token): Reading {
    Reading(if Letter(t) then r.word + [t.c] else "", if Letter(t) then r.depth else Finished(r))
  }

  predicate Splits(r: Reading, t: Token) {
    t == Plain(';') && Finished(r) == 0
  }

  /** One piece or more. */
  datatype Cuts = Last(piece: seq<Token>) | Next(piece: seq<Token>, rest: Cuts)

  function Prepend(t: Token, ps: Cuts): Cuts {
    match ps
    case Last(p) => Last([t] + p)
    case Next(p, rest) => Next([t] + p, rest)
  }

  function Pieces(tokens: seq<Token>, r: Reading): Cuts {
    if tokens == [] then Last([]) else
    var rest := Pieces(tokens[1..], Feed(r, tokens[0]));
    if Splits(r, tokens[0]) then Next([], rest) else Prepend(tokens[0], rest)
  }

  /** The pieces with a semicolon between each and the next. */
  function Joined(ps: Cuts): seq<Token> {
    match ps
    case Last(p) => p
    case Next(p, rest) => p + ([Plain(';')] + Joined(rest))
  }

  /** Where the pieces end, but for the last. */
  function Ends(ps: Cuts, offset: nat): seq<nat> {
    match ps
    case Last(_) => []
    case Next(p, rest) => [offset + |p|] + Ends(rest, offset + |p| + 1)
  }

  lemma JoinedPrepend(t: Token, ps: Cuts)
    ensures Joined(Prepend(t, ps)) == [t] + Joined(ps)
  {
    if ps.Next? {
      var tail := [Plain(';')] + Joined(ps.rest);
      assert ([t] + ps.piece) + tail == [t] + (ps.piece + tail);
    }
  }

  lemma {:induction false} PiecesConserve(tokens: seq<Token>, r: Reading)
    ensures Joined(Pieces(tokens, r)) == tokens
  {
    if tokens != [] {
      var rest := Pieces(tokens[1..], Feed(r, tokens[0]));
      PiecesConserve(tokens[1..], Feed(r, tokens[0]));
      JoinedPrepend(tokens[0], rest);
      assert [] + ([Plain(';')] + Joined(rest)) == [Plain(';')] + tokens[1..];
    }
  }

  /** The registers after the first `n` tokens; a split leaves them as they start. */
  function After(tokens: seq<Token>, n: nat): Reading
    requires n <= |tokens|
  {
    if n == 0 then Start() else Feed(After(tokens, n - 1), tokens[n - 1])
  }

  lemma LastWordAppend(done: seq<Token>, t: Token)
    ensures LastWord(done + [t]) == if Letter(t) then LastWord(done) + [t.c] else ""
  {
    assert (done + [t])[..|done|] == done;
  }

  lemma DepthAppend(done: seq<Token>, t: Token)
    ensures Depth(done + [t]) == Depth(done) + if Letter(t) then 0 else Opens(LastWord(done))
  {
    assert (done + [t])[..|done|] == done;
  }

  /** The registers hold the last word, and the depth of the words before it. */
  lemma {:induction false} AfterReads(tokens: seq<Token>, n: nat)
    requires n <= |tokens|
    ensures After(tokens, n) == Reading(LastWord(tokens[..n]), Depth(tokens[..n]))
  {
    if n > 0 {
      AfterReads(tokens, n - 1);
      LastWordAppend(tokens[..n - 1], tokens[n - 1]);
      DepthAppend(tokens[..n - 1], tokens[n - 1]);
      assert tokens[..n] == tokens[..n - 1] + [tokens[n - 1]];
    }
  }

  lemma DepthAt(tokens: seq<Token>, k: nat)
    requires k < |tokens| && !Letter(tokens[k])
    ensures Depth(tokens[..k + 1]) == Finished(After(tokens, k))
  {
    AfterReads(tokens, k);
    DepthAppend(tokens[..k], tokens[k]);
    assert tokens[..k + 1] == tokens[..k] + [tokens[k]];
  }

  lemma SplitsAtBoundaries(tokens: seq<Token>, k: nat)
    requires k < |tokens|
    ensures Splits(After(tokens, k), tokens[k]) <==> Boundary(tokens, k)
  {
    if tokens[k] == Plain(';') { DepthAt(tokens, k); }
  }

  lemma PiecesStep(r: Reading, t: Token, tokens: seq<Token>)
    ensures var rest := Pieces(tokens, Feed(r, t));
      Pieces([t] + tokens, r) == if Splits(r, t) then Next([], rest) else Prepend(t, rest)
  {
    assert ([t] + tokens)[0] == t && ([t] + tokens)[1..] == tokens;
  }

  lemma EndsPrepend(t: Token, ps: Cuts, offset: nat)
    ensures Ends(Prepend(t, ps), offset) == Ends(ps, offset + 1)
  {
  }

  lemma {:induction false} EndsAreSplits(tokens: seq<Token>, n: nat, k: nat)
    requires n <= |tokens|
    ensures k in Ends(Pieces(tokens[n..], After(tokens, n)), n) <==>
        n <= k < |tokens| && Splits(After(tokens, k), tokens[k])
    decreases |tokens| - n
  {
    if n < |tokens| {
      assert tokens[n..] == [tokens[n]] + tokens[n + 1..];
      PiecesStep(After(tokens, n), tokens[n], tokens[n + 1..]);
      EndsPrepend(tokens[n], Pieces(tokens[n + 1..], After(tokens, n + 1)), n);
      EndsAreSplits(tokens, n + 1, k);
    }
  }

  // ---- Trimming ----

  predicate Space(c: char) {
    || '\U{9}' <= c <= '\U{D}' || c == ' ' || c == '\U{A0}' || c == '\U{1680}' || '\U{2000}' <= c <= '\U{200A}'
    || c == '\U{2028}' || c == '\U{2029}' || c == '\U{202F}' || c == '\U{205F}' || c == '\U{3000}' || c == '\U{FEFF}'
  }

  function TrimStart(s: string): string {
    if s != "" && Space(s[0]) then TrimStart(s[1..]) else s
  }

  function TrimEnd(s: string): string {
    if s != "" && Space(s[|s| - 1]) then TrimEnd(s[..|s| - 1]) else s
  }

  function Trim(s: string): string {
    TrimEnd(TrimStart(s))
  }

  function Statement(s: string): seq<string> {
    if Trim(s) == "" then [] else [Trim(s)]
  }

  function Statements(ps: Cuts): seq<string> {
    match ps
    case Last(p) => Statement(Text(p))
    case Next(p, rest) => Statement(Text(p)) + Statements(rest)
  }

  /** The statements of `sql`. */
  function Split(sql: string): seq<string> {
    Statements(Pieces(Tokens(sql), Start()))
  }

  function Join(parts: seq<string>, separator: string): string {
    if parts == [] then "" else if |parts| == 1 then parts[0] else parts[0] + (separator + Join(parts[1..], separator))
  }

  function Texts(ps: Cuts): (r: seq<string>)
    ensures r != []
  {
    match ps
    case Last(p) => [Text(p)]
    case Next(p, rest) => [Text(p)] + Texts(rest)
  }

  lemma {:induction false} JoinTexts(ps: Cuts)
    ensures Join(Texts(ps), ";") == Text(Joined(ps))
  {
    if ps.Next? {
      JoinTexts(ps.rest);
      TextAppend(ps.piece, [Plain(';')] + Joined(ps.rest));
      TextAppend([Plain(';')], Joined(ps.rest));
      assert Texts(ps)[1..] == Texts(ps.rest);
      assert Text([Plain(';')]) == ";";
    }
  }

  /** Joining the untrimmed pieces with semicolons gives the text back, comments stripped. */
  lemma PiecesConserveText(sql: string)
    ensures Join(Texts(Pieces(Tokens(sql), Start())), ";") == Strip(sql)
  {
    PiecesConserve(Tokens(sql), Start());
    JoinTexts(Pieces(Tokens(sql), Start()));
  }

  /** A piece ends exactly at the semicolons outside quotes and comments at depth 0. */
  lemma PiecesEndAtBoundaries(sql: string, k: nat)
    ensures k in Ends(Pieces(Tokens(sql), Start()), 0) <==> Boundary(Tokens(sql), k)
  {
    assert Tokens(sql)[0..] == Tokens(sql);
    EndsAreSplits(Tokens(sql), 0, k);
    if k < |Tokens(sql)| { SplitsAtBoundaries(Tokens(sql), k); }
  }
}
