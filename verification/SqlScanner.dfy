/** The one-pass scanner: a single loop that lexes, tracks words and depth, cuts and trims as it goes. */
module SqlScanner {
  import opened SqlLexer
  import opened SqlSplitter

  /** What is still to be pushed when `buffer` has been read and `tokens` are to come. */
  function Pending(buffer: string, tokens: seq<Token>, r: Reading): seq<string> {
    Onto(buffer, Pieces(tokens, r))
  }

  function Onto(buffer: string, ps: Cuts): seq<string> {
    match ps
    case Last(p) => Statement(buffer + Text(p))
    case Next(p, rest) => Statement(buffer + Text(p)) + Statements(rest)
  }

  lemma OntoNothing(ps: Cuts)
    ensures Onto("", ps) == Statements(ps)
  {
    assert "" + Text(ps.piece) == Text(ps.piece);
  }

  /** A token that does not split goes into the buffer. */
  lemma PendingReads(buffer: string, t: Token, tokens: seq<Token>, r: Reading)
    requires !Splits(r, t)
    ensures Pending(buffer, [t] + tokens, r) == Pending(buffer + Source(t), tokens, Feed(r, t))
  {
    PiecesStep(r, t, tokens);
    var ps := Pieces(tokens, Feed(r, t));
    assert ([t] + ps.piece)[1..] == ps.piece;
    assert buffer + Text([t] + ps.piece) == (buffer + Source(t)) + Text(ps.piece);
  }

  /** A token that splits ends the buffer. */
  lemma PendingSplits(buffer: string, t: Token, tokens: seq<Token>, r: Reading)
    requires Splits(r, t)
    ensures Pending(buffer, [t] + tokens, r) == Statement(buffer) + Pending("", tokens, Feed(r, t))
  {
    PiecesStep(r, t, tokens);
    OntoNothing(Pieces(tokens, Feed(r, t)));
    assert buffer + "" == buffer;
  }

  lemma TokensStep(s: string)
    requires s != ""
    ensures Tokens(s) == [Stripped(First(s))] + Tokens(s[|Source(First(s))|..])
  {
  }

  function Rest(sql: string, i: nat): string {
    if i <= |sql| then sql[i..] else ""
  }

  /** What is still to be pushed in the middle of a literal that `q` closes. */
  function InQuote(s: string, buffer: string, q: char, depth: int): seq<string> {
    var n := QuoteEnd(s, q);
    Pending(buffer + s[..n], Tokens(s[n..]), Reading("", depth))
  }

  /** What is still to be pushed from position `i`, in the middle of a literal if `quote` is not empty. */
  function Todo(sql: string, i: nat, buffer: string, word: string, quote: string, depth: int): seq<string>
    requires |quote| <= 1
  {
    if quote == "" then Pending(buffer, Tokens(Rest(sql, i)), Reading(word, depth))
    else InQuote(Rest(sql, i), buffer, quote[0], depth)
  }

  lemma TodoStart(sql: string)
    ensures Todo(sql, 0, "", "", "", 0) == Split(sql)
  {
    OntoNothing(Pieces(Tokens(sql), Start()));
    assert Rest(sql, 0) == sql;
  }

  lemma TodoEnd(sql: string, i: nat, buffer: string, word: string, quote: string, depth: int)
    requires |quote| <= 1 && i >= |sql|
    ensures Todo(sql, i, buffer, word, quote, depth) == Statement(buffer)
  {
    assert Rest(sql, i) == "" && buffer + "" == buffer;
  }

  // ---- Inside a literal ----

  lemma Absorb(buffer: string, s: string, k: nat, n: nat)
    requires k <= n <= |s|
    ensures buffer + s[..n] == (buffer + s[..k]) + s[k..][..n - k] && s[n..] == s[k..][n - k..]
  {
    assert s[..n] == s[..k] + s[k..][..n - k];
  }

  lemma QuotedOne(s: string, buffer: string, q: char, depth: int)
    requires s != "" && s[0] != q
    ensures InQuote(s, buffer, q, depth) == InQuote(s[1..], buffer + [s[0]], q, depth)
  {
    assert s[..1] == [s[0]];
    Absorb(buffer, s, 1, QuoteEnd(s, q));
  }

  lemma Doubled(buffer: string, s: string, q: char)
    requires |s| > 1 && s[0] == q && s[1] == q
    ensures buffer + s[..2] == buffer + [q] + [q]
  {
    assert s[..2] == [q] + [q];
  }

  lemma QuotedTwo(s: string, buffer: string, q: char, depth: int)
    requires |s| > 1 && s[0] == q && s[1] == q
    ensures InQuote(s, buffer, q, depth) == InQuote(s[2..], buffer + [q] + [q], q, depth)
  {
    Absorb(buffer, s, 2, QuoteEnd(s, q));
    Doubled(buffer, s, q);
  }

  lemma QuotedLast(s: string, buffer: string, q: char, depth: int)
    requires s != "" && s[0] == q && (|s| > 1 ==> s[1] != q)
    ensures InQuote(s, buffer, q, depth) == Pending(buffer + [q], Tokens(s[1..]), Reading("", depth))
  {
    assert s[..1] == [q];
  }

  // ---- Outside literals ----

  /** The first token of what remains, `n` characters of it, goes into the buffer as `text`. */
  lemma Reads(s: string, buffer: string, r: Reading, text: string, n: nat, after: Reading)
    requires s != "" && !Splits(r, Stripped(First(s))) && n == |Source(First(s))|
    requires text == Source(Stripped(First(s))) && after == Feed(r, Stripped(First(s)))
    ensures Pending(buffer, Tokens(s), r) == Pending(buffer + text, Tokens(s[n..]), after)
  {
    TokensStep(s);
    PendingReads(buffer, Stripped(First(s)), Tokens(s[n..]), r);
  }

  /** The first token of what remains ends the buffer. */
  lemma Divides(s: string, buffer: string, r: Reading)
    requires s != "" && Splits(r, Stripped(First(s)))
    ensures var t := First(s);
      Pending(buffer, Tokens(s), r) == Statement(buffer) + Pending("", Tokens(s[|Source(t)|..]), Feed(r, Stripped(t)))
  {
    TokensStep(s);
    PendingSplits(buffer, Stripped(First(s)), Tokens(s[|Source(First(s))|..]), r);
  }

  lemma ReadsOpener(s: string, buffer: string, r: Reading)
    requires s != "" && Opener(s[0])
    ensures Pending(buffer, Tokens(s), r) == InQuote(s[1..], buffer + [s[0]], Closer(s[0]), Finished(r))
  {
    var n := 1 + QuoteEnd(s[1..], Closer(s[0]));
    Reads(s, buffer, r, s[..n], n, Reading("", Finished(r)));
    assert s[..1] == [s[0]];
    Absorb(buffer, s, 1, 1 + QuoteEnd(s[1..], Closer(s[0])));
  }

  lemma LineEndFrom(sql: string, i: nat, j: nat)
    requires i <= j <= |sql| && forall k | i <= k < j :: sql[k] != '\n'
    ensures LineEnd(sql[i..]) == j - i + LineEnd(sql[j..])
    decreases j - i
  {
    if i < j {
      assert sql[i..][1..] == sql[i + 1..];
      LineEndFrom(sql, i + 1, j);
    }
  }

  /** The first token from `i` on ends at `j`, or the text ends before. */
  predicate TokenEnds(sql: string, i: nat, j: nat)
    requires i < |sql|
  {
    j > i && Rest(sql, j) == sql[i..][|Source(First(sql[i..]))|..]
  }

  lemma LineTokenEnds(sql: string, i: nat, j: nat)
    requires i + 1 < |sql| && sql[i] == '-' && sql[i + 1] == '-'
    requires i <= j <= |sql| && (forall k | i <= k < j :: sql[k] != '\n') && (j < |sql| ==> sql[j] == '\n')
    ensures First(sql[i..]).LineComment? && TokenEnds(sql, i, j + 1)
  {
    LineEndFrom(sql, i, j);
  }

  lemma BlockTokenEnds(sql: string, i: nat, j: nat)
    requires i + 2 <= j <= |sql| && sql[i] == '/' && sql[i + 1] == '*'
    requires BlockEnd(sql[i + 2..]) == j - (i + 2) + BlockEnd(sql[j..])
    requires j < |sql| ==> j + 1 < |sql| && sql[j] == '*' && sql[j + 1] == '/'
    ensures First(sql[i..]).BlockComment? && TokenEnds(sql, i, j + 2)
  {
    assert sql[i..][2..] == sql[i + 2..];
  }

  lemma TodoOutside(sql: string, i: nat, buffer: string, word: string, depth: int)
    ensures Todo(sql, i, buffer, word, "", depth) == Pending(buffer, Tokens(Rest(sql, i)), Reading(word, depth))
  {
  }

  lemma ReadsComment(s: string, rest: string, buffer: string, word: string, depth: int)
    requires s != "" && (First(s).LineComment? || First(s).BlockComment?) && rest == s[|Source(First(s))|..]
    ensures Pending(buffer, Tokens(s), Reading(word, depth))
            == Pending(buffer + Source(Stripped(First(s))), Tokens(rest), Reading("", depth + Opens(word)))
  {
    var next := Reading("", depth + Opens(word));
    Reads(s, buffer, Reading(word, depth), Source(Stripped(First(s))), |Source(First(s))|, next);
  }

  /** A comment puts one character of white space into the buffer and ends the word at hand. */
  lemma CommentRead(sql: string, i: nat, j: nat, buffer: string, word: string, depth: int)
    requires i < |sql| && TokenEnds(sql, i, j) && (First(sql[i..]).LineComment? || First(sql[i..]).BlockComment?)
    ensures Todo(sql, i, buffer, word, "", depth)
            == Todo(sql, j, buffer + Source(Stripped(First(sql[i..]))), "", "", depth + Opens(word))
  {
    ReadsComment(sql[i..], Rest(sql, j), buffer, word, depth);
    TodoOutside(sql, i, buffer, word, depth);
    TodoOutside(sql, j, buffer + Source(Stripped(First(sql[i..]))), "", depth + Opens(word));
  }

  lemma Opening(sql: string, i: nat, buffer: string, word: string, depth: int)
    requires i < |sql| && Opener(sql[i])
    ensures Todo(sql, i, buffer, word, "", depth) == InQuote(Rest(sql, i + 1), buffer + [sql[i]], Closer(sql[i]),
        depth + Opens(word))
  {
    ReadsOpener(Rest(sql, i), buffer, Reading(word, depth));
    assert Rest(sql, i)[1..] == Rest(sql, i + 1);
  }

  lemma Opened(sql: string, i: nat, buffer: string, q: char, depth: int)
    ensures Todo(sql, i, buffer, "", [q], depth) == InQuote(Rest(sql, i), buffer, q, depth)
  {
  }

  lemma OpenerRead(sql: string, i: nat, buffer: string, word: string, depth: int)
    requires i < |sql| && Opener(sql[i])
    ensures Todo(sql, i, buffer, word, "", depth) == Todo(sql, i + 1, buffer + [sql[i]], "", [Closer(sql[i])],
        depth + Opens(word))
  {
    Opening(sql, i, buffer, word, depth);
    Opened(sql, i + 1, buffer + [sql[i]], Closer(sql[i]), depth + Opens(word));
  }

  /** Past a line comment and its newline. */
  method SkipLine(sql: string, start: nat) returns (i: nat)
    requires start + 1 < |sql| && sql[start] == '-' && sql[start + 1] == '-'
    ensures First(sql[start..]).LineComment? && TokenEnds(sql, start, i)
  {
    i := start;
    while i < |sql| && sql[i] != '\n'
      invariant start <= i <= |sql| && forall k | start <= k < i :: sql[k] != '\n'
    {
      i := i + 1;
    }
    LineTokenEnds(sql, start, i);
    i := i + 1;
  }

  /** Past a block comment and its closing mark. */
  method SkipBlock(sql: string, start: nat) returns (i: nat)
    requires start + 1 < |sql| && sql[start] == '/' && sql[start + 1] == '*'
    ensures First(sql[start..]).BlockComment? && TokenEnds(sql, start, i)
  {
    i := start + 2;
    while i < |sql| && !(sql[i] == '*' && i + 1 < |sql| && sql[i + 1] == '/')
      invariant start + 2 <= i <= |sql|
      invariant BlockEnd(sql[start + 2..]) == i - (start + 2) + BlockEnd(sql[i..])
    {
      assert sql[i..][1..] == sql[i + 1..];
      i := i + 1;
    }
    BlockTokenEnds(sql, start, i);
    i := i + 2;
  }

  /** The loop body inside a literal. */
  method ReadQuoted(sql: string, i: nat, buffer: string, quote: string, depth: int)
      returns (j: nat, read: string, still: string)
    requires i < |sql| && |quote| == 1
    ensures j > i && (still == quote || still == "")
    ensures Todo(sql, i, buffer, "", quote, depth) == Todo(sql, j, read, "", still, depth)
  {
    var c, next := sql[i], if i + 1 < |sql| then [sql[i + 1]] else "";
    ghost var s := Rest(sql, i);
    assert s[1..] == Rest(sql, i + 1);
    read, still, j := buffer + [c], quote, i + 1;
    if [c] == quote {
      if next == quote {
        QuotedTwo(s, buffer, c, depth);
        assert s[2..] == Rest(sql, i + 2);
        read := read + next;
        j := j + 1;
      } else {
        QuotedLast(s, buffer, c, depth);
        still := "";
      }
    } else {
      QuotedOne(s, buffer, quote[0], depth);
    }
  }

  /** The loop body at a comment. */
  method ReadComment(sql: string, i: nat, buffer: string, word: string, depth: int) returns (j: nat, read: string)
    requires i + 1 < |sql| && ((sql[i] == '-' && sql[i + 1] == '-') || (sql[i] == '/' && sql[i + 1] == '*'))
    ensures j > i && Todo(sql, i, buffer, word, "", depth) == Todo(sql, j, read, "", "", depth + Opens(word))
  {
    if sql[i] == '-' {
      j := SkipLine(sql, i);
      read := buffer + "\n";
    } else {
      j := SkipBlock(sql, i);
      read := buffer + " ";
    }
    CommentRead(sql, i, j, buffer, word, depth);
  }

  /** The loop body at any other character. */
  method ReadPlain(sql: string, i: nat, buffer: string, word: string, depth: int)
    returns (ended: seq<string>, read: string, word': string, depth': int)
    requires i < |sql| && First(sql[i..]) == Plain(sql[i])
    ensures Todo(sql, i, buffer, word, "", depth) == ended + Todo(sql, i + 1, read, word', "", depth')
  {
    var c := sql[i];
    ghost var s, r := Rest(sql, i), Reading(word, depth);
    assert s[1..] == Rest(sql, i + 1);
    ended := [];
    if Letter(Plain(c)) {
      word', depth' := word + [c], depth;
    } else {
      word', depth' := "", depth + Opens(word);
    }
    if c == ';' && depth' == 0 {
      Divides(s, buffer, r);
      if Trim(buffer) != "" {
        ended := [Trim(buffer)];
      }
      read := "";
    } else {
      Reads(s, buffer, r, [c], 1, Reading(word', depth'));
      read := buffer + [c];
    }
  }

  lemma Regroup(a: seq<string>, b: seq<string>, c: seq<string>)
    ensures (a + b) + c == a + (b + c)
  {
  }

  /** Splits `sql` in one pass. */
  method SplitSql(sql: string) returns (statements: seq<string>)
    ensures statements == Split(sql)
  {
    statements := [];
    var buffer, word, quote, depth := "", "", "", 0;
    var i := 0;
    TodoStart(sql);
    ghost var todo := Split(sql);
    while i < |sql|
      invariant 0 <= i && |quote| <= 1 && (quote != "" ==> word == "")
      invariant todo == Todo(sql, i, buffer, word, quote, depth) && statements + todo == Split(sql)
      decreases |sql| - i
    {
      var c, next := sql[i], if i + 1 < |sql| then [sql[i + 1]] else "";
      if quote != "" {
        i, buffer, quote := ReadQuoted(sql, i, buffer, quote, depth);
      } else if (c == '-' && next == "-") || (c == '/' && next == "*") {
        i, buffer := ReadComment(sql, i, buffer, word, depth);
        word, depth := "", depth + Opens(word);
      } else if Opener(c) {
        OpenerRead(sql, i, buffer, word, depth);
        word, depth := "", depth + Opens(word);
        quote := [Closer(c)];
        buffer := buffer + [c];
        i := i + 1;
      } else {
        var ended;
        ended, buffer, word, depth := ReadPlain(sql, i, buffer, word, depth);
        Regroup(statements, ended, Todo(sql, i + 1, buffer, word, quote, depth));
        statements := statements + ended;
        i := i + 1;
      }
      todo := Todo(sql, i, buffer, word, quote, depth);
    }
    TodoEnd(sql, i, buffer, word, quote, depth);
    if Trim(buffer) != "" {
      statements := statements + [Trim(buffer)];
    }
  }
}
