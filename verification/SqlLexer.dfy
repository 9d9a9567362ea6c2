/** SQL text as a sequence of tokens: quoted literals, comments, and single characters. */
module SqlLexer {

  datatype Token = Plain(c: char) | Literal(text: string) | LineComment(text: string) | BlockComment(text: string)

  predicate Opener(c: char) {
    c == '\'' || c == '"' || c == '`' || c == '['
  }

  function Closer(c: char): char {
    if c == '[' then ']' else c
  }

  function Source(t: Token): string {
    match t
    case Plain(c) => [c]
    case Literal(text) => text
    case LineComment(text) => text
    case BlockComment(text) => text
  }

  function Text(tokens: seq<Token>): string {
    if tokens == [] then "" else Source(tokens[0]) + Text(tokens[1..])
  }

  /** Length of a line up to and including its newline. */
  function LineEnd(s: string): (n: nat)
    ensures n <= |s| && (s != "" ==> n > 0)
  {
    if s == "" then 0 else if s[0] == '\n' then 1 else 1 + LineEnd(s[1..])
  }

  /** Length of a block comment's remainder, its closing mark included. */
  function BlockEnd(s: string): (n: nat)
    ensures n <= |s|
  {
    if |s| < 2 then |s| else if s[0] == '*' && s[1] == '/' then 2 else 1 + BlockEnd(s[1..])
  }

  /** Length of a literal's remainder up to and including the mark that closes it; a doubled mark does not. */
  function QuoteEnd(s: string, q: char): (n: nat)
    ensures n <= |s|
  {
    if s == "" then 0
    else if s[0] != q then 1 + QuoteEnd(s[1..], q)
    else if |s| > 1 && s[1] == q then 2 + QuoteEnd(s[2..], q)
    else 1
  }

  /** The rest of a literal, closed by its last character. */
  predicate Closed(t: string, q: char) {
    if t == "" then false
    else if t[0] != q then Closed(t[1..], q)
    else |t| == 1 || (t[1] == q && Closed(t[2..], q))
  }

  /** The rest of a literal that is never closed. */
  predicate Unclosed(t: string, q: char) {
    if t == "" then true
    else if t[0] != q then Unclosed(t[1..], q)
    else |t| > 1 && t[1] == q && Unclosed(t[2..], q)
  }

  /** The first token of `s`. */
  function First(s: string): (t: Token)
    requires s != ""
    ensures 0 < |Source(t)| <= |s| && Source(t) == s[..|Source(t)|]
  {
    if s[0] == '-' && |s| > 1 && s[1] == '-' then LineComment(s[..LineEnd(s)])
    else if s[0] == '/' && |s| > 1 && s[1] == '*' then BlockComment(s[..2 + BlockEnd(s[2..])])
    else if Opener(s[0]) then Literal(s[..1 + QuoteEnd(s[1..], Closer(s[0]))])
    else Plain(s[0])
  }

  function Lex(s: string): seq<Token>
    decreases |s|
  {
    if s == "" then [] else [First(s)] + Lex(s[|Source(First(s))|..])
  }

  /** A comment stands for one character of white space. */
  function Stripped(t: Token): Token {
    match t
    case LineComment(_) => Plain('\n')
    case BlockComment(_) => Plain(' ')
    case _ => t
  }

  /** The tokens of `s` with its comments stripped. */
  function Tokens(s: string): seq<Token>
    decreases |s|
  {
    if s == "" then [] else [Stripped(First(s))] + Tokens(s[|Source(First(s))|..])
  }

  /** A line comment ends with the first newline, or the text. */
  lemma {:induction false} LineEndsFirst(s: string)
    ensures var n := LineEnd(s); (forall k | 0 <= k < n - 1 :: s[k] != '\n') && (n < |s| ==> s[n - 1] == '\n')
  {
    if s != "" && s[0] != '\n' {
      LineEndsFirst(s[1..]);
      forall k | 0 <= k < LineEnd(s) - 1 ensures s[k] != '\n' { if k > 0 { assert s[k] == s[1..][k - 1]; } }
    }
  }

  /** A block comment ends with the first closing mark behind its opening, or the text. */
  lemma {:induction false} BlockEndsFirst(s: string)
    ensures var n := BlockEnd(s);
      (forall k | 0 <= k < n - 2 :: s[k] != '*' || s[k + 1] != '/') &&
          (n < |s| ==> n >= 2 && s[n - 2] == '*' && s[n - 1] == '/')
  {
    if |s| >= 2 && !(s[0] == '*' && s[1] == '/') {
      BlockEndsFirst(s[1..]);
      forall k | 0 <= k < BlockEnd(s) - 2 ensures s[k] != '*' || s[k + 1] != '/' {
        if k > 0 { assert s[k] == s[1..][k - 1] && s[k + 1] == s[1..][k]; }
      }
    }
  }

  /** Lexing loses nothing. */
  lemma {:induction false} LexCovers(s: string)
    ensures Text(Lex(s)) == s
    decreases |s|
  {
    if s != "" {
      var t := First(s);
      var rest := s[|Source(t)|..];
      LexCovers(rest);
      assert Lex(s) == [t] + Lex(rest) && ([t] + Lex(rest))[1..] == Lex(rest);
      assert s == Source(t) + rest;
    }
  }

  lemma TextCons(t: Token, rest: seq<Token>)
    ensures Text([t] + rest) == Source(t) + Text(rest)
  {
    assert ([t] + rest)[0] == t && ([t] + rest)[1..] == rest;
  }

  lemma {:induction false} TextAppend(a: seq<Token>, b: seq<Token>)
    ensures Text(a + b) == Text(a) + Text(b)
  {
    if a == [] {
      assert a + b == b && "" + Text(b) == Text(b);
    } else {
      TextAppend(a[1..], b);
      assert a + b == [a[0]] + (a[1..] + b);
      TextCons(a[0], a[1..] + b);
      assert Source(a[0]) + (Text(a[1..]) + Text(b)) == (Source(a[0]) + Text(a[1..])) + Text(b);
    }
  }

  // ---- Where a literal ends ----

  lemma {:induction false} QuoteEndSplits(s: string, q: char)
    ensures var n := QuoteEnd(s, q);
      if Closed(s[..n], q) then n < |s| ==> s[n] != q else n == |s| && Unclosed(s, q)
  {
    var n := QuoteEnd(s, q);
    if s == "" {
    } else if s[0] != q {
      QuoteEndSplits(s[1..], q);
      assert s[..n][1..] == s[1..][..n - 1];
    } else if |s| > 1 && s[1] == q {
      QuoteEndSplits(s[2..], q);
      assert s[..n][2..] == s[2..][..n - 2];
    }
  }

  lemma {:induction false} ClosedEnds(t: string, q: char, rest: string)
    requires Closed(t, q) && (rest != "" ==> rest[0] != q)
    ensures QuoteEnd(t + rest, q) == |t|
  {
    if t[0] != q {
      ClosedEnds(t[1..], q, rest);
      assert (t + rest)[1..] == t[1..] + rest;
    } else if |t| > 1 {
      ClosedEnds(t[2..], q, rest);
      assert (t + rest)[2..] == t[2..] + rest;
    }
  }

  lemma {:induction false} UnclosedEnds(t: string, q: char)
    requires Unclosed(t, q)
    ensures QuoteEnd(t, q) == |t|
  {
    if t == "" {
    } else if t[0] != q {
      UnclosedEnds(t[1..], q);
    } else {
      UnclosedEnds(t[2..], q);
    }
  }

  lemma {:induction false} ClosedLast(t: string, q: char)
    requires Closed(t, q)
    ensures t[|t| - 1] == q
  {
    if t[0] != q {
      ClosedLast(t[1..], q);
    } else if |t| > 1 {
      ClosedLast(t[2..], q);
    }
  }

  lemma {:induction false} UnclosedPrefix(t: string, n: nat, q: char)
    requires n <= |t| && Unclosed(t, q) && forall k | n <= k < |t| :: t[k] != q
    ensures Unclosed(t[..n], q)
  {
    if n == 0 {
    } else if t[0] != q {
      assert t[1..][..n - 1] == t[..n][1..];
      UnclosedPrefix(t[1..], n - 1, q);
    } else {
      assert t[1] == q;
      assert t[2..][..n - 2] == t[..n][2..];
      UnclosedPrefix(t[2..], n - 2, q);
    }
  }

  // ---- Token sequences that lex back to themselves ----

  predicate Sealed(t: Token) {
    match t
    case Plain(c) => !Opener(c)
    case Literal(text) => text != "" && Opener(text[0]) && Closed(text[1..], Closer(text[0]))
    case _ => false
  }

  predicate Ragged(t: Token) {
    t.Literal? && t.text != "" && Opener(t.text[0]) && Unclosed(t.text[1..], Closer(t.text[0]))
  }

  /** Next to each other `a` and `b` do not run together. */
  predicate Apart(a: Token, b: Token) {
    Source(b) != "" &&
    match a
    case Plain(c) => !(c == '-' && Source(b)[0] == '-') && !(c == '/' && Source(b)[0] == '*')
    case Literal(text) => text != "" && Source(b)[0] != Closer(text[0])
    case _ => false
  }

  /** No comments, and only the last token may be a literal cut off by the end of the text. */
  predicate Faithful(tokens: seq<Token>) {
    && (forall i | 0 <= i < |tokens| :: Sealed(tokens[i]) || (i == |tokens| - 1 && Ragged(tokens[i])))
    && (forall i | 0 <= i < |tokens| - 1 :: Apart(tokens[i], tokens[i + 1]))
  }

  lemma FirstStripped(s: string)
    requires s != ""
    ensures var t := Stripped(First(s)); Sealed(t) || (|Source(First(s))| == |s| && Ragged(t))
    ensures var t := Stripped(First(s));
      t == Plain('\n') || t == Plain(' ') || (Source(t) != "" && Source(t)[0] == s[0])
    ensures |Source(First(s))| < |s| ==> Apart(Stripped(First(s)), Plain('\n')) && Apart(Stripped(First(s)), Plain(' '))
    ensures forall b :: |Source(First(s))| < |s| && Source(b) != "" && Source(b)[0] == s[|Source(First(s))|] ==>
        Apart(Stripped(First(s)), b)
  {
    if First(s).Literal? {
      QuoteEndSplits(s[1..], Closer(s[0]));
      var n := QuoteEnd(s[1..], Closer(s[0]));
      assert s[..1 + n][1..] == s[1..][..n];
      if n < |s| - 1 { assert s[1..][n] == s[1 + n]; } else { assert s[1..][..n] == s[1..]; }
    }
  }

  lemma {:induction false} TokensFaithful(s: string)
    ensures Faithful(Tokens(s))
    decreases |s|
  {
    if s != "" {
      var n := |Source(First(s))|;
      FirstStripped(s);
      TokensFaithful(s[n..]);
      if n < |s| { FirstStripped(s[n..]); }
      assert Tokens(s)[1..] == Tokens(s[n..]);
      forall i | 0 <= i < |Tokens(s)| - 1 ensures Apart(Tokens(s)[i], Tokens(s)[i + 1]) {
        if i > 0 { assert Apart(Tokens(s[n..])[i - 1], Tokens(s[n..])[i]); }
      }
    }
  }

  lemma FirstOfLiteral(text: string, rest: string)
    requires var t := Literal(text);
      (Sealed(t) && (rest != "" ==> rest[0] != Closer(text[0]))) || (Ragged(t) && rest == "")
    ensures First(text + rest) == Literal(text)
  {
    var s, q := text + rest, Closer(text[0]);
    assert s[1..] == text[1..] + rest;
    if Sealed(Literal(text)) {
      ClosedEnds(text[1..], q, rest);
    } else {
      UnclosedEnds(text[1..], q);
      assert s == text;
    }
    assert s[..|text|] == text;
  }

  lemma FirstOfText(tokens: seq<Token>)
    requires Faithful(tokens) && tokens != []
    ensures Text(tokens) != "" && First(Text(tokens)) == tokens[0]
  {
    var t, rest := tokens[0], Text(tokens[1..]);
    assert Sealed(t) || Ragged(t);
    assert Text(tokens) == Source(t) + rest;
    if |tokens| > 1 {
      assert Apart(t, tokens[1]);
      assert rest == Source(tokens[1]) + Text(tokens[1..][1..]);
    }
    if t.Literal? { FirstOfLiteral(t.text, rest); }
  }

  /** Token sequences without comments that keep their tokens apart survive being written out. */
  lemma {:induction false} LexText(tokens: seq<Token>)
    requires Faithful(tokens)
    ensures Lex(Text(tokens)) == tokens && Tokens(Text(tokens)) == tokens
  {
    if tokens != [] {
      FirstOfText(tokens);
      forall i | 0 <= i < |tokens[1..]| - 1 ensures Apart(tokens[1..][i], tokens[1..][i + 1]) {
        assert Apart(tokens[i + 1], tokens[i + 2]);
      }
      LexText(tokens[1..]);
      assert Text(tokens)[|Source(tokens[0])|..] == Text(tokens[1..]);
    }
  }

  /** The text with each line comment, its newline included, replaced by a newline, and each block comment
      by a space. */
  function Strip(s: string): string {
    Text(Tokens(s))
  }

  /** Stripping leaves no comment and never creates one. */
  lemma StripIsFinal(s: string)
    ensures Strip(Strip(s)) == Strip(s)
    ensures forall t | t in Lex(Strip(s)) :: t.Plain? || t.Literal?
  {
    TokensFaithful(s);
    LexText(Tokens(s));
  }
}
