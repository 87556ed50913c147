/** Blanking comments and string literals in place, as the query audit does before it looks for calls. */
module Blanker {
  import opened TextScan

  /** Every character but a newline becomes a space. */
  function Blank(s: string): string {
    seq(|s|, k requires 0 <= k < |s| => if s[k] == '\n' then '\n' else ' ')
  }

  /** indexOf("*" "/", i), and the end of the comment it closes; the end of the text if there is none. */
  function BlockEnd(s: string, i: nat): (n: nat)
    requires i <= |s|
    ensures i <= n <= |s|
    decreases |s| - i
  {
    if i + 1 >= |s| then |s|
    else if s[i] == '*' && s[i + 1] == '/' then i + 2
    else BlockEnd(s, i + 1)
  }

  /** Where the scan for the closing quote stops: on it, or at or one past the end. */
  function QuoteEnd(s: string, j: nat, quote: char): (n: nat)
    requires j <= |s| + 1
    ensures j <= n <= |s| + 1
    ensures n < |s| ==> s[n] == quote
    decreases |s| - j
  {
    if j >= |s| || s[j] == quote then j
    else QuoteEnd(s, j + (if s[j] == '\\' then 2 else 1), quote)
  }

  function Clamp(s: string, i: nat): nat {
    if i <= |s| then i else |s|
  }

  predicate CommentAt(s: string, i: nat) {
    i + 1 < |s| && s[i] == '/' && (s[i + 1] == '/' || s[i + 1] == '*')
  }

  /** A piece of the text: where it ends and what it turns into. */
  datatype Piece = Piece(next: nat, text: string) {
    function Shift(k: nat): Piece {
      Piece(k + next, text)
    }
  }

  function CommentPiece(s: string, i: nat, next: nat): Piece
    requires i <= next <= |s|
  {
    Piece(next, Blank(s[i..next]))
  }

  function LiteralPiece(s: string, i: nat, close: nat): Piece
    requires i < |s| && i < close
  {
    Piece(close + 1, [s[i]] + Blank(s[i + 1..Clamp(s, close)]) + (if close < |s| then [s[close]] else ""))
  }

  /** The piece that starts at a position: a comment, a literal, or one character of code. */
  function PieceAt(s: string, i: nat): (p: Piece)
    requires i < |s|
    ensures i < p.next <= |s| + 2
  {
    if CommentAt(s, i) then CommentPiece(s, i, if s[i + 1] == '/' then LineEnd(s, i + 1) else BlockEnd(s, i + 2))
    else if IsQuote(s[i]) then LiteralPiece(s, i, QuoteEnd(s, i + 1, s[i]))
    else Piece(i + 1, [s[i]])
  }

  function Stripped(s: string, i: nat): string
    decreases |s| - i
  {
    if i >= |s| then ""
    else var p := PieceAt(s, i); p.text + Stripped(s, p.next)
  }

  /** The literal loop: where the closing quote of the literal opened at `i` is. */
  method FindClose(src: string, i: nat) returns (j: nat)
    requires i < |src|
    ensures j == QuoteEnd(src, i + 1, src[i])
  {
    var quote := src[i];
    j := i + 1;
    while j < |src| && src[j] != quote
      invariant i < j <= |src| + 1
      invariant QuoteEnd(src, j, quote) == QuoteEnd(src, i + 1, quote)
      decreases |src| - j
    {
      j := j + (if src[j] == '\\' then 2 else 1);
    }
  }

  lemma TwoCharacters(s: string, i: nat)
    requires i < |s|
    ensures var two := s[i..Clamp(s, i + 2)];
            (two == "//" <==> CommentAt(s, i) && s[i + 1] == '/')
              && (two == "/*" <==> CommentAt(s, i) && s[i + 1] == '*')
  {
    var two := s[i..Clamp(s, i + 2)];
    if i + 1 < |s| {
      assert two[0] == s[i] && two[1] == s[i + 1];
      assert two == [s[i], s[i + 1]];
    }
  }

  /** stripCommentsAndStrings */
  method StripCommentsAndStrings(src: string) returns (out: string)
    ensures out == Stripped(src, 0)
  {
    out := "";
    var i := 0;
    while i < |src|
      invariant out + Stripped(src, i) == Stripped(src, 0)
      decreases |src| - i
    {
      var two := src[i..Clamp(src, i + 2)];
      TwoCharacters(src, i);
      var stop, text;
      if two == "//" {
        stop := LineEnd(src, i + 1);
        text := Blank(src[i..stop]);
        assert PieceAt(src, i) == Piece(stop, text);
      } else if two == "/*" {
        stop := BlockEnd(src, i + 2);
        text := Blank(src[i..stop]);
        assert PieceAt(src, i) == Piece(stop, text);
      } else if src[i] == '"' || src[i] == '\'' || src[i] == '`' {
        var j := FindClose(src, i);
        stop := j + 1;
        text := [src[i]] + Blank(src[i + 1..Clamp(src, j)]) + (if j < |src| then [src[j]] else "");
        assert PieceAt(src, i) == Piece(stop, text);
      } else {
        stop := i + 1;
        text := [src[i]];
        assert PieceAt(src, i) == Piece(stop, text);
      }
      Assoc(out, text, Stripped(src, stop));
      out := out + text;
      i := stop;
    }
  }

  lemma Assoc(a: string, b: string, c: string)
    ensures a + (b + c) == (a + b) + c
  {}

  // ----- positions are preserved ---------------------------------------------

  /** b is s with some characters blanked: same length, same newlines, every character kept or a space. */
  ghost predicate Blanked(s: string, b: string) {
    |b| == |s|
    && (forall k :: 0 <= k < |s| ==> b[k] == s[k] || b[k] == ' ')
    && (forall k :: 0 <= k < |s| ==> (b[k] == '\n' <==> s[k] == '\n'))
  }

  lemma BlankedConcat(s: string, i: nat, next: nat, b: string, c: string)
    requires i <= next <= |s| && Blanked(s[i..next], b) && Blanked(s[next..], c)
    ensures Blanked(s[i..], b + c)
  {
    assert s[i..] == s[i..next] + s[next..];
  }

  lemma PieceBlanked(s: string, i: nat)
    requires i < |s|
    ensures Blanked(s[i..Clamp(s, PieceAt(s, i).next)], PieceAt(s, i).text)
  {
    hide LineEnd, BlockEnd, QuoteEnd, CommentPiece, LiteralPiece, Blanked;
    if CommentAt(s, i) {
      CommentBlanked(s, i, if s[i + 1] == '/' then LineEnd(s, i + 1) else BlockEnd(s, i + 2));
    } else if IsQuote(s[i]) {
      LiteralBlanked(s, i, QuoteEnd(s, i + 1, s[i]));
    } else {
      CodeBlanked(s, i);
    }
  }

  lemma CommentBlanked(s: string, i: nat, next: nat)
    requires i <= next <= |s|
    ensures Blanked(s[i..Clamp(s, CommentPiece(s, i, next).next)], CommentPiece(s, i, next).text)
  {}

  lemma LiteralBlanked(s: string, i: nat, close: nat)
    requires i < |s| && i < close
    ensures Blanked(s[i..Clamp(s, LiteralPiece(s, i, close).next)], LiteralPiece(s, i, close).text)
  {}

  lemma CodeBlanked(s: string, i: nat)
    requires i < |s|
    ensures Blanked(s[i..Clamp(s, i + 1)], [s[i]])
  {}

  lemma {:induction false} StrippedBlanks(s: string, i: nat)
    requires i <= |s|
    ensures Blanked(s[i..], Stripped(s, i))
    decreases |s| - i
  {
    if i < |s| {
      PieceBlanked(s, i);
      var p := PieceAt(s, i);
      var next := Clamp(s, p.next);
      StrippedBlanks(s, next);
      BlankedConcat(s, i, next, p.text, Stripped(s, next));
    }
  }

  /** Offsets and lines survive blanking, for every text, also one that ends inside a literal or comment. */
  lemma PositionsKept(src: string)
    ensures Blanked(src, Stripped(src, 0))
  {
    StrippedBlanks(src, 0);
    assert src[0..] == src;
  }

  // ----- blanking twice changes nothing ----------------------------------------

  lemma {:induction false} BlockEndShift(s: string, k: nat, i: nat)
    requires k + i <= |s|
    ensures BlockEnd(s, k + i) == k + BlockEnd(s[k..], i)
    decreases |s| - i
  {
    if k + i + 1 < |s| && !(s[k + i] == '*' && s[k + i + 1] == '/') {
      BlockEndShift(s, k, i + 1);
    }
  }

  lemma {:induction false} QuoteEndShift(s: string, k: nat, j: nat, quote: char)
    requires k <= |s| && k + j <= |s| + 1
    ensures QuoteEnd(s, k + j, quote) == k + QuoteEnd(s[k..], j, quote)
    decreases |s| - j
  {
    if k + j < |s| && s[k + j] != quote {
      QuoteEndShift(s, k, j + (if s[k + j] == '\\' then 2 else 1), quote);
    }
  }

  lemma CommentShift(s: string, k: nat, i: nat)
    requires k + i < |s| && CommentAt(s[k..], i)
    ensures PieceAt(s, k + i) == PieceAt(s[k..], i).Shift(k)
  {
    hide QuoteEnd, LineEnd, BlockEnd, Blank;
    var tail := s[k..];
    LineEndShift(s, k, i + 1);
    BlockEndShift(s, k, i + 2);
    var next := if tail[i + 1] == '/' then LineEnd(tail, i + 1) else BlockEnd(tail, i + 2);
    assert tail[i..next] == s[k + i..k + next];
    assert PieceAt(tail, i) == CommentPiece(tail, i, next);
  }

  lemma LiteralShift(s: string, k: nat, i: nat)
    requires k + i < |s| && !CommentAt(s[k..], i) && IsQuote(s[k + i])
    ensures PieceAt(s, k + i) == PieceAt(s[k..], i).Shift(k)
  {
    hide QuoteEnd, LineEnd, BlockEnd, Blank;
    var tail := s[k..];
    QuoteEndShift(s, k, i + 1, s[k + i]);
    var close := QuoteEnd(tail, i + 1, tail[i]);
    assert tail[i + 1..Clamp(tail, close)] == s[k + i + 1..Clamp(s, k + close)];
    assert PieceAt(tail, i) == LiteralPiece(tail, i, close);
  }

  lemma PieceShift(s: string, k: nat, i: nat)
    requires k + i < |s|
    ensures PieceAt(s, k + i) == PieceAt(s[k..], i).Shift(k)
  {
    if CommentAt(s[k..], i) {
      CommentShift(s, k, i);
    } else if IsQuote(s[k + i]) {
      LiteralShift(s, k, i);
    }
  }

  lemma StrippedStep(s: string, i: nat, p: Piece)
    requires i < |s| && p == PieceAt(s, i)
    ensures Stripped(s, i) == p.text + Stripped(s, p.next)
  {}

  lemma {:induction false} StrippedShift(s: string, k: nat, i: nat)
    requires k <= |s|
    ensures Stripped(s, k + i) == Stripped(s[k..], i)
    decreases |s| - i
  {
    hide PieceAt;
    if k + i < |s| {
      var p := PieceAt(s[k..], i);
      PieceShift(s, k, i);
      StrippedStep(s, k + i, p.Shift(k));
      StrippedStep(s[k..], i, p);
      StrippedShift(s, k, p.next);
    }
  }

  /** A text that starts with a given piece. */
  lemma StrippedFront(t: string, c: string, text: string)
    requires t != "" && PieceAt(t + c, 0) == Piece(|t|, text)
    ensures Stripped(t + c, 0) == text + Stripped(c, 0)
  {
    assert (t + c)[|t|..] == c;
    StrippedShift(t + c, |t|, 0);
  }

  predicate AllBlank(s: string) {
    forall k :: 0 <= k < |s| ==> s[k] == ' ' || s[k] == '\n'
  }

  lemma {:induction false} BlankPrefix(b: string, c: string)
    requires AllBlank(b)
    ensures Stripped(b + c, 0) == b + Stripped(c, 0)
    decreases b
  {
    if b == "" {
      assert b + c == c;
    } else {
      var first := [b[0]];
      assert b + c == first + (b[1..] + c);
      StrippedFront(first, b[1..] + c, first);
      BlankPrefix(b[1..], c);
      assert b == first + b[1..];
      Assoc(first, b[1..], Stripped(c, 0));
    }
  }

  lemma {:induction false} QuoteEndOverBlanks(s: string, j: nat, n: nat, quote: char)
    requires j <= n <= |s| && IsQuote(quote) && AllBlank(s[j..n])
    requires n < |s| ==> s[n] == quote
    ensures QuoteEnd(s, j, quote) == n
    decreases n - j
  {
    if j < n {
      assert s[j] == s[j..n][0];
      assert s[j + 1..n] == s[j..n][1..];
      QuoteEndOverBlanks(s, j + 1, n, quote);
    }
  }

  /** A blanked literal in front of anything is again a literal, and blanks to itself. */
  lemma LiteralTwice(quote: char, b: string, end: string, c: string)
    requires IsQuote(quote) && AllBlank(b) && (end == [quote] || (end == "" && c == ""))
    ensures var lit := [quote] + b + end; Stripped(lit + c, 0) == lit + Stripped(c, 0)
  {
    var lit := [quote] + b + end;
    var s := lit + c;
    assert s[1..1 + |b|] == b && Blank(b) == b;
    QuoteEndOverBlanks(s, 1, 1 + |b|, quote);
    assert PieceAt(s, 0) == Piece(|b| + 2, lit);
    if end != "" {
      StrippedFront(lit, c, lit);
    } else {
      assert lit + c == lit;
    }
  }

  lemma CodeTwice(s: string, i: nat)
    requires i < |s| && !CommentAt(s, i) && !IsQuote(s[i])
    ensures var c := Stripped(s, i + 1); Stripped([s[i]] + c, 0) == [s[i]] + Stripped(c, 0)
  {
    var c := Stripped(s, i + 1);
    var both := [s[i]] + c;
    StrippedBlanks(s, i + 1);
    if i + 1 < |s| {
      assert c[0] == s[i + 1..][0] || c[0] == ' ';
    }
    assert !CommentAt(both, 0);
    StrippedFront([s[i]], c, [s[i]]);
  }

  lemma PieceTwice(s: string, i: nat)
    requires i < |s|
    ensures var p := PieceAt(s, i); var c := Stripped(s, p.next); Stripped(p.text + c, 0) == p.text + Stripped(c, 0)
  {
    var p := PieceAt(s, i);
    var c := Stripped(s, p.next);
    if CommentAt(s, i) {
      BlankPrefix(p.text, c);
    } else if IsQuote(s[i]) {
      var close := QuoteEnd(s, i + 1, s[i]);
      var end := if close < |s| then [s[close]] else "";
      LiteralTwice(s[i], Blank(s[i + 1..Clamp(s, close)]), end, c);
    } else {
      CodeTwice(s, i);
    }
  }

  lemma {:induction false} StrippedTwice(s: string, i: nat)
    ensures Stripped(Stripped(s, i), 0) == Stripped(s, i)
    decreases |s| - i
  {
    if i < |s| {
      StrippedTwice(s, PieceAt(s, i).next);
      PieceTwice(s, i);
    }
  }

  /** Blanking creates no comment or literal: a second pass changes nothing. */
  lemma Idempotent(src: string)
    ensures Stripped(Stripped(src, 0), 0) == Stripped(src, 0)
  {
    StrippedTwice(src, 0);
  }

  // ----- what is blanked ------------------------------------------------------------------------

  /** Inside a literal: characters other than the quote, each backslash with the character it escapes. */
  predicate Quotable(t: string, quote: char) {
    t == "" ||
    (if t[0] == '\\' then |t| >= 2 && Quotable(t[2..], quote) else t[0] != quote && Quotable(t[1..], quote))
  }

  /** Each character of `c`, in front of `rest`, is a newline and stays or has become a space. */
  predicate Erased(c: string, out: string, rest: string) {
    |out| == |c| + |rest| && out[|c|..] == rest
    && forall k :: 0 <= k < |c| ==> out[k] == if c[k] == '\n' then '\n' else ' '
  }

  lemma {:induction false} BlockEndIs(s: string, i: nat, n: nat)
    requires i <= n <= |s| && forall k :: i <= k < n && k + 1 < |s| ==> !(s[k] == '*' && s[k + 1] == '/')
    requires n == |s| || (n + 1 < |s| && s[n] == '*' && s[n + 1] == '/')
    ensures BlockEnd(s, i) == if n == |s| then n else n + 2
    decreases n - i
  {
    if i < n {
      BlockEndIs(s, i + 1, n);
    }
  }

  lemma {:induction false} QuoteEndIs(s: string, i: nat, n: nat, quote: char)
    requires i <= n <= |s| && Quotable(s[i..n], quote) && (n < |s| ==> s[n] == quote) && quote != '\\'
    ensures QuoteEnd(s, i, quote) == n
    decreases n - i
  {
    if i < n {
      assert s[i..n][0] == s[i];
      var step := if s[i] == '\\' then 2 else 1;
      assert s[i..n][step..] == s[i + step..n];
      QuoteEndIs(s, i + step, n, quote);
    }
  }

  /** A line comment, up to the newline or the end of the text, becomes spaces. */
  lemma LineCommentErased(t: string, rest: string)
    requires forall k :: 0 <= k < |t| ==> t[k] != '\n'
    requires rest == "" || rest[0] == '\n'
    ensures Erased("//" + t, Stripped("//" + t + rest, 0), Stripped(rest, 0))
  {
    var c := "//" + t;
    var s := c + rest;
    assert forall k :: 1 <= k < |c| ==> s[k] == c[k];
    LineEndIs(s, 1, |c|);
    assert s[0..|c|] == c;
    assert CommentAt(s, 0) && s[1] == '/';
    StrippedFront(c, rest, Blank(c));
  }

  /** A block comment becomes spaces and newlines. */
  lemma BlockCommentErased(t: string, rest: string)
    requires NoBlockEnd(t)
    ensures Erased("/*" + t + "*/", Stripped("/*" + t + "*/" + rest, 0), Stripped(rest, 0))
  {
    var c := "/*" + t + "*/";
    var s := c + rest;
    assert forall k :: 0 <= k < |c| ==> s[k] == c[k];
    assert forall k :: 2 <= k < |c| - 2 ==> c[k] == t[k - 2];
    BlockEndIs(s, 2, |t| + 2);
    assert s[0..|c|] == c;
    StrippedFront(c, rest, Blank(c));
  }

  /** One that is never closed erases the rest of the text. */
  lemma OpenCommentErased(t: string)
    requires NoBlockEnd(t)
    ensures Erased("/*" + t, Stripped("/*" + t, 0), "")
  {
    var c := "/*" + t;
    BlockEndIs(c, 2, |c|);
    assert c[0..|c|] == c;
    assert c + "" == c;
    StrippedFront(c, "", Blank(c));
  }

  lemma ErasedByBlank(c: string, rest: string)
    ensures Erased(c, Blank(c) + rest, rest)
  {
    assert (Blank(c) + rest)[|c|..] == rest;
  }

  /** A literal keeps its quotes alone. */
  lemma LiteralErased(quote: char, t: string, rest: string)
    requires IsQuote(quote) && Quotable(t, quote)
    ensures var out := Stripped([quote] + t + [quote] + rest, 0);
            out != "" && out[0] == quote && Erased(t, out[1..], [quote] + Stripped(rest, 0))
  {
    hide Erased, Quotable, QuoteEnd, Stripped, Blank;
    var c, text := [quote] + t + [quote], [quote] + Blank(t) + [quote];
    LiteralPieceIs(quote, t, rest);
    StrippedFront(c, rest, text);
    assert (text + Stripped(rest, 0))[1..] == Blank(t) + ([quote] + Stripped(rest, 0));
    ErasedByBlank(t, [quote] + Stripped(rest, 0));
  }

  lemma LiteralPieceIs(quote: char, t: string, rest: string)
    requires IsQuote(quote) && Quotable(t, quote)
    ensures PieceAt([quote] + t + [quote] + rest, 0) == Piece(|t| + 2, [quote] + Blank(t) + [quote])
  {
    hide Quotable, QuoteEnd, Blank;
    var s := [quote] + t + [quote] + rest;
    assert s[1..|t| + 1] == t && s[|t| + 1] == quote;
    QuoteEndIs(s, 1, |t| + 1, quote);
  }

  /** One that is never closed, be it behind a last backslash, keeps its opening quote alone. */
  lemma OpenLiteralErased(quote: char, t: string, open: string)
    requires IsQuote(quote) && Quotable(t, quote) && (open == "" || open == "\\")
    ensures var out := Stripped([quote] + t + open, 0); out != "" && out[0] == quote && Erased(t + open, out[1..], "")
  {
    var s := [quote] + t + open;
    assert s[1..|t| + 1] == t;
    if open == "" {
      QuoteEndIs(s, 1, |s|, quote);
    } else {
      QuoteEndOpen(s, 1, |t| + 1, quote);
    }
    assert s[1..|s|] == t + open;
    var text := [quote] + Blank(t + open);
    assert PieceAt(s, 0).text == text;
    assert Stripped(s, PieceAt(s, 0).next) == "";
    assert Stripped(s, 0) == text;
  }

  lemma {:induction false} QuoteEndOpen(s: string, i: nat, n: nat, quote: char)
    requires i <= n == |s| - 1 && Quotable(s[i..n], quote) && s[n] == '\\' && quote != '\\'
    ensures QuoteEnd(s, i, quote) == |s| + 1
    decreases n - i
  {
    if i < n {
      assert s[i..n][0] == s[i];
      var step := if s[i] == '\\' then 2 else 1;
      assert s[i..n][step..] == s[i + step..n];
      QuoteEndOpen(s, i + step, n, quote);
    }
  }

  /** Code, which opens neither comment nor literal, stays as it is. */
  predicate IsCode(t: string, rest: string) {
    (forall k :: 0 <= k < |t| ==> !IsQuote(t[k])) && forall k :: 0 <= k < |t| ==> !CommentAt(t + rest, k)
  }

  lemma {:induction false} CodeStays(t: string, rest: string)
    requires IsCode(t, rest)
    ensures Stripped(t + rest, 0) == t + Stripped(rest, 0)
    decreases t
  {
    if t == "" {
      assert t + rest == rest;
    } else {
      var first := [t[0]];
      assert t + rest == first + (t[1..] + rest);
      assert !CommentAt(t + rest, 0) && !IsQuote(t[0]);
      StrippedFront(first, t[1..] + rest, first);
      forall k | 0 <= k < |t| - 1 ensures !CommentAt(t[1..] + rest, k) && !IsQuote(t[1..][k]) {
        assert !CommentAt(t + rest, k + 1);
      }
      CodeStays(t[1..], rest);
      assert t == first + t[1..];
      Assoc(first, t[1..], Stripped(rest, 0));
    }
  }

  // ----- every text, part by part --------------------------------------------------------------

  /** What a text is made of. Comments and literals that are never closed come last. */
  datatype Part =
    | Code(c: char)
    | LineComment(t: string)
    | BlockComment(t: string)
    | OpenComment(t: string)
    | Literal(quote: char, t: string)
    | OpenLiteral(quote: char, t: string, open: string)

  function TextOf(p: Part): string {
    match p
    case Code(c) => [c]
    case LineComment(t) => "//" + t
    case BlockComment(t) => "/*" + t + "*/"
    case OpenComment(t) => "/*" + t
    case Literal(quote, t) => [quote] + t + [quote]
    case OpenLiteral(quote, t, open) => [quote] + t + open
  }

  predicate Fits(p: Part, rest: string) {
    match p
    case Code(c) => !IsQuote(c) && !CommentAt([c] + rest, 0)
    case LineComment(t) => '\n' !in t && (rest == "" || rest[0] == '\n')
    case BlockComment(t) => NoBlockEnd(t)
    case OpenComment(t) => NoBlockEnd(t) && rest == ""
    case Literal(quote, t) => IsQuote(quote) && Quotable(t, quote)
    case OpenLiteral(quote, t, open) =>
      IsQuote(quote) && Quotable(t, quote) && (open == "" || open == "\\") && rest == ""
  }

  function Joined(parts: seq<Part>): string {
    if parts == [] then "" else TextOf(parts[0]) + Joined(parts[1..])
  }

  predicate AllFit(parts: seq<Part>) {
    parts == [] || (Fits(parts[0], Joined(parts[1..])) && AllFit(parts[1..]))
  }

  /** Code and the quotes of literals are kept. */
  predicate KeptIn(p: Part, k: nat) {
    p.Code? || (p.Literal? && (k == 0 || k == |p.t| + 1)) || (p.OpenLiteral? && k == 0)
  }

  predicate Kept(parts: seq<Part>, k: nat) {
    parts != [] &&
    (if k < |TextOf(parts[0])| then KeptIn(parts[0], k) else Kept(parts[1..], k - |TextOf(parts[0])|))
  }

  /** A part in front of a text: what is kept of it, and the rest as if it stood alone. */
  ghost predicate Shown(p: Part, out: string, tail: string) {
    var c := TextOf(p);
    |out| == |c| + |tail| && out[|c|..] == tail
    && forall k :: 0 <= k < |c| ==> out[k] == if c[k] == '\n' || KeptIn(p, k) then c[k] else ' '
  }

  lemma CommentShown(p: Part, rest: string)
    requires Fits(p, rest) && (p.LineComment? || p.BlockComment? || p.OpenComment?)
    ensures Shown(p, Stripped(TextOf(p) + rest, 0), Stripped(rest, 0))
  {
    hide Stripped, NoBlockEnd;
    NothingLeft();
    assert rest == "" ==> TextOf(p) + rest == TextOf(p);
    match p
    case LineComment(t) => LineCommentErased(t, rest);
    case BlockComment(t) => BlockCommentErased(t, rest);
    case OpenComment(t) => OpenCommentErased(t);
  }

  lemma LiteralShown(p: Part, rest: string)
    requires Fits(p, rest) && p.Literal?
    ensures Shown(p, Stripped(TextOf(p) + rest, 0), Stripped(rest, 0))
  {
    hide Stripped, Quotable, Fits;
    assert IsQuote(p.quote) && Quotable(p.t, p.quote) by {
      LiteralFits(p, rest);
    }
    LiteralErased(p.quote, p.t, rest);
    var c, out := TextOf(p), Stripped(TextOf(p) + rest, 0);
    assert out[|c|..] == out[1..][|p.t|..][1..];
    assert forall k :: 1 <= k < |c| ==> out[k] == out[1..][k - 1];
    assert out[1..][|p.t|] == out[1..][|p.t|..][0];
  }

  lemma LiteralFits(p: Part, rest: string)
    requires Fits(p, rest) && p.Literal?
    ensures IsQuote(p.quote) && Quotable(p.t, p.quote)
  {}

  lemma OpenLiteralShown(p: Part, rest: string)
    requires Fits(p, rest) && p.OpenLiteral?
    ensures Shown(p, Stripped(TextOf(p) + rest, 0), Stripped(rest, 0))
  {
    hide Stripped, Quotable;
    NothingLeft();
    OpenLiteralErased(p.quote, p.t, p.open);
    var c := TextOf(p);
    assert c + rest == c && c == [p.quote] + (p.t + p.open);
    var out := Stripped(c, 0);
    assert forall k :: 1 <= k < |c| ==> out[k] == out[1..][k - 1] && c[k] == (p.t + p.open)[k - 1];
  }

  lemma PartShown(p: Part, rest: string)
    requires Fits(p, rest)
    ensures Shown(p, Stripped(TextOf(p) + rest, 0), Stripped(rest, 0))
  {
    match p {
      case Code(c) =>
        hide Stripped;
        CodeStays([c], rest);
      case Literal(_, _) => LiteralShown(p, rest);
      case OpenLiteral(_, _, _) => OpenLiteralShown(p, rest);
      case _ => CommentShown(p, rest);
    }
  }

  /** Of a text read as parts, code, the quotes of literals and newlines are kept; everything else becomes a space. */
  lemma {:induction false} BlanksExactly(parts: seq<Part>)
    requires AllFit(parts)
    ensures var src, out := Joined(parts), Stripped(Joined(parts), 0);
            |out| == |src|
            && forall k :: 0 <= k < |src| ==> out[k] == if src[k] == '\n' || Kept(parts, k) then src[k] else ' '
  {
    hide Stripped, Fits, TextOf, KeptIn;
    if parts == [] {
      NothingLeft();
    } else {
      var rest := Joined(parts[1..]);
      PartShown(parts[0], rest);
      BlanksExactly(parts[1..]);
      var n := |TextOf(parts[0])|;
      forall k | n <= k < n + |rest|
        ensures Joined(parts)[k] == rest[k - n] && (Kept(parts, k) <==> Kept(parts[1..], k - n))
        ensures Stripped(Joined(parts), 0)[k] == Stripped(rest, 0)[k - n]
      {}
    }
  }

  lemma NothingLeft()
    ensures Stripped("", 0) == ""
  {}

  lemma {:induction false} BlockEndMeans(s: string, i: nat)
    requires i <= |s|
    ensures var n := BlockEnd(s, i);
            if i + 2 <= n && s[n - 2] == '*' && s[n - 1] == '/' then NoBlockEnd(s[i..n - 2])
            else n == |s| && NoBlockEnd(s[i..])
    decreases |s| - i
  {
    if i + 1 < |s| && !(s[i] == '*' && s[i + 1] == '/') {
      BlockEndMeans(s, i + 1);
      var n := BlockEnd(s, i);
      if i + 3 <= n && s[n - 2] == '*' && s[n - 1] == '/' {
        assert s[i..n - 2] == [s[i]] + s[i + 1..n - 2];
      } else {
        assert s[i..] == [s[i]] + s[i + 1..];
      }
    }
  }

  lemma {:induction false} QuoteEndMeans(s: string, i: nat, quote: char)
    requires i <= |s| && quote != '\\'
    ensures var n := QuoteEnd(s, i, quote);
            if n <= |s| then Quotable(s[i..n], quote)
            else i < |s| && s[|s| - 1] == '\\' && Quotable(s[i..|s| - 1], quote)
    decreases |s| - i
  {
    var n := QuoteEnd(s, i, quote);
    if i < |s| && s[i] != quote {
      var step := if s[i] == '\\' then 2 else 1;
      if i + step <= |s| {
        QuoteEndMeans(s, i + step, quote);
        var stop := if n <= |s| then n else |s| - 1;
        assert s[i..stop][step..] == s[i + step..stop];
      } else {
        assert s[i..|s| - 1] == "";
      }
    }
  }

  lemma FirstComment(s: string) returns (p: Part, rest: string)
    requires s != "" && CommentAt(s, 0)
    ensures Fits(p, rest) && s == TextOf(p) + rest
  {
    hide LineEnd, BlockEnd, Quotable, NoBlockEnd;
    assert s[..2] == [s[0], s[1]];
    if s[1] == '/' {
      LineEndMeans(s, 2);
      var n := LineEnd(s, 2);
      p, rest := LineComment(s[2..n]), s[n..];
      assert s == s[..2] + s[2..n] + s[n..];
    } else {
      BlockEndMeans(s, 2);
      var n := BlockEnd(s, 2);
      if 4 <= n && s[n - 2] == '*' && s[n - 1] == '/' {
        p, rest := BlockComment(s[2..n - 2]), s[n..];
        assert s[n - 2..n] == "*/";
        assert s == s[..2] + s[2..n - 2] + s[n - 2..n] + s[n..];
      } else {
        p, rest := OpenComment(s[2..]), "";
        assert s == s[..2] + s[2..] + "";
      }
    }
  }

  lemma FirstLiteral(s: string) returns (p: Part, rest: string)
    requires s != "" && IsQuote(s[0])
    ensures Fits(p, rest) && s == TextOf(p) + rest
  {
    hide QuoteEnd, Quotable;
    QuoteEndMeans(s, 1, s[0]);
    var n := QuoteEnd(s, 1, s[0]);
    if n < |s| {
      p, rest := Literal(s[0], s[1..n]), s[n + 1..];
      assert s == [s[0]] + s[1..n] + [s[n]] + s[n + 1..];
    } else if n == |s| {
      p, rest := OpenLiteral(s[0], s[1..n], ""), "";
      assert s == [s[0]] + s[1..n] + "" + "";
    } else {
      p, rest := OpenLiteral(s[0], s[1..|s| - 1], "\\"), "";
      assert s == [s[0]] + s[1..|s| - 1] + [s[|s| - 1]] + "";
    }
  }

  lemma FirstPart(s: string) returns (p: Part, rest: string)
    requires s != ""
    ensures Fits(p, rest) && s == TextOf(p) + rest
  {
    hide Quotable, NoBlockEnd;
    if CommentAt(s, 0) {
      p, rest := FirstComment(s);
    } else if IsQuote(s[0]) {
      p, rest := FirstLiteral(s);
    } else {
      p, rest := Code(s[0]), s[1..];
      assert [s[0]] + s[1..] == s;
    }
  }

  /** Every text reads as parts, so the law above is about all of them. */
  lemma {:induction false} EveryTextReads(s: string)
    ensures exists parts :: AllFit(parts) && Joined(parts) == s
    decreases |s|
  {
    hide Fits, TextOf;
    if s == "" {
      assert AllFit([]) && Joined([]) == s;
    } else {
      var p, rest := FirstPart(s);
      assert TextOf(p) != "" by {
        PartNonempty(p, rest);
      }
      EveryTextReads(rest);
      var parts :| AllFit(parts) && Joined(parts) == rest;
      assert ([p] + parts)[1..] == parts;
      assert AllFit([p] + parts) && Joined([p] + parts) == s;
    }
  }

  lemma PartNonempty(p: Part, rest: string)
    requires Fits(p, rest)
    ensures TextOf(p) != ""
  {}
}
