/** Splitting an .sql file into statements, as the installer does. */
module SqlSplitter {
  import opened Tables
  import opened TextScan

  // ----- trim ----------------------------------------------------------------

  predicate Blank(c: char) {
    c == ' ' || c == '\t' || c == '\n' || c == '\r' || c == '\0' || c == '\U{000B}'
  }

  function TrimLeft(s: string): string {
    if s != "" && Blank(s[0]) then TrimLeft(s[1..]) else s
  }

  function TrimRight(s: string): string {
    if s != "" && Blank(s[|s| - 1]) then TrimRight(s[..|s| - 1]) else s
  }

  function Trim(s: string): string {
    TrimRight(TrimLeft(s))
  }

  predicate Trimmed(s: string) {
    s == "" || (!Blank(s[0]) && !Blank(s[|s| - 1]))
  }

  lemma {:induction false} TrimLeftEnds(s: string)
    ensures TrimLeft(s) == "" || !Blank(TrimLeft(s)[0])
    ensures Trimmed(s) ==> TrimLeft(s) == s
    ensures (exists k :: 0 <= k < |s| && !Blank(s[k])) ==> TrimLeft(s) != ""
    decreases s
  {
    if s != "" && Blank(s[0]) {
      TrimLeftEnds(s[1..]);
      forall k | 0 <= k < |s| && !Blank(s[k]) ensures !Blank(s[1..][k - 1]) {}
    }
  }

  lemma {:induction false} TrimRightEnds(s: string)
    requires s == "" || !Blank(s[0])
    ensures Trimmed(TrimRight(s))
    ensures Trimmed(s) ==> TrimRight(s) == s
    ensures s != "" ==> TrimRight(s) != ""
    decreases s
  {
    if s != "" && Blank(s[|s| - 1]) {
      TrimRightEnds(s[..|s| - 1]);
    }
  }

  /** trim() gives a trimmed string, leaves a trimmed one alone, and is empty only on blanks. */
  lemma TrimTrims(s: string)
    ensures Trimmed(Trim(s))
    ensures Trimmed(s) ==> Trim(s) == s
    ensures (exists k :: 0 <= k < |s| && !Blank(s[k])) ==> Trim(s) != ""
  {
    TrimLeftEnds(s);
    TrimRightEnds(TrimLeft(s));
  }

  // ----- the scan ------------------------------------------------------------

  /** strpos(s, "*" "/", i) */
  function BlockEnd(s: string, i: nat): (r: Option<nat>)
    ensures r.Some? ==> i <= r.value < |s| - 1
    decreases |s| - i
  {
    if i + 1 >= |s| then None
    else if s[i] == '*' && s[i + 1] == '/' then Some(i)
    else BlockEnd(s, i + 1)
  }

  /** Just behind the quote that closes a literal opened before `j`, if there is one. */
  function QuoteEnd(s: string, j: nat, quote: char): (r: Option<nat>)
    ensures r.Some? ==> j < r.value <= |s|
    decreases |s| - j
  {
    if j >= |s| then None
    else if s[j] == '\\' && quote != '`' then QuoteEnd(s, j + 2, quote)
    else if s[j] == quote then Some(j + 1)
    else QuoteEnd(s, j + 1, quote)
  }

  /** What starts at a position outside literals and comments. */
  datatype Piece = Comment(next: nat) | Literal(next: nat) | OpenComment | OpenLiteral | Semicolon | Other {
    function Shift(k: nat): Piece {
      if Comment? || Literal? then this.(next := k + next) else this
    }
  }

  function PieceAt(s: string, i: nat): (p: Piece)
    requires i < |s|
    ensures p.Comment? || p.Literal? ==> i < p.next <= |s|
  {
    var c := s[i];
    var c2 := if i + 1 < |s| then [s[i + 1]] else "";
    if (c == '-' && c2 == "-") || c == '#' then
      var n := LineEnd(s, i + 1);
      if n == |s| then OpenComment else Comment(n)
    else if c == '/' && c2 == "*" then
      var e := BlockEnd(s, i + 2);
      if e.None? then OpenComment else Comment(e.value + 2)
    else if IsQuote(c) then
      var e := QuoteEnd(s, i + 1, c);
      if e.None? then OpenLiteral else Literal(e.value)
    else if c == ';' then Semicolon
    else Other
  }

  /** Statements found, the text behind the last one, and whether the text ends outside literals and comments. */
  datatype Scanned = Scanned(stmts: seq<string>, rest: string, closed: bool) {
    function Behind(before: seq<string>): Scanned {
      Scanned(before + stmts, rest, closed)
    }
  }

  function Statement(text: string): seq<string> {
    if Trim(text) == "" then [] else [Trim(text)]
  }

  function Scan(s: string, i: nat, buf: string): Scanned
    decreases |s| - i
  {
    if i >= |s| then Scanned([], buf, true)
    else
      match PieceAt(s, i)
      case Comment(next) => Scan(s, next, buf)
      case Literal(next) => Scan(s, next, buf + s[i..next])
      case OpenComment => Scanned([], buf, false)
      case OpenLiteral => Scanned([], buf + s[i..], false)
      case Semicolon => Scan(s, i + 1, "").Behind(Statement(buf))
      case Other => Scan(s, i + 1, buf + [s[i]])
  }

  function Finish(r: Scanned): seq<string> {
    r.stmts + Statement(r.rest)
  }

  function Statements(sql: string): seq<string> {
    Finish(Scan(sql, 0, ""))
  }

  predicate Closed(sql: string) {
    Scan(sql, 0, "").closed
  }

  /** The literal loop of jbx_split_sql: copies from the opening quote to the closing one, or to the end. */
  method CopyLiteral(sql: string, start: nat) returns (i: nat, text: string)
    requires start < |sql| && IsQuote(sql[start])
    ensures match QuoteEnd(sql, start + 1, sql[start])
            case Some(next) => i == next && text == sql[start..next]
            case None => i >= |sql| && text == sql[start..]
  {
    var quote := sql[start];
    text := [quote];
    i := start + 1;
    while i < |sql|
      invariant start < i
      invariant text == sql[start..if i <= |sql| then i else |sql|]
      invariant QuoteEnd(sql, i, quote) == QuoteEnd(sql, start + 1, quote)
      decreases |sql| - i
    {
      if sql[i] == '\\' && quote != '`' {
        text := text + sql[i..if i + 2 <= |sql| then i + 2 else |sql|];
        i := i + 2;
        continue;
      }
      text := text + [sql[i]];
      if sql[i] == quote {
        return i + 1, text;
      }
      i := i + 1;
    }
  }

  /** The line comment loop of jbx_split_sql. */
  method SkipLine(sql: string, start: nat) returns (i: nat)
    requires start <= |sql|
    ensures i == LineEnd(sql, start)
  {
    i := start;
    while i < |sql| && sql[i] != '\n'
      invariant start <= i <= |sql|
      invariant LineEnd(sql, i) == LineEnd(sql, start)
    {
      i := i + 1;
    }
  }

  lemma FinishBehind(out: seq<string>, found: seq<string>, r: Scanned)
    ensures out + Finish(r.Behind(found)) == (out + found) + Finish(r)
  {}

  /** jbx_split_sql */
  method SplitSql(sql: string) returns (out: seq<string>)
    ensures out == Statements(sql)
  {
    out := [];
    var buf := "";
    var i := 0;
    while i < |sql|
      invariant out + Finish(Scan(sql, i, buf)) == Statements(sql)
      decreases |sql| - i
    {
      var c := sql[i];
      var c2 := if i + 1 < |sql| then [sql[i + 1]] else "";
      ghost var piece := PieceAt(sql, i);
      ghost var r := Scan(sql, i, buf);
      if (c == '-' && c2 == "-") || c == '#' {
        i := SkipLine(sql, i + 1);
        assert Finish(Scan(sql, i, buf)) == Finish(r);
      } else if c == '/' && c2 == "*" {
        var end := BlockEnd(sql, i + 2);
        i := if end.None? then |sql| else end.value + 2;
        assert Finish(Scan(sql, i, buf)) == Finish(r);
      } else if IsQuote(c) {
        var text;
        i, text := CopyLiteral(sql, i);
        buf := buf + text;
        assert Finish(Scan(sql, i, buf)) == Finish(r);
      } else if c == ';' {
        assert piece == Semicolon;
        ghost var found := out + Statement(buf);
        FinishBehind(out, Statement(buf), Scan(sql, i + 1, ""));
        var stmt := Trim(buf);
        if stmt != "" {
          out := out + [stmt];
        }
        assert out == found;
        buf := "";
        i := i + 1;
        assert out + Finish(Scan(sql, i, buf)) == Statements(sql);
      } else {
        buf := buf + [c];
        i := i + 1;
        assert Scan(sql, i, buf) == r;
      }
    }
    var stmt := Trim(buf);
    if stmt != "" {
      out := out + [stmt];
    }
  }

  // ----- what splitting guarantees ---------------------------------------------

  lemma {:induction false} ScanTrimmed(s: string, i: nat, buf: string)
    ensures forall t :: t in Scan(s, i, buf).stmts ==> t != "" && Trimmed(t)
    decreases |s| - i
  {
    if i < |s| {
      match PieceAt(s, i)
      case Comment(next) => ScanTrimmed(s, next, buf);
      case Literal(next) => ScanTrimmed(s, next, buf + s[i..next]);
      case OpenComment =>
      case OpenLiteral =>
      case Semicolon =>
        TrimTrims(buf);
        ScanTrimmed(s, i + 1, "");
      case Other => ScanTrimmed(s, i + 1, buf + [s[i]]);
    }
  }

  /** Every statement handed to the database is trimmed and not empty. */
  lemma StatementsTrimmed(sql: string)
    ensures forall t :: t in Statements(sql) ==> t != "" && Trimmed(t)
  {
    ScanTrimmed(sql, 0, "");
    TrimTrims(Scan(sql, 0, "").rest);
  }

  lemma {:induction false} LineEndStays(a: string, b: string, i: nat)
    requires i <= |a| && LineEnd(a, i) < |a|
    ensures LineEnd(a + b, i) == LineEnd(a, i)
    decreases |a| - i
  {
    if a[i] != '\n' {
      LineEndStays(a, b, i + 1);
    }
  }

  lemma {:induction false} BlockEndStays(a: string, b: string, i: nat)
    requires BlockEnd(a, i).Some?
    ensures BlockEnd(a + b, i) == BlockEnd(a, i)
    decreases |a| - i
  {
    if !(a[i] == '*' && a[i + 1] == '/') {
      BlockEndStays(a, b, i + 1);
    }
  }

  lemma {:induction false} QuoteEndStays(a: string, b: string, j: nat, quote: char)
    requires QuoteEnd(a, j, quote).Some?
    ensures QuoteEnd(a + b, j, quote) == QuoteEnd(a, j, quote)
    decreases |a| - j
  {
    if a[j] == '\\' && quote != '`' {
      QuoteEndStays(a, b, j + 2, quote);
    } else if a[j] != quote {
      QuoteEndStays(a, b, j + 1, quote);
    }
  }

  /** What follows a semicolon cannot change how the text before it is read, once that is closed. */
  lemma PieceStays(a: string, b: string, i: nat)
    requires i < |a| && !PieceAt(a, i).OpenComment? && !PieceAt(a, i).OpenLiteral?
    requires b != "" && b[0] == ';'
    ensures PieceAt(a + b, i) == PieceAt(a, i)
  {
    var c := a[i];
    match PieceAt(a, i)
    case Comment(_) =>
      if c == '#' || c == '-' {
        LineEndStays(a, b, i + 1);
      } else {
        BlockEndStays(a, b, i + 2);
      }
    case Literal(_) => QuoteEndStays(a, b, i + 1, c);
    case Semicolon =>
    case Other =>
  }

  lemma BehindTwice(r: Scanned, v: seq<string>, w: seq<string>)
    ensures r.Behind(w).Behind(v) == r.Behind(v + w)
  {
    assert v + (w + r.stmts) == (v + w) + r.stmts;
  }

  lemma {:induction false} ScanResumes(a: string, b: string, i: nat, buf: string)
    requires i <= |a| && Scan(a, i, buf).closed
    requires b != "" && b[0] == ';'
    ensures Scan(a + b, i, buf) == Scan(a + b, |a|, Scan(a, i, buf).rest).Behind(Scan(a, i, buf).stmts)
    decreases |a| - i
  {
    if i < |a| {
      PieceStays(a, b, i);
      match PieceAt(a, i)
      case Comment(next) => ScanResumes(a, b, next, buf);
      case Literal(next) =>
        assert (a + b)[i..next] == a[i..next];
        ScanResumes(a, b, next, buf + a[i..next]);
      case Semicolon =>
        ScanResumes(a, b, i + 1, "");
        var r := Scan(a, i + 1, "");
        BehindTwice(Scan(a + b, |a|, r.rest), Statement(buf), r.stmts);
      case Other => ScanResumes(a, b, i + 1, buf + [a[i]]);
    }
  }

  lemma {:induction false} ScanShift(s: string, k: nat, i: nat, buf: string)
    requires k + i <= |s|
    ensures Scan(s, k + i, buf) == Scan(s[k..], i, buf)
    decreases |s| - i
  {
    hide PieceAt, Statement;
    if k + i < |s| {
      var piece := PieceAt(s[k..], i);
      PieceShift(s, k, i);
      match piece
      case Comment(next) => ScanShift(s, k, next, buf);
      case Literal(next) =>
        var text := s[k..][i..next];
        assert text == s[k + i..k + next];
        ScanShift(s, k, next, buf + text);
      case OpenComment =>
      case OpenLiteral => assert s[k..][i..] == s[k + i..];
      case Semicolon => ScanShift(s, k, i + 1, "");
      case Other =>
        assert s[k..][i] == s[k + i];
        ScanShift(s, k, i + 1, buf + [s[k + i]]);
    }
  }

  lemma {:induction false} BlockEndShift(s: string, k: nat, i: nat)
    requires k <= |s|
    ensures BlockEnd(s, k + i)
         == match BlockEnd(s[k..], i) case Some(e) => Some(k + e) case None => None
    decreases |s| - i
  {
    if k + i + 1 < |s| && !(s[k + i] == '*' && s[k + i + 1] == '/') {
      BlockEndShift(s, k, i + 1);
    }
  }

  lemma {:induction false} QuoteEndShift(s: string, k: nat, j: nat, quote: char)
    requires k <= |s|
    ensures QuoteEnd(s, k + j, quote)
         == match QuoteEnd(s[k..], j, quote) case Some(e) => Some(k + e) case None => None
    decreases |s| - j
  {
    if k + j < |s| {
      if s[k + j] == '\\' && quote != '`' {
        QuoteEndShift(s, k, j + 2, quote);
      } else if s[k + j] != quote {
        QuoteEndShift(s, k, j + 1, quote);
      }
    }
  }

  lemma PieceShift(s: string, k: nat, i: nat)
    requires k + i < |s|
    ensures PieceAt(s, k + i) == PieceAt(s[k..], i).Shift(k)
  {
    var tail := s[k..];
    assert tail[i] == s[k + i] && (i + 1 < |tail| ==> tail[i + 1] == s[k + i + 1]);
    if IsQuote(tail[i]) {
      QuoteEndShift(s, k, i + 1, s[k + i]);
    } else if tail[i] == '#' || tail[i] == '-' {
      LineEndShift(s, k, i + 1);
    } else {
      BlockEndShift(s, k, i + 2);
    }
  }

  /** Splitting is compositional: a closed text and the text behind its semicolon split independently. */
  lemma ClosedComposes(a: string, b: string)
    requires Closed(a)
    ensures Statements(a + ";" + b) == Statements(a) + Statements(b)
  {
    var s := a + (";" + b);
    assert a + ";" + b == s;
    var ra, rb := Scan(a, 0, ""), Scan(b, 0, "");
    ScanResumes(a, ";" + b, 0, "");
    assert s[|a| + 1..] == b;
    ScanShift(s, |a| + 1, 0, "");
    assert Scan(s, |a|, ra.rest) == rb.Behind(Statement(ra.rest));
    Regroup(ra.stmts, Statement(ra.rest), rb.stmts, Statement(rb.rest));
  }

  lemma Regroup(v: seq<string>, w: seq<string>, x: seq<string>, y: seq<string>)
    ensures (v + (w + x)) + y == (v + w) + (x + y)
  {}

  lemma {:induction false} QuoteStaysOpen(a: string, j: nat, quote: char)
    requires QuoteEnd(a, j, quote).None? && IsQuote(quote)
    ensures QuoteEnd(a + ";x", j, quote).None?
    decreases |a| + 2 - j
  {
    if j < |a| {
      if a[j] == '\\' && quote != '`' {
        QuoteStaysOpen(a, j + 2, quote);
      } else {
        QuoteStaysOpen(a, j + 1, quote);
      }
    } else if j < |a| + 2 {
      assert (a + ";x")[j] == ";x"[j - |a|];
      QuoteStaysOpen(a, j + 1, quote);
    }
  }

  lemma {:induction false} BlockStaysOpen(a: string, i: nat)
    requires BlockEnd(a, i).None? && i <= |a|
    ensures BlockEnd(a + ";x", i).None?
    decreases |a| - i
  {
    if i < |a| {
      BlockStaysOpen(a, i + 1);
    }
  }

  lemma {:induction false} LineStaysOpen(a: string, i: nat)
    requires i <= |a| && LineEnd(a, i) == |a|
    ensures LineEnd(a + ";x", i) == |a| + 2
    decreases |a| - i
  {
    if i < |a| {
      LineStaysOpen(a, i + 1);
    } else {
      assert LineEnd(a + ";x", |a| + 1) == |a| + 2;
    }
  }

  lemma PieceStaysOpen(a: string, i: nat)
    requires i < |a| && (PieceAt(a, i).OpenComment? || PieceAt(a, i).OpenLiteral?)
    ensures PieceAt(a + ";x", i) == PieceAt(a, i)
  {
    var c := a[i];
    if PieceAt(a, i).OpenLiteral? {
      QuoteStaysOpen(a, i + 1, c);
    } else if c == '#' || c == '-' {
      LineStaysOpen(a, i + 1);
    } else {
      BlockStaysOpen(a, i + 2);
    }
  }

  /** An open literal or comment swallows the semicolon: no statement is added. */
  lemma {:induction false} OpenSwallows(a: string, i: nat, buf: string)
    requires i <= |a| && !Scan(a, i, buf).closed
    ensures |Finish(Scan(a + ";x", i, buf))| == |Finish(Scan(a, i, buf))|
    decreases |a| - i
  {
    var s := a + ";x";
    match PieceAt(a, i)
    case OpenComment => PieceStaysOpen(a, i);
    case OpenLiteral =>
      PieceStaysOpen(a, i);
      assert !Blank((buf + a[i..])[|buf|]) && !Blank((buf + s[i..])[|buf|]);
      TrimTrims(buf + a[i..]);
      TrimTrims(buf + s[i..]);
    case Comment(next) =>
      PieceStays(a, ";x", i);
      OpenSwallows(a, next, buf);
    case Literal(next) =>
      PieceStays(a, ";x", i);
      assert s[i..next] == a[i..next];
      OpenSwallows(a, next, buf + a[i..next]);
    case Semicolon =>
      PieceStays(a, ";x", i);
      OpenSwallows(a, i + 1, "");
    case Other =>
      PieceStays(a, ";x", i);
      OpenSwallows(a, i + 1, buf + [a[i]]);
  }

  lemma OneLetter()
    ensures Statements("x") == ["x"]
  {
    assert Scan("x", 0, "") == Scan("x", 1, "" + ['x']) == Scanned([], "x", true);
    TrimTrims("x");
  }

  /** A semicolon separates whatever follows it if and only if the text before it is closed. */
  lemma SeparatesIffClosed(a: string)
    ensures (forall b :: Statements(a + ";" + b) == Statements(a) + Statements(b)) <==> Closed(a)
  {
    if Closed(a) {
      forall b ensures Statements(a + ";" + b) == Statements(a) + Statements(b) {
        ClosedComposes(a, b);
      }
    } else {
      OpenSwallows(a, 0, "");
      OneLetter();
      assert a + ";" + "x" == a + ";x";
    }
  }

  // ----- joining and splitting ---------------------------------------------------

  /** No comment, and no semicolon but inside literals, all of which end. */
  predicate SingleFrom(s: string, i: nat)
    decreases |s| - i
  {
    i >= |s| ||
    match PieceAt(s, i)
    case Literal(next) => SingleFrom(s, next)
    case Other => SingleFrom(s, i + 1)
    case _ => false
  }

  predicate IsStatement(s: string) {
    s != "" && Trimmed(s) && SingleFrom(s, 0)
  }

  function Join(stmts: seq<string>): string {
    if stmts == [] then ""
    else if |stmts| == 1 then stmts[0]
    else stmts[0] + ";" + Join(stmts[1..])
  }

  lemma {:induction false} ScanSingle(s: string, i: nat)
    requires i <= |s| && SingleFrom(s, i)
    ensures Scan(s, i, s[..i]) == Scanned([], s, true)
    decreases |s| - i
  {
    if i < |s| {
      match PieceAt(s, i)
      case Literal(next) =>
        assert s[..i] + s[i..next] == s[..next];
        ScanSingle(s, next);
      case Other =>
        assert s[..i] + [s[i]] == s[..i + 1];
        ScanSingle(s, i + 1);
    } else {
      assert s[..i] == s;
    }
  }

  lemma StatementAlone(s: string)
    requires IsStatement(s)
    ensures Closed(s) && Statements(s) == [s]
  {
    assert s[..0] == "";
    ScanSingle(s, 0);
    TrimTrims(s);
  }

  /** Splitting undoes joining with semicolons. */
  lemma {:induction false} JoinRoundTrip(stmts: seq<string>)
    requires forall s :: s in stmts ==> IsStatement(s)
    ensures Statements(Join(stmts)) == stmts
  {
    if stmts == [] {
    } else if |stmts| == 1 {
      StatementAlone(stmts[0]);
    } else {
      StatementAlone(stmts[0]);
      ClosedComposes(stmts[0], Join(stmts[1..]));
      JoinRoundTrip(stmts[1..]);
    }
  }

  // ----- every text, part by part --------------------------------------------------------------

  predicate AllBlank(s: string) {
    forall k :: 0 <= k < |s| ==> Blank(s[k])
  }

  lemma {:induction false} TrimLeftCuts(s: string)
    ensures exists i :: 0 <= i <= |s| && AllBlank(s[..i]) && TrimLeft(s) == s[i..]
    decreases s
  {
    if s != "" && Blank(s[0]) {
      TrimLeftCuts(s[1..]);
      var i :| 0 <= i <= |s| - 1 && AllBlank(s[1..][..i]) && TrimLeft(s[1..]) == s[1..][i..];
      assert s[..i + 1] == [s[0]] + s[1..][..i];
      assert s[i + 1..] == s[1..][i..];
    } else {
      assert s[..0] == "" && s[0..] == s;
    }
  }

  lemma {:induction false} TrimRightCuts(s: string)
    ensures exists j :: 0 <= j <= |s| && AllBlank(s[j..]) && TrimRight(s) == s[..j]
    decreases s
  {
    if s != "" && Blank(s[|s| - 1]) {
      var t := s[..|s| - 1];
      TrimRightCuts(t);
      var j :| 0 <= j <= |t| && AllBlank(t[j..]) && TrimRight(t) == t[..j];
      assert s[j..] == t[j..] + [s[|s| - 1]];
      assert s[..j] == t[..j];
    } else {
      assert s[|s|..] == "" && s[..|s|] == s;
    }
  }

  /** trim() cuts blanks off both ends, as many as there are, and nothing else. */
  lemma TrimIsExact(s: string)
    ensures exists i, j :: 0 <= i <= j <= |s| && AllBlank(s[..i]) && AllBlank(s[j..]) && Trim(s) == s[i..j]
    ensures Trimmed(Trim(s))
  {
    hide AllBlank, TrimLeft, TrimRight, Trimmed;
    TrimTrims(s);
    TrimLeftCuts(s);
    var i :| 0 <= i <= |s| && AllBlank(s[..i]) && TrimLeft(s) == s[i..];
    TrimRightCuts(s[i..]);
    var k :| 0 <= k <= |s[i..]| && AllBlank(s[i..][k..]) && TrimRight(s[i..]) == s[i..][..k];
    SliceOfTail(s, i, k);
    assert AllBlank(s[..i]) && AllBlank(s[i + k..]) && Trim(s) == s[i..i + k];
  }

  lemma SliceOfTail(s: string, i: nat, k: nat)
    requires i <= |s| && k <= |s| - i
    ensures s[i..][k..] == s[i + k..] && s[i..][..k] == s[i..i + k]
  {}

  /** Inside a literal: characters other than the quote, each backslash with the character it escapes; between
      backticks a backslash is a character like any other. */
  predicate Quotable(t: string, quote: char) {
    t == "" ||
    (if t[0] == '\\' && quote != '`' then |t| >= 2 && Quotable(t[2..], quote)
     else t[0] != quote && Quotable(t[1..], quote))
  }

  /** What a text is made of. A comment or literal that is never closed comes last. */
  datatype Part =
    | Char(c: char)
    | Cut
    | LineNote(mark: string, t: string)
    | BlockNote(t: string)
    | OpenNote(t: string)
    | Quoted(quote: char, t: string)
    | OpenQuoted(quote: char, t: string, open: string)

  function TextOf(p: Part): string {
    match p
    case Char(c) => [c]
    case Cut => ";"
    case LineNote(mark, t) => mark + t
    case BlockNote(t) => "/*" + t + "*/"
    case OpenNote(t) => "/*" + t
    case Quoted(quote, t) => [quote] + t + [quote]
    case OpenQuoted(quote, t, open) => [quote] + t + open
  }

  predicate Fits(p: Part, rest: string) {
    match p
    case Char(c) => !IsQuote(c) && c != ';' && c != '#' && !("--" <= [c] + rest) && !("/*" <= [c] + rest)
    case Cut => true
    case LineNote(mark, t) => (mark == "--" || mark == "#") && '\n' !in t && (rest == "" || rest[0] == '\n')
    case BlockNote(t) => NoBlockEnd(t)
    case OpenNote(t) => NoBlockEnd(t) && rest == ""
    case Quoted(quote, t) => IsQuote(quote) && Quotable(t, quote)
    case OpenQuoted(quote, t, open) =>
      IsQuote(quote) && Quotable(t, quote) && (open == "" || (open == "\\" && quote != '`')) && rest == ""
  }

  function Joined(parts: seq<Part>): string {
    if parts == [] then "" else TextOf(parts[0]) + Joined(parts[1..])
  }

  predicate AllFit(parts: seq<Part>) {
    parts == [] || (Fits(parts[0], Joined(parts[1..])) && AllFit(parts[1..]))
  }

  predicate IsNote(p: Part) {
    p.LineNote? || p.BlockNote? || p.OpenNote?
  }

  /** The statements of parts, behind words already read: comments are dropped, a semicolon outside of them and of
      literals ends a statement, all else is kept as it is written. */
  function Read(parts: seq<Part>, words: string): seq<string> {
    if parts == [] then Statement(words)
    else if parts[0].Cut? then Statement(words) + Read(parts[1..], "")
    else Read(parts[1..], if IsNote(parts[0]) then words else words + TextOf(parts[0]))
  }

  lemma {:induction false} BlockEndIs(s: string, i: nat, n: nat)
    requires i <= n <= |s| && forall k :: i <= k < n && k + 1 < |s| ==> !(s[k] == '*' && s[k + 1] == '/')
    requires n == |s| || (n + 1 < |s| && s[n] == '*' && s[n + 1] == '/')
    ensures BlockEnd(s, i) == if n == |s| then None else Some(n)
    decreases n - i
  {
    if i < n {
      BlockEndIs(s, i + 1, n);
    }
  }

  lemma {:induction false} QuoteEndIs(s: string, i: nat, n: nat, quote: char)
    requires i <= n <= |s| && Quotable(s[i..n], quote) && quote != '\\'
    requires n < |s| ==> s[n] == quote || (n == |s| - 1 && s[n] == '\\' && quote != '`')
    ensures QuoteEnd(s, i, quote) == if n < |s| && s[n] == quote then Some(n + 1) else None
    decreases n - i
  {
    if i < n {
      assert s[i..n][0] == s[i];
      var step := if s[i] == '\\' && quote != '`' then 2 else 1;
      assert s[i..n][step..] == s[i + step..n];
      QuoteEndIs(s, i + step, n, quote);
    }
  }

  /** Where the scan goes on behind a comment. */
  lemma NotePiece(p: Part, rest: string)
    requires Fits(p, rest) && IsNote(p)
    ensures TextOf(p) != ""
    ensures var n := |TextOf(p)|; PieceAt(TextOf(p) + rest, 0) == if n == |TextOf(p) + rest| && !p.BlockNote?
                                                                  then OpenComment else Comment(n)
  {
    var c := TextOf(p);
    var s := c + rest;
    assert forall k :: 0 <= k < |c| ==> s[k] == c[k];
    match p
    case LineNote(mark, t) =>
      assert forall k :: |mark| <= k < |c| ==> c[k] == t[k - |mark|];
      LineEndIs(s, 1, |c|);
    case BlockNote(t) =>
      assert forall k :: 2 <= k < |c| - 2 ==> c[k] == t[k - 2];
      BlockEndIs(s, 2, |t| + 2);
    case OpenNote(t) =>
      assert forall k :: 2 <= k < |c| ==> c[k] == t[k - 2];
      BlockEndIs(s, 2, |s|);
  }

  lemma NoteInFront(p: Part, rest: string, buf: string)
    requires Fits(p, rest) && IsNote(p)
    ensures Finish(Scan(TextOf(p) + rest, 0, buf)) == Finish(Scan(rest, 0, buf))
  {
    NotePiece(p, rest);
    hide TextOf, Fits, PieceAt;
    var s := TextOf(p) + rest;
    assert s[|TextOf(p)|..] == rest;
    ScanShift(s, |TextOf(p)|, 0, buf);
  }

  lemma LiteralInFront(p: Part, rest: string, buf: string)
    requires Fits(p, rest) && (p.Quoted? || p.OpenQuoted?)
    ensures Finish(Scan(TextOf(p) + rest, 0, buf)) == Finish(Scan(rest, 0, buf + TextOf(p)))
  {
    var c := TextOf(p);
    var s := c + rest;
    assert s[1..|p.t| + 1] == p.t;
    QuoteEndIs(s, 1, |p.t| + 1, p.quote);
    assert s[..|c|] == c && s[|c|..] == rest;
    if p.Quoted? {
      assert s[0..|c|] == c;
      ScanShift(s, |c|, 0, buf + c);
    } else {
      assert s[0..] == c;
    }
  }

  lemma CharInFront(c: char, rest: string, buf: string)
    requires Fits(Char(c), rest)
    ensures Scan([c] + rest, 0, buf) == Scan(rest, 0, buf + [c])
  {
    var s := [c] + rest;
    if |s| > 1 {
      assert s[..2] == [s[0], s[1]];
      assert "--" <= s <==> s[0] == '-' && s[1] == '-';
      assert "/*" <= s <==> s[0] == '/' && s[1] == '*';
    }
    assert PieceAt(s, 0) == Other;
    assert s[1..] == rest;
    ScanShift(s, 1, 0, buf + [c]);
  }

  lemma CutInFront(rest: string, buf: string)
    ensures Finish(Scan(";" + rest, 0, buf)) == Statement(buf) + Finish(Scan(rest, 0, ""))
  {
    var s := ";" + rest;
    assert PieceAt(s, 0) == Semicolon;
    assert s[1..] == rest;
    ScanShift(s, 1, 0, "");
    var r := Scan(rest, 0, "");
    FinishBehind([], Statement(buf), r);
    assert [] + Finish(r.Behind(Statement(buf))) == Finish(r.Behind(Statement(buf)));
    assert [] + Statement(buf) == Statement(buf);
  }

  lemma {:induction false} ReadFrom(parts: seq<Part>, buf: string)
    requires AllFit(parts)
    ensures Finish(Scan(Joined(parts), 0, buf)) == Read(parts, buf)
    decreases |parts|
  {
    hide Scan, Finish, Statement, Fits;
    if parts == [] {
      NothingLeft(buf);
    } else {
      var p, rest := parts[0], Joined(parts[1..]);
      if IsNote(p) {
        NoteInFront(p, rest, buf);
        ReadFrom(parts[1..], buf);
      } else if p.Cut? {
        CutInFront(rest, buf);
        ReadFrom(parts[1..], "");
      } else {
        if p.Char? {
          CharInFront(p.c, rest, buf);
        } else {
          LiteralInFront(p, rest, buf);
        }
        ReadFrom(parts[1..], buf + TextOf(p));
      }
    }
  }

  lemma NothingLeft(buf: string)
    ensures Finish(Scan("", 0, buf)) == Statement(buf)
  {}

  /** Splitting a text gives the statements of its parts. */
  lemma ReadsExactly(parts: seq<Part>)
    requires AllFit(parts)
    ensures Statements(Joined(parts)) == Read(parts, "")
  {
    ReadFrom(parts, "");
  }

  lemma {:induction false} BlockEndMeans(s: string, i: nat)
    requires i <= |s|
    ensures match BlockEnd(s, i)
            case Some(n) => n + 2 <= |s| && NoBlockEnd(s[i..n]) && s[n] == '*' && s[n + 1] == '/'
            case None => NoBlockEnd(s[i..])
    decreases |s| - i
  {
    if i + 1 < |s| && !(s[i] == '*' && s[i + 1] == '/') {
      BlockEndMeans(s, i + 1);
      match BlockEnd(s, i)
      case Some(n) => assert s[i..n] == [s[i]] + s[i + 1..n];
      case None => assert s[i..] == [s[i]] + s[i + 1..];
    }
  }

  lemma {:induction false} QuoteEndMeans(s: string, i: nat, quote: char)
    requires i <= |s| && quote != '\\'
    ensures match QuoteEnd(s, i, quote)
            case Some(n) => i < n <= |s| && Quotable(s[i..n - 1], quote) && s[n - 1] == quote
            case None => Quotable(s[i..], quote)
                         || (i < |s| && quote != '`' && s[|s| - 1] == '\\' && Quotable(s[i..|s| - 1], quote))
    decreases |s| - i
  {
    if i < |s| && s[i] != quote {
      var step := if s[i] == '\\' && quote != '`' then 2 else 1;
      if i + step <= |s| {
        QuoteEndMeans(s, i + step, quote);
        assert s[i..][step..] == s[i + step..];
        if i + step < |s| {
          assert s[i..|s| - 1][step..] == s[i + step..|s| - 1];
        }
        if QuoteEnd(s, i, quote).Some? {
          var n := QuoteEnd(s, i, quote).value;
          assert s[i..n - 1][step..] == s[i + step..n - 1];
        }
      } else {
        assert s[i..|s| - 1] == "";
      }
    }
  }

  lemma FirstBlock(s: string) returns (p: Part, rest: string)
    requires "/*" <= s
    ensures Fits(p, rest) && s == TextOf(p) + rest && TextOf(p) != ""
  {
    hide BlockEnd, NoBlockEnd;
    BlockEndMeans(s, 2);
    match BlockEnd(s, 2)
    case Some(n) =>
      p, rest := BlockNote(s[2..n]), s[n + 2..];
      BlockSlices(s, n);
    case None =>
      p, rest := OpenNote(s[2..]), "";
      assert s[..2] == "/*";
      assert s == s[..2] + s[2..];
      assert s + "" == s;
  }

  lemma BlockSlices(s: string, n: nat)
    requires "/*" <= s && 2 <= n && n + 2 <= |s| && s[n] == '*' && s[n + 1] == '/'
    ensures s == "/*" + s[2..n] + "*/" + s[n + 2..]
  {
    assert s[n..n + 2] == "*/";
    assert s[..2] == "/*";
    assert s[..n] == s[..2] + s[2..n];
    assert s[..n + 2] == s[..n] + s[n..n + 2];
    assert s == s[..n + 2] + s[n + 2..];
  }

  lemma FirstLine(s: string, mark: string) returns (p: Part, rest: string)
    requires (mark == "--" || mark == "#") && mark <= s
    ensures Fits(p, rest) && s == TextOf(p) + rest && TextOf(p) != ""
  {
    hide LineEnd;
    LineEndMeans(s, |mark|);
    var n := LineEnd(s, |mark|);
    p, rest := LineNote(mark, s[|mark|..n]), s[n..];
    assert s == s[..|mark|] + s[|mark|..n] + s[n..];
  }

  lemma FirstLiteral(s: string) returns (p: Part, rest: string)
    requires s != "" && IsQuote(s[0])
    ensures Fits(p, rest) && s == TextOf(p) + rest && TextOf(p) != ""
  {
    hide QuoteEnd, Quotable;
    QuoteEndMeans(s, 1, s[0]);
    match QuoteEnd(s, 1, s[0])
    case Some(n) =>
      p, rest := Quoted(s[0], s[1..n - 1]), s[n..];
      assert s == [s[0]] + s[1..n - 1] + [s[n - 1]] + s[n..];
    case None =>
      if Quotable(s[1..], s[0]) {
        p, rest := OpenQuoted(s[0], s[1..], ""), "";
        assert s == [s[0]] + s[1..] + "" + "";
      } else {
        p, rest := OpenQuoted(s[0], s[1..|s| - 1], "\\"), "";
        assert s == [s[0]] + s[1..|s| - 1] + [s[|s| - 1]] + "";
      }
  }

  /** Every text reads as parts, so the law above is about all of them. */
  lemma {:induction false} EveryTextReads(s: string)
    ensures exists parts :: AllFit(parts) && Joined(parts) == s
    decreases |s|
  {
    hide Quotable, NoBlockEnd;
    if s == "" {
      assert AllFit([]) && Joined([]) == s;
    } else {
      var p, rest;
      if "/*" <= s {
        p, rest := FirstBlock(s);
      } else if "--" <= s {
        p, rest := FirstLine(s, "--");
      } else if "#" <= s {
        p, rest := FirstLine(s, "#");
      } else if IsQuote(s[0]) {
        p, rest := FirstLiteral(s);
      } else {
        p, rest := if s[0] == ';' then Cut else Char(s[0]), s[1..];
        assert [s[0]] + s[1..] == s;
      }
      EveryTextReads(rest);
      var parts :| AllFit(parts) && Joined(parts) == rest;
      assert ([p] + parts)[1..] == parts;
      assert AllFit([p] + parts) && Joined([p] + parts) == s;
    }
  }

  lemma {:induction false} ReadSkips(a: seq<Part>, note: Part, b: seq<Part>, words: string)
    requires IsNote(note)
    ensures Read(a + [note] + b, words) == Read(a + b, words)
    decreases |a|
  {
    if a == [] {
      assert [] + [note] + b == [note] + b && ([note] + b)[1..] == b && [] + b == b;
    } else {
      assert (a + [note] + b)[1..] == a[1..] + [note] + b && (a + b)[1..] == a[1..] + b;
      ReadSkips(a[1..], note, b, if a[0].Cut? then "" else if IsNote(a[0]) then words else words + TextOf(a[0]));
    }
  }

  /** A comment between two runs of parts contributes nothing and separates nothing. */
  lemma CommentsVanish(a: seq<Part>, note: Part, b: seq<Part>)
    requires AllFit(a + [note] + b) && IsNote(note)
    ensures Statements(Joined(a + [note] + b)) == Read(a + b, "")
  {
    ReadsExactly(a + [note] + b);
    ReadSkips(a, note, b, "");
  }

  /** A backslash before each backslash and each quote. */
  function Escaped(t: string, quote: char): string {
    if t == "" then ""
    else (if t[0] == '\\' || t[0] == quote then ['\\', t[0]] else [t[0]]) + Escaped(t[1..], quote)
  }

  lemma {:induction false} EscapedQuotable(t: string, quote: char)
    requires quote != '`'
    ensures Quotable(Escaped(t, quote), quote)
  {
    if t != "" {
      EscapedQuotable(t[1..], quote);
      var step := if t[0] == '\\' || t[0] == quote then 2 else 1;
      assert Escaped(t, quote)[step..] == Escaped(t[1..], quote);
    }
  }

  lemma LiteralIsOneStatement(quote: char, t: string)
    requires IsQuote(quote) && Quotable(t, quote)
    ensures Statements([quote] + t + [quote]) == [[quote] + t + [quote]]
  {
    hide Quotable, Scan, Trim;
    var p := Quoted(quote, t);
    var s := TextOf(p);
    assert [p][1..] == [] && s + "" == s && "" + s == s;
    assert Joined([p]) == s;
    assert Fits(p, Joined([p][1..]));
    ReadsExactly([p]);
    assert Read([p], "") == Read([], s) == Statement(s);
    TrimTrims(s);
  }

  /** A value written with escapes is one statement, whatever semicolons, quotes and comment marks it holds. */
  lemma EscapedIsOneStatement(quote: char, t: string)
    requires quote == '\'' || quote == '"'
    ensures var literal := [quote] + Escaped(t, quote) + [quote]; Statements(literal) == [literal]
  {
    EscapedQuotable(t, quote);
    LiteralIsOneStatement(quote, Escaped(t, quote));
  }

  lemma {:induction false} PlainQuotable(t: string)
    requires '`' !in t
    ensures Quotable(t, '`')
  {
    if t != "" {
      PlainQuotable(t[1..]);
    }
  }

  /** Between backticks nothing is escaped: the name ends at the next backtick, a backslash before it or not. */
  lemma BackticksEscapeNothing(t: string)
    requires '`' !in t
    ensures Statements("`" + t + "`") == ["`" + t + "`"]
  {
    PlainQuotable(t);
    LiteralIsOneStatement('`', t);
  }
}
