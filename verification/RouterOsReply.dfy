/** A router's whole answer, from the rows it sends to the promise the caller holds. */
module RouterOsReply {
  import opened Tables
  import opened RouterOsCodec
  import opened RouterOsSession

  type Row = seq<(Word, Word)>

  // ----- sentences through the lexer -----------------------------------------

  function NonEmpty(words: seq<Word>): seq<Word> {
    if words == [] then []
    else (if words[0] == [] then [] else [words[0]]) + NonEmpty(words[1..])
  }

  predicate Encodable(words: seq<Word>) {
    forall w :: w in words ==> |w| < 0x2000_0000
  }

  lemma TokenOfWord(w: Word, rest: seq<Byte>)
    requires |w| < 0x2000_0000
    ensures var bytes := EncodeLength(|w|) + w;
            TokenAt(bytes + rest, 0) == if w == [] then Skip(|bytes|) else Take(|bytes|, w)
  {
    var prefix := EncodeLength(|w|);
    LengthRoundTrip(|w|, w + rest);
    assert prefix + w + rest == prefix + (w + rest);
    assert (prefix + w + rest)[|prefix|..|prefix| + |w|] == w;
  }

  lemma LexWord(w: Word, rest: seq<Byte>, waiting: nat)
    requires |w| < 0x2000_0000 && waiting > 0
    ensures var bytes := EncodeLength(|w|) + w;
            Lex(bytes + rest, 0, waiting)
            == if w == [] then Lex(rest, 0, waiting).Shift(|bytes|)
               else Lex(rest, 0, Less(waiting, w)).Shift(|bytes|).Prepend(w)
  {
    var bytes := EncodeLength(|w|) + w;
    TokenOfWord(w, rest);
    assert (bytes + rest)[|bytes|..] == rest;
    LexShift(bytes + rest, |bytes|, 0, if w == [] then waiting else Less(waiting, w));
  }

  /** How many requests the words finish. */
  function Dones(words: seq<Word>): nat {
    if words == [] then 0 else (if words[0] == DONE then 1 else 0) + Dones(words[1..])
  }

  /** Decoding undoes encoding: encoded words are read back, the empty ones apart, and reading goes on right
      behind them, for the requests they leave waiting. */
  lemma {:induction false} WordsRoundTrip(words: seq<Word>, rest: seq<Byte>, waiting: nat)
    requires waiting > Dones(words) && Encodable(words)
    ensures Lex(EncodeWords(words) + rest, 0, waiting)
         == Lex(rest, 0, waiting - Dones(words)).After(|EncodeWords(words)|, NonEmpty(words))
  {
    hide Lex, EncodeLength;
    var r := Lex(rest, 0, waiting - Dones(words));
    if words == [] {
      assert [] + rest == rest;
      assert [] + r.words == r.words;
    } else {
      var w, more := words[0], words[1..];
      var bytes := EncodeLength(|w|) + w;
      assert EncodeWords(words) + rest == bytes + (EncodeWords(more) + rest);
      LexWord(w, EncodeWords(more) + rest, waiting);
      WordsRoundTrip(more, rest, Less(waiting, w));
      AfterMore(r, |bytes|, |EncodeWords(more)|, w, NonEmpty(more));
    }
  }

  lemma AfterMore(r: Lexed, k: nat, n: nat, w: Word, words: seq<Word>)
    ensures r.After(n, words).Shift(k).Prepend(w) == r.After(k + n, [w] + words)
    ensures r.After(n, words).Shift(k) == r.After(k + n, [] + words)
  {
    assert [w] + (words + r.words) == ([w] + words) + r.words;
    assert [] + words == words;
  }

  lemma SentenceRoundTrip(words: seq<Word>, rest: seq<Byte>, waiting: nat)
    requires waiting > Dones(words) && Encodable(words)
    ensures Lex(EncodedSentence(words) + rest, 0, waiting)
         == Lex(rest, 0, waiting - Dones(words)).After(|EncodedSentence(words)|, NonEmpty(words))
  {
    hide Lex, EncodeWords, Dones, NonEmpty;
    assert EncodeLength(0) + [] == [0];
    var left := waiting - Dones(words);
    WordsRoundTrip(words, [0] + rest, waiting);
    assert EncodedSentence(words) + rest == EncodeWords(words) + ([0] + rest);
    LexWord([], rest, left);
    assert Lex([0] + rest, 0, left) == Lex(rest, 0, left).Shift(1);
  }

  /** The sentence that finishes the last waiting request is read up to its "!done"; what follows stays unread. */
  lemma LastSentence(words: seq<Word>, rest: seq<Byte>)
    requires Encodable(words)
    ensures var waiting := Dones(words) + 1;
            && Lex(EncodeWords(words + [DONE]) + rest, 0, waiting)
               == Lexed(|EncodeWords(words + [DONE])|, 0, NonEmpty(words) + [DONE])
  {
    var done := EncodeLength(|DONE|) + DONE;
    EncodeOneMore(words);
    assert EncodeWords(words + [DONE]) + rest == EncodeWords(words) + (done + rest);
    WordsRoundTrip(words, done + rest, Dones(words) + 1);
    LexWord(DONE, rest, 1);
    assert Lex(rest, 0, 0) == Lexed(0, 0, []);
    assert NonEmpty(words) + ([DONE] + []) == NonEmpty(words) + [DONE];
  }

  lemma {:induction false} EncodeOneMore(words: seq<Word>)
    ensures EncodeWords(words + [DONE]) == EncodeWords(words) + (EncodeLength(|DONE|) + DONE)
  {
    if words == [] {
      assert [] + [DONE] == [DONE];
    } else {
      EncodeOneMore(words[1..]);
      assert (words + [DONE])[1..] == words[1..] + [DONE];
    }
  }

  lemma {:induction false} NoDones(words: seq<Word>)
    requires DONE !in words
    ensures Dones(words) == 0
  {
    if words != [] {
      NoDones(words[1..]);
    }
  }

  // ----- a whole answer ------------------------------------------------------

  /** The words of one attribute, "=key=value". */
  function AttributeWord(a: (Word, Word)): Word {
    [EQ] + a.0 + [EQ] + a.1
  }

  function AttributeWords(row: Row): seq<Word> {
    if row == [] then [] else [AttributeWord(row[0])] + AttributeWords(row[1..])
  }

  /** The object the attributes build up: a later attribute of the same name wins. */
  function Object(row: Row, base: Attributes): Attributes
    decreases row
  {
    if row == [] then base else Object(row[1..], base[row[0].0 := row[0].1])
  }

  function LastMessage(row: Row, m: Word): Word
    decreases row
  {
    if row == [] then m else LastMessage(row[1..], if row[0].0 == MESSAGE then row[0].1 else m)
  }

  ghost predicate Plain(row: Row) {
    forall a :: a in row ==> EQ !in a.0 && |AttributeWord(a)| < 0x2000_0000
  }

  lemma {:induction false} IndexOfFirst(w: Word, b: Byte, from: nat, at: nat)
    requires from <= at < |w| && w[at] == b && b !in w[from..at]
    ensures IndexOf(w, b, from) == Some(at)
    decreases at - from
  {
    if from < at {
      assert w[from] == w[from..at][0];
      assert w[from + 1..at] == w[from..at][1..];
      IndexOfFirst(w, b, from + 1, at);
    }
  }

  /** The key ends at the first "=" behind the leading one, so a key without "=" comes back whole. */
  lemma AttributeRead(a: (Word, Word))
    requires EQ !in a.0
    ensures var w := AttributeWord(a);
            var i := 1 + |a.0|;
            IndexOf(w, EQ, 1) == Some(i) && w[1..i] == a.0 && w[i + 1..] == a.1
            && w != DONE && w != RE && w != TRAP && w != FATAL
  {
    var w := AttributeWord(a);
    assert w[0] == EQ && w[1..1 + |a.0|] == a.0;
    IndexOfFirst(w, EQ, 1, 1 + |a.0|);
  }

  lemma {:induction false} NoIndexOf(w: Word, b: Byte, from: nat)
    requires from <= |w|
    ensures IndexOf(w, b, from).None? ==> b !in w[from..]
    ensures IndexOf(w, b, from).Some? ==> b !in w[from..IndexOf(w, b, from).value]
    decreases |w| - from
  {
    if from < |w| && w[from] != b {
      NoIndexOf(w, b, from + 1);
      assert w[from..] == [w[from]] + w[from + 1..];
      if IndexOf(w, b, from).Some? {
        var i := IndexOf(w, b, from).value;
        assert w[from..i] == [w[from]] + w[from + 1..i];
      }
    }
  }

  /** Every word but !done: !re closes the row, a trap marks the request, an attribute fills the row or, behind a trap,
      gives the reason, and a word of any other form changes nothing. */
  lemma WordReads(r: Request, w: Word)
    ensures w == RE ==> Absorb(r, w) == if r.cur == map[] then r else r.(rows := r.rows + [r.cur], cur := map[])
    ensures w == TRAP || w == FATAL ==> Absorb(r, w) == r.(trapped := true)
    ensures forall a: (Word, Word) :: EQ !in a.0 && w == AttributeWord(a) ==>
              Absorb(r, w) == if !r.trapped then r.(cur := r.cur[a.0 := a.1])
                              else if a.0 == MESSAGE then r.(message := a.1) else r
    ensures w != RE && w != TRAP && w != FATAL && (forall a: (Word, Word) :: EQ !in a.0 ==> w != AttributeWord(a)) ==>
              Absorb(r, w) == r
  {
    forall a: (Word, Word) | EQ !in a.0 && w == AttributeWord(a)
      ensures Absorb(r, w) == if !r.trapped then r.(cur := r.cur[a.0 := a.1])
                              else if a.0 == MESSAGE then r.(message := a.1) else r
    {
      AttributeRead(a);
    }
    if w != [] && w[0] == EQ && IndexOf(w, EQ, 1).Some? {
      var i := IndexOf(w, EQ, 1).value;
      NoIndexOf(w, EQ, 1);
      assert w == AttributeWord((w[1..i], w[i + 1..]));
    }
  }

  function AbsorbAll(r: Request, words: seq<Word>): Request
    decreases words
  {
    if words == [] then r else AbsorbAll(Absorb(r, words[0]), words[1..])
  }

  lemma {:induction false} AbsorbAttributes(r: Request, row: Row)
    requires Plain(row)
    ensures AbsorbAll(r, AttributeWords(row))
         == if r.trapped then r.(message := LastMessage(row, r.message)) else r.(cur := Object(row, r.cur))
    decreases row
  {
    if row != [] {
      AttributeRead(row[0]);
      var w := AttributeWord(row[0]);
      assert AttributeWords(row)[1..] == AttributeWords(row[1..]);
      AbsorbAttributes(Absorb(r, w), row[1..]);
    }
  }

  lemma {:induction false} HandleAbsorbs(d: Desk, words: seq<Word>, rest: seq<Word>)
    requires d.queue != [] && DONE !in words
    ensures HandleAll(d, words + rest)
         == HandleAll(Desk([AbsorbAll(d.queue[0], words)] + d.queue[1..], d.settled), rest)
    decreases words
  {
    if words == [] {
      assert words + rest == rest;
      assert [d.queue[0]] + d.queue[1..] == d.queue;
    } else {
      assert (words + rest)[1..] == words[1..] + rest;
      HandleAbsorbs(Handle(d, words[0]), words[1..], rest);
    }
  }

  lemma {:induction false} AttributeWordsPlain(row: Row)
    requires Plain(row)
    ensures Encodable(AttributeWords(row)) && DONE !in AttributeWords(row)
    ensures NonEmpty(AttributeWords(row)) == AttributeWords(row)
  {
    if row != [] {
      AttributeRead(row[0]);
      AttributeWordsPlain(row[1..]);
    }
  }

  /** One tagged sentence in front of anything else: its words reach the request at the head of the queue. */
  lemma SentenceHandled(d: Desk, tag: Word, row: Row, rest: seq<Byte>)
    requires d.queue != [] && tag != DONE && tag != [] && |tag| < 0x2000_0000 && Plain(row)
    ensures var d' := Desk([AbsorbAll(Absorb(d.queue[0], tag), AttributeWords(row))] + d.queue[1..], d.settled);
            HandleAll(d, Lex(EncodedSentence([tag] + AttributeWords(row)) + rest, 0, |d.queue|).words)
            == HandleAll(d', Lex(rest, 0, |d.queue|).words)
  {
    hide Lex, Dones, EncodedSentence, Absorb, HandleAll;
    var words := [tag] + AttributeWords(row);
    AttributeWordsPlain(row);
    NoDones(words);
    SentenceRoundTrip(words, rest, |d.queue|);
    assert words[1..] == AttributeWords(row);
    assert NonEmpty(words) == words;
    HandleAbsorbs(d, words, Lex(rest, 0, |d.queue|).words);
    assert AbsorbAll(d.queue[0], words) == AbsorbAll(Absorb(d.queue[0], tag), AttributeWords(row));
  }

  lemma DoneHandled(d: Desk)
    requires d.queue != []
    ensures HandleAll(d, Lex(EncodedSentence([DONE]), 0, |d.queue|).words)
         == Desk(d.queue[1..], d.settled + [Settle(d.queue[0])])
  {
    assert EncodeWords([DONE]) == EncodeLength(|DONE|) + DONE;
    LexWord(DONE, [0], |d.queue|);
    var waiting := Less(|d.queue|, DONE);
    assert EncodeLength(0) + [] + [] == [0];
    if waiting > 0 {
      LexWord([], [], waiting);
    }
    assert Lex([0], 0, waiting).words == [];
    assert Lex(EncodedSentence([DONE]), 0, |d.queue|).words == [DONE];
    assert HandleAll(Handle(d, DONE), []) == Handle(d, DONE);
  }

  function RowBytes(rows: seq<Row>): seq<Byte> {
    if rows == [] then [] else EncodedSentence([RE] + AttributeWords(rows[0])) + RowBytes(rows[1..])
  }

  function Objects(rows: seq<Row>): seq<Attributes> {
    if rows == [] then []
    else (if Object(rows[0], map[]) == map[] then [] else [Object(rows[0], map[])]) + Objects(rows[1..])
  }

  lemma RowHandled(p: Request, others: seq<Request>, settled: seq<Settlement>, row: Row, rest: seq<Byte>)
    requires !p.trapped && Plain(row)
    ensures HandleAll(Desk([p] + others, settled),
                      Lex(EncodedSentence([RE] + AttributeWords(row)) + rest, 0, 1 + |others|).words)
         == HandleAll(Desk([Flush(p).(cur := Object(row, map[]))] + others, settled), Lex(rest, 0, 1 + |others|).words)
  {
    var d := Desk([p] + others, settled);
    SentenceHandled(d, RE, row, rest);
    AbsorbAttributes(Flush(p), row);
    assert d.queue[1..] == others;
  }

  lemma ObjectsMore(p: Request, row: Row, more: seq<Row>)
    ensures Flush(Flush(p).(cur := Object(row, map[]))).rows + Objects(more) == Flush(p).rows + Objects([row] + more)
  {
    assert ([row] + more)[1..] == more;
  }

  lemma {:induction false} RowsHandled(p: Request, others: seq<Request>, settled: seq<Settlement>, rows: seq<Row>)
    requires !p.trapped
    requires forall row :: row in rows ==> Plain(row)
    ensures HandleAll(Desk([p] + others, settled),
                      Lex(RowBytes(rows) + EncodedSentence([DONE]), 0, 1 + |others|).words)
         == Desk(others, settled + [Resolved(p.id, Flush(p).rows + Objects(rows))])
    decreases rows
  {
    var done := EncodedSentence([DONE]);
    if rows == [] {
      assert RowBytes(rows) + done == done;
      assert Flush(p).rows + [] == Flush(p).rows;
      DoneHandled(Desk([p] + others, settled));
      assert ([p] + others)[1..] == others;
    } else {
      var row, more := rows[0], rows[1..];
      assert RowBytes(rows) + done == EncodedSentence([RE] + AttributeWords(row)) + (RowBytes(more) + done);
      RowHandled(p, others, settled, row, RowBytes(more) + done);
      var p' := Flush(p).(cur := Object(row, map[]));
      RowsHandled(p', others, settled, more);
      ObjectsMore(p, row, more);
      assert [row] + more == rows;
    }
  }

  /** A reply of data sentences closed by !done, in one chunk: the oldest request resolves with exactly the
      rows sent (those without attributes apart) and no other request is touched. */
  lemma ReplyResolves(id: nat, others: seq<Request>, settled: seq<Settlement>, rows: seq<Row>)
    requires forall row :: row in rows ==> Plain(row)
    ensures Feed(State([], Desk([Pending(id)] + others, settled)), RowBytes(rows) + EncodedSentence([DONE])).desk
         == Desk(others, settled + [Resolved(id, Objects(rows))])
  {
    var bytes := RowBytes(rows) + EncodedSentence([DONE]);
    RowsHandled(Pending(id), others, settled, rows);
    FeedFresh(Desk([Pending(id)] + others, settled), bytes);
    assert [] + Objects(rows) == Objects(rows);
  }

  lemma FeedFresh(d: Desk, bytes: seq<Byte>)
    ensures Feed(State([], d), bytes).desk == HandleAll(d, Lex(bytes, 0, |d.queue|).words)
  {
    assert [] + bytes == bytes;
  }

  /** A refusal: the request rejects with the last =message= word that came between !trap and !done. */
  lemma TrapRejects(id: nat, others: seq<Request>, settled: seq<Settlement>, tag: Word, row: Row)
    requires (tag == TRAP || tag == FATAL) && Plain(row)
    ensures Feed(State([], Desk([Pending(id)] + others, settled)),
                 EncodedSentence([tag] + AttributeWords(row)) + EncodedSentence([DONE])).desk
         == Desk(others, settled + [Rejected(id, LastMessage(row, []))])
  {
    var d := Desk([Pending(id)] + others, settled);
    var p := Pending(id).(trapped := true);
    var done := EncodedSentence([DONE]);
    SentenceHandled(d, tag, row, done);
    AbsorbAttributes(p, row);
    var d' := Desk([p.(message := LastMessage(row, []))] + others, settled);
    assert d.queue[1..] == others == d'.queue[1..];
    DoneHandled(d');
    FeedFresh(d, EncodedSentence([tag] + AttributeWords(row)) + done);
  }
}
