/** What the RouterOS data handler guarantees over whole byte streams. */
module RouterOsSession {
  import opened RouterOsCodec

  // ----- chunking ------------------------------------------------------------

  /** The bytes end inside a length prefix whose bits so far are all zero: the handler takes it for an empty
      word and forgets it. */
  predicate CutsZeroPrefix(buf: seq<Byte>, off: nat, waiting: nat)
    decreases |buf| - off
  {
    if off >= |buf| || waiting == 0 then false
    else
      match TokenAt(buf, off)
      case Wait => false
      case Skip(next) => next > |buf| || CutsZeroPrefix(buf, next, waiting)
      case Take(next, w) => CutsZeroPrefix(buf, next, Less(waiting, w))
  }

  predicate CutBy(s: State, a: seq<Byte>) {
    CutsZeroPrefix(s.buffer + a, 0, |s.desk.queue|)
  }

  lemma TokenStays(a: seq<Byte>, b: seq<Byte>, off: nat)
    requires off < |a| && !TokenAt(a, off).Wait? && TokenAt(a, off).next <= |a|
    ensures TokenAt(a + b, off) == TokenAt(a, off)
  {
    var p := DecodeLength(a, off);
    var start := off + p.adv;
    assert DecodeLength(a + b, off) == p;
    if p.len != 0 {
      assert (a + b)[start..start + p.len] == a[start..start + p.len];
    }
  }

  lemma TokenShifts(buf: seq<Byte>, k: nat, off: nat)
    requires k + off < |buf|
    ensures TokenAt(buf, k + off) == TokenAt(buf[k..], off).Shift(k)
  {
    var p := DecodeLength(buf[k..], off);
    var start := off + p.adv;
    assert DecodeLength(buf, k + off) == p;
    if start + p.len <= |buf[k..]| {
      assert buf[k..][start..start + p.len] == buf[k + start..k + start + p.len];
    }
  }

  /** What was read so far, and what reading on in `buf` adds to it. */
  function Then(r: Lexed, buf: seq<Byte>): Lexed {
    var more := Lex(buf, r.stop, r.waiting);
    Lexed(more.stop, more.waiting, r.words + more.words)
  }

  lemma ThenPrepend(r: Lexed, w: Word, buf: seq<Byte>)
    ensures Then(r.Prepend(w), buf) == Then(r, buf).Prepend(w)
  {
    var more := Lex(buf, r.stop, r.waiting);
    assert [w] + (r.words + more.words) == ([w] + r.words) + more.words;
  }

  /** Reading `a` and what follows it is reading `a`, then going on from where that stopped. */
  lemma {:induction false} LexResumes(a: seq<Byte>, b: seq<Byte>, off: nat, waiting: nat)
    requires off <= |a| && !CutsZeroPrefix(a, off, waiting)
    ensures Lex(a, off, waiting).stop <= |a|
    ensures Lex(a + b, off, waiting) == Then(Lex(a, off, waiting), a + b)
    decreases |a| - off
  {
    if off < |a| && waiting > 0 {
      match TokenAt(a, off)
      case Wait =>
      case Skip(next) =>
        TokenStays(a, b, off);
        LexResumes(a, b, next, waiting);
      case Take(next, w) =>
        TokenStays(a, b, off);
        LexResumes(a, b, next, Less(waiting, w));
        ThenPrepend(Lex(a, next, Less(waiting, w)), w, a + b);
    }
  }

  /** Where reading starts in a longer buffer makes no difference. */
  lemma {:induction false} LexShift(buf: seq<Byte>, k: nat, off: nat, waiting: nat)
    requires k + off <= |buf|
    ensures Lex(buf, k + off, waiting) == Lex(buf[k..], off, waiting).Shift(k)
    decreases |buf| - off
  {
    hide TokenAt;
    var tail := buf[k..];
    if k + off == |buf| || waiting == 0 {
      assert Lex(tail, off, waiting) == Lexed(off, waiting, []);
    } else {
      TokenShifts(buf, k, off);
      match TokenAt(tail, off)
      case Wait =>
      case Skip(next) =>
        LexSkip(tail, off, waiting, next);
        LexSkip(buf, k + off, waiting, k + next);
        if k + next <= |buf| {
          LexShift(buf, k, next, waiting);
        }
      case Take(next, w) =>
        var less := Less(waiting, w);
        LexTake(tail, off, waiting, next, w);
        LexTake(buf, k + off, waiting, k + next, w);
        LexShift(buf, k, next, less);
        assert Lex(tail, next, less).Shift(k).Prepend(w) == Lex(tail, off, waiting).Shift(k);
    }
  }

  lemma {:induction false} HandleAllConcat(d: Desk, v: seq<Word>, w: seq<Word>)
    ensures HandleAll(d, v + w) == HandleAll(HandleAll(d, v), w)
    decreases v
  {
    if v == [] {
      assert v + w == w;
    } else {
      assert (v + w)[1..] == v[1..] + w;
      HandleAllConcat(Handle(d, v[0]), v[1..], w);
    }
  }

  /** The lexer's count of waiting requests is the length of the queue once its words are handled. */
  lemma {:induction false} WaitingIsQueue(buf: seq<Byte>, off: nat, d: Desk)
    ensures |HandleAll(d, Lex(buf, off, |d.queue|).words).queue| == Lex(buf, off, |d.queue|).waiting
    decreases |buf| - off
  {
    if off < |buf| && d.queue != [] {
      match TokenAt(buf, off)
      case Wait =>
      case Skip(next) => WaitingIsQueue(buf, next, d);
      case Take(next, w) => WaitingIsQueue(buf, next, Handle(d, w));
    }
  }

  /** Reading two chunks in a row, in terms of what the first leaves over. */
  lemma LexTwoChunks(buf: seq<Byte>, b: seq<Byte>, waiting: nat, r: Lexed, more: Lexed)
    requires !CutsZeroPrefix(buf, 0, waiting)
    requires r == Lex(buf, 0, waiting) && r.stop <= |buf|
    requires more == Lex(buf[r.stop..] + b, 0, r.waiting)
    ensures Lex(buf + b, 0, waiting) == Lexed(r.stop + more.stop, more.waiting, r.words + more.words)
  {
    LexResumes(buf, b, 0, waiting);
    assert (buf + b)[r.stop..] == buf[r.stop..] + b;
    LexShift(buf + b, r.stop, 0, r.waiting);
  }

  lemma FromSum(buf: seq<Byte>, k: nat, n: nat)
    requires k <= |buf|
    ensures From(buf, k + n) == From(buf[k..], n)
  {}

  lemma TwoChunks(s: State, a: seq<Byte>, b: seq<Byte>)
    requires !CutBy(s, a)
    ensures Feed(Feed(s, a), b) == Feed(s, a + b)
  {
    hide TokenAt;
    var buf := s.buffer + a;
    var waiting := |s.desk.queue|;
    var r := Lex(buf, 0, waiting);
    var mid := Feed(s, a);
    WaitingIsQueue(buf, 0, s.desk);
    LexResumes(buf, b, 0, waiting);
    assert mid == State(buf[r.stop..], HandleAll(s.desk, r.words)) && |mid.desk.queue| == r.waiting;
    var more := Lex(mid.buffer + b, 0, r.waiting);
    LexTwoChunks(buf, b, waiting, r, more);
    FeedTwice(s, buf, b, r, more);
    assert s.buffer + (a + b) == buf + b;
  }

  lemma FeedTwice(s: State, buf: seq<Byte>, b: seq<Byte>, r: Lexed, more: Lexed)
    requires r.stop <= |buf|
    ensures From(buf + b, r.stop + more.stop) == From(buf[r.stop..] + b, more.stop)
    ensures HandleAll(s.desk, r.words + more.words) == HandleAll(HandleAll(s.desk, r.words), more.words)
  {
    assert (buf + b)[r.stop..] == buf[r.stop..] + b;
    FromSum(buf + b, r.stop, more.stop);
    HandleAllConcat(s.desk, r.words, more.words);
  }

  /** After a cut the next byte is misread. */
  lemma {:induction false} CutLosesPrefix(buf: seq<Byte>, off: nat, waiting: nat)
    requires off <= |buf| && CutsZeroPrefix(buf, off, waiting)
    ensures Lex(buf, off, waiting).stop > |buf|
    ensures Lex(buf + [255], off, waiting).stop < |buf|
    decreases |buf| - off
  {
    var longer := buf + [255];
    match TokenAt(buf, off)
    case Skip(next) =>
      if next > |buf| {
        assert DecodeLength(longer, off).adv == DecodeLength(buf, off).adv;
        assert DecodeLength(longer, off).len >= 255;
        assert TokenAt(longer, off) == Wait;
      } else {
        TokenStays(buf, [255], off);
        CutLosesPrefix(buf, next, waiting);
      }
    case Take(next, w) =>
      TokenStays(buf, [255], off);
      CutLosesPrefix(buf, next, Less(waiting, w));
  }

  /** Splitting the stream after `a` is invisible, whatever follows, if and only if the split does not fall
      inside a length prefix whose bits so far are zero. */
  lemma ChunkingIsInvisible(s: State, a: seq<Byte>)
    ensures (forall b :: Feed(Feed(s, a), b) == Feed(s, a + b)) <==> !CutBy(s, a)
  {
    if CutBy(s, a) {
      var buf := s.buffer + a;
      var b: seq<Byte> := [255];
      CutLosesPrefix(buf, 0, |s.desk.queue|);
      assert s.buffer + (a + b) == buf + b;
      assert Feed(s, a).buffer == [];
      assert |Feed(Feed(s, a), b).buffer| <= 1;
      assert |Feed(s, a + b).buffer| > 1;
    } else {
      forall b ensures Feed(Feed(s, a), b) == Feed(s, a + b) {
        TwoChunks(s, a, b);
      }
    }
  }

  function FeedAll(s: State, chunks: seq<seq<Byte>>): State
    decreases chunks
  {
    if chunks == [] then s else FeedAll(Feed(s, chunks[0]), chunks[1..])
  }

  function Flatten(chunks: seq<seq<Byte>>): seq<Byte> {
    if chunks == [] then [] else chunks[0] + Flatten(chunks[1..])
  }

  predicate CleanCuts(s: State, chunks: seq<seq<Byte>>)
    decreases chunks
  {
    chunks == [] || (!CutBy(s, chunks[0]) && CleanCuts(Feed(s, chunks[0]), chunks[1..]))
  }

  lemma {:induction false} AnyChunking(s: State, chunks: seq<seq<Byte>>)
    requires chunks != [] && CleanCuts(s, chunks)
    ensures FeedAll(s, chunks) == Feed(s, Flatten(chunks))
    decreases chunks
  {
    var first, rest := chunks[0], chunks[1..];
    if rest == [] {
      assert first + Flatten(rest) == first;
    } else {
      AnyChunking(Feed(s, first), rest);
      TwoChunks(s, first, Flatten(rest));
    }
  }

  /** The smallest stream on which chunking shows: the prefix 80 80 of a 128-byte word, one byte at a time. */
  lemma CutExample(id: nat)
    ensures var s := State([], Desk([Pending(id)], []));
            Feed(Feed(s, [0x80]), [0x80]).buffer == [] && Feed(s, [0x80, 0x80]).buffer == [0x80, 0x80]
  {
    var one: seq<Byte> := [0x80];
    var two: seq<Byte> := [0x80, 0x80];
    assert [] + one == one && [] + two == two;
    assert DecodeLength(one, 0) == Prefix(0, 2);
    assert DecodeLength(two, 0) == Prefix(0x80, 2);
  }

  // ----- first in, first out -------------------------------------------------

  function Ids(d: Desk): seq<nat> {
    seq(|d.settled|, i requires 0 <= i < |d.settled| => d.settled[i].id)
    + seq(|d.queue|, i requires 0 <= i < |d.queue| => d.queue[i].id)
  }

  lemma {:induction false} HandlingKeepsOrder(d: Desk, words: seq<Word>)
    ensures Ids(HandleAll(d, words)) == Ids(d)
    ensures d.settled <= HandleAll(d, words).settled
    decreases words
  {
    if words != [] {
      var d' := Handle(d, words[0]);
      assert Ids(d') == Ids(d);
      HandlingKeepsOrder(d', words[1..]);
    }
  }

  datatype Event = Sent(id: nat) | Data(bytes: seq<Byte>)

  function Step(s: State, e: Event): State {
    match e
    case Sent(id) => State(s.buffer, Desk(s.desk.queue + [Pending(id)], s.desk.settled))
    case Data(bytes) => Feed(s, bytes)
  }

  function Run(s: State, events: seq<Event>): State
    decreases events
  {
    if events == [] then s else Run(Step(s, events[0]), events[1..])
  }

  function SentIds(events: seq<Event>): seq<nat> {
    if events == [] then []
    else (if events[0].Sent? then [events[0].id] else []) + SentIds(events[1..])
  }

  lemma StepKeepsOrder(s: State, e: Event)
    ensures Ids(Step(s, e).desk) == Ids(s.desk) + (if e.Sent? then [e.id] else [])
    ensures s.desk.settled <= Step(s, e).desk.settled
  {
    if e.Data? {
      HandlingKeepsOrder(s.desk, Lex(s.buffer + e.bytes, 0, |s.desk.queue|).words);
    }
  }

  /** Over any run, whatever the router sends: the settled requests are, in order, the first ones sent, each
      settled once and for all; the others still wait in the order sent. */
  lemma {:induction false} FirstInFirstOut(s: State, events: seq<Event>)
    ensures Ids(Run(s, events).desk) == Ids(s.desk) + SentIds(events)
    ensures s.desk.settled <= Run(s, events).desk.settled
    decreases events
  {
    if events == [] {
      assert Ids(s.desk) + [] == Ids(s.desk);
    } else {
      StepKeepsOrder(s, events[0]);
      FirstInFirstOut(Step(s, events[0]), events[1..]);
      Associative(Ids(s.desk), if events[0].Sent? then [events[0].id] else [], SentIds(events[1..]));
    }
  }

  lemma Associative(x: seq<nat>, y: seq<nat>, z: seq<nat>)
    ensures (x + y) + z == x + (y + z)
  {}
}
