/** The RouterOS API wire format as tools/check-mikrotik-api.js writes and reads it. */
module RouterOsCodec {
  import opened Tables

  type Byte = b: int | 0 <= b < 256
  type Word = seq<Byte>

  // ----- lengths and sentences ---------------------------------------------

  /** A length prefix. OR with a mask over clear bits is written as addition; Buffer.from keeps the low
      eight bits of each element, so from 2^21 on only the low 29 bits of the length survive. */
  function EncodeLength(n: nat): seq<Byte> {
    if n < 0x80 then [n]
    else if n < 0x4000 then [0x80 + n / 0x100, n % 0x100]
    else if n < 0x20_0000 then [0xc0 + n / 0x1_0000, n / 0x100 % 0x100, n % 0x100]
    else [0xe0 + n / 0x100_0000 % 0x20, n / 0x1_0000 % 0x100, n / 0x100 % 0x100, n % 0x100]
  }

  datatype Prefix = Prefix(len: nat, adv: nat)

  /** A byte past the end reads as undefined, which the bit operators take for zero. */
  function ByteAt(buf: seq<Byte>, i: nat): Byte {
    if i < |buf| then buf[i] else 0
  }

  function DecodeLength(buf: seq<Byte>, off: nat): Prefix
    requires off < |buf|
  {
    var b := buf[off];
    if b >= 0xe0 then
      Prefix((b - 0xe0) * 0x100_0000 + ByteAt(buf, off + 1) * 0x1_0000 + ByteAt(buf, off + 2) * 0x100
             + ByteAt(buf, off + 3), 4)
    else if b >= 0xc0 then Prefix((b - 0xc0) * 0x1_0000 + ByteAt(buf, off + 1) * 0x100 + ByteAt(buf, off + 2), 3)
    else if b >= 0x80 then Prefix((b - 0x80) * 0x100 + ByteAt(buf, off + 1), 2)
    else Prefix(b, 1)
  }

  /** n = high * 256 + low, so the byte above `low` and what lies above that split n / 256 again. */
  lemma ThreeDigits(n: nat)
    ensures n == n / 0x1_0000 * 0x1_0000 + n / 0x100 % 0x100 * 0x100 + n % 0x100
  {
    var h := n / 0x100;
    assert n == h * 0x100 + n % 0x100 && h == h / 0x100 * 0x100 + h % 0x100;
    assert n / 0x1_0000 == h / 0x100;
  }

  lemma FourDigits(n: nat)
    ensures n % 0x2000_0000 == n / 0x100_0000 % 0x20 * 0x100_0000 + n / 0x1_0000 % 0x100 * 0x1_0000
                               + n / 0x100 % 0x100 * 0x100 + n % 0x100
  {
    ThreeDigits(n);
    var h := n / 0x1_0000;
    var q := h / 0x100;
    assert n / 0x100_0000 == q;
    var rest := h % 0x100 * 0x1_0000 + n / 0x100 % 0x100 * 0x100 + n % 0x100;
    LowBits(q, rest);
    assert n == q * 0x100_0000 + rest;
  }

  lemma LowBits(q: nat, rest: nat)
    requires rest < 0x100_0000
    ensures (q * 0x100_0000 + rest) % 0x2000_0000 == q % 0x20 * 0x100_0000 + rest
  {
    assert q == q / 0x20 * 0x20 + q % 0x20;
    assert q * 0x100_0000 + rest == q / 0x20 * 0x2000_0000 + (q % 0x20 * 0x100_0000 + rest);
  }

  lemma LongRoundTrip(n: nat, buf: seq<Byte>)
    requires n >= 0x20_0000 && EncodeLength(n) <= buf
    ensures DecodeLength(buf, 0) == Prefix(n % 0x2000_0000, 4)
  {
    FourDigits(n);
    var e := EncodeLength(n);
    assert buf[0] == e[0] && buf[1] == e[1] && buf[2] == e[2] && buf[3] == e[3];
  }

  lemma ShortRoundTrip(n: nat, buf: seq<Byte>)
    requires n < 0x20_0000 && EncodeLength(n) <= buf
    ensures DecodeLength(buf, 0) == Prefix(n, |EncodeLength(n)|)
  {
    ThreeDigits(n);
    var e := EncodeLength(n);
    assert buf[0] == e[0] && (|e| > 1 ==> buf[1] == e[1]) && (|e| > 2 ==> buf[2] == e[2]);
  }

  /** The decoder consumes exactly the encoded prefix, and reads back the length modulo 2^29; so the length
      comes back if and only if it is below 2^29. */
  lemma LengthRoundTrip(n: nat, rest: seq<Byte>)
    ensures DecodeLength(EncodeLength(n) + rest, 0) == Prefix(n % 0x2000_0000, |EncodeLength(n)|)
    ensures DecodeLength(EncodeLength(n) + rest, 0).len == n <==> n < 0x2000_0000
  {
    if n < 0x20_0000 {
      ShortRoundTrip(n, EncodeLength(n) + rest);
    } else {
      LongRoundTrip(n, EncodeLength(n) + rest);
    }
  }

  /** Bytes read as one number, the most significant first. */
  function BigEndian(bytes: seq<Byte>): nat {
    if bytes == [] then 0 else BigEndian(bytes[..|bytes| - 1]) * 0x100 + bytes[|bytes| - 1]
  }

  /** On the wire a length below 2^29 takes one to four bytes, most significant first, the top bits of the first saying
      how many follow. */
  lemma LengthOnWire(n: nat)
    requires n < 0x2000_0000
    ensures var e := EncodeLength(n);
            && |e| == (if n < 0x80 then 1 else if n < 0x4000 then 2 else if n < 0x20_0000 then 3 else 4)
            && BigEndian(e) == n + [0, 0x8000, 0xc0_0000, 0xe000_0000][|e| - 1]
  {
    var e := EncodeLength(n);
    assert BigEndian([]) == 0 && BigEndian(e[..1]) == e[0] by {
      assert e[..1][..0] == [];
    }
    if |e| == 1 {
      assert e[..1] == e;
    } else {
      BigEndianStep(e, 1);
      if |e| == 2 {
        assert e[..2] == e;
      } else {
        BigEndianStep(e, 2);
        ThreeDigits(n);
        if |e| == 3 {
          assert e[..3] == e;
        } else {
          BigEndianStep(e, 3);
          FourDigits(n);
          assert e[..4] == e;
        }
      }
    }
  }

  lemma BigEndianStep(e: seq<Byte>, k: nat)
    requires k < |e|
    ensures BigEndian(e[..k + 1]) == BigEndian(e[..k]) * 0x100 + e[k]
  {
    assert e[..k + 1][..k] == e[..k];
  }

  function EncodeWords(words: seq<Word>): seq<Byte> {
    if words == [] then [] else EncodeLength(|words[0]|) + words[0] + EncodeWords(words[1..])
  }

  function EncodedSentence(words: seq<Word>): seq<Byte> {
    EncodeWords(words) + [0]
  }

  lemma Append(a: seq<Byte>, b: seq<Byte>, c: seq<Byte>)
    ensures a + (b + c) == (a + b) + c
  {}

  /** encodeSentence: the parts are appended word by word, then the empty word closes the sentence. */
  method EncodeSentence(words: seq<Word>) returns (bytes: seq<Byte>)
    ensures bytes == EncodedSentence(words)
  {
    bytes := [];
    for i := 0 to |words|
      invariant bytes + EncodeWords(words[i..]) == EncodeWords(words)
    {
      assert words[i..][1..] == words[i + 1..];
      ghost var before := bytes;
      var part := EncodeLength(|words[i]|) + words[i];
      bytes := bytes + part;
      Append(before, part, EncodeWords(words[i + 1..]));
    }
    bytes := bytes + [0];
  }

  // ----- requests waiting for an answer ------------------------------------

  const DONE: Word := [33, 100, 111, 110, 101]             // !done
  const RE: Word := [33, 114, 101]                         // !re
  const TRAP: Word := [33, 116, 114, 97, 112]              // !trap
  const FATAL: Word := [33, 102, 97, 116, 97, 108]         // !fatal
  const MESSAGE: Word := [109, 101, 115, 115, 97, 103, 101] // message
  const EQ: Byte := 61

  type Attributes = map<Word, Word>

  datatype Request = Request(id: nat, rows: seq<Attributes>, cur: Attributes, trapped: bool, message: Word)

  /** How a promise settled; an empty reason stands for "no reason given by the router". */
  datatype Settlement = Resolved(id: nat, rows: seq<Attributes>) | Rejected(id: nat, reason: Word)

  /** Requests still waiting, oldest first, and those already settled. */
  datatype Desk = Desk(queue: seq<Request>, settled: seq<Settlement>)

  datatype State = State(buffer: seq<Byte>, desk: Desk)

  function Pending(id: nat): Request {
    Request(id, [], map[], false, [])
  }

  function Flush(r: Request): Request {
    if r.cur == map[] then r else r.(rows := r.rows + [r.cur], cur := map[])
  }

  function Settle(r: Request): Settlement {
    if r.trapped then Rejected(r.id, r.message) else Resolved(r.id, Flush(r).rows)
  }

  /** indexOf(b, from) */
  function IndexOf(w: Word, b: Byte, from: nat): (i: Option<nat>)
    requires from <= |w|
    ensures i.Some? ==> from <= i.value < |w| && w[i.value] == b
    decreases |w| - from
  {
    if from == |w| then None
    else if w[from] == b then Some(from)
    else IndexOf(w, b, from + 1)
  }

  /** The request after any word but !done. */
  function Absorb(r: Request, w: Word): Request {
    if w == RE then Flush(r)
    else if w == TRAP || w == FATAL then r.(trapped := true)
    else if w == [] || w[0] != EQ || IndexOf(w, EQ, 1).None? then r
    else
      var i := IndexOf(w, EQ, 1).value;
      if !r.trapped then r.(cur := r.cur[w[1..i] := w[i + 1..]])
      else if w[1..i] == MESSAGE then r.(message := w[i + 1..])
      else r
  }

  function Handle(d: Desk, w: Word): Desk {
    if d.queue == [] then d
    else if w == DONE then Desk(d.queue[1..], d.settled + [Settle(d.queue[0])])
    else Desk(d.queue[0 := Absorb(d.queue[0], w)], d.settled)
  }

  function HandleAll(d: Desk, words: seq<Word>): Desk
    decreases words
  {
    if words == [] then d else HandleAll(Handle(d, words[0]), words[1..])
  }

  /** Where the handler's loop stops, how many requests then still wait, and the words it has read. */
  datatype Lexed = Lexed(stop: nat, waiting: nat, words: seq<Word>) {
    function Prepend(w: Word): Lexed {
      this.(words := [w] + words)
    }

    function Shift(k: nat): Lexed {
      this.(stop := k + stop)
    }

    /** The same reading, n bytes and some words further on. */
    function After(n: nat, before: seq<Word>): Lexed {
      Lexed(n + stop, waiting, before + words)
    }
  }

  function Less(waiting: nat, w: Word): nat
    requires waiting > 0
  {
    if w == DONE then waiting - 1 else waiting
  }

  /** What the bytes at `off` are: an empty word, a word not yet complete, or a word. */
  datatype Token = Skip(next: nat) | Wait | Take(next: nat, word: Word) {
    function Shift(k: nat): Token {
      if Wait? then this else this.(next := k + next)
    }
  }

  function TokenAt(buf: seq<Byte>, off: nat): (t: Token)
    requires off < |buf|
    ensures t.Take? ==> off < t.next <= |buf| && t.word != []
    ensures t.Skip? ==> off < t.next
  {
    var p := DecodeLength(buf, off);
    var start := off + p.adv;
    if p.len == 0 then Skip(start)
    else if start + p.len > |buf| then Wait
    else Take(start + p.len, buf[start..start + p.len])
  }

  /** Reads complete words from `off` on while a request is waiting. */
  function Lex(buf: seq<Byte>, off: nat, waiting: nat): Lexed
    decreases |buf| - off
  {
    if off >= |buf| || waiting == 0 then Lexed(off, waiting, [])
    else
      match TokenAt(buf, off)
      case Wait => Lexed(off, waiting, [])
      case Skip(next) => Lex(buf, next, waiting)
      case Take(next, w) => Lex(buf, next, Less(waiting, w)).Prepend(w)
  }

  lemma LexSkip(buf: seq<Byte>, off: nat, waiting: nat, next: nat)
    requires off < |buf| && waiting > 0 && TokenAt(buf, off) == Skip(next)
    ensures Lex(buf, off, waiting) == Lex(buf, next, waiting)
  {}

  lemma LexTake(buf: seq<Byte>, off: nat, waiting: nat, next: nat, w: Word)
    requires off < |buf| && waiting > 0 && TokenAt(buf, off) == Take(next, w)
    ensures Lex(buf, off, waiting) == Lex(buf, next, Less(waiting, w)).Prepend(w)
  {}

  function From(buf: seq<Byte>, off: nat): seq<Byte> {
    if off <= |buf| then buf[off..] else []
  }

  /** The state after `data` arrives: words are handled and what is left over waits for more. */
  function Feed(s: State, data: seq<Byte>): State {
    var buf := s.buffer + data;
    var r := Lex(buf, 0, |s.desk.queue|);
    State(From(buf, r.stop), HandleAll(s.desk, r.words))
  }

  class Connection {
    var buffer: seq<Byte>
    var queue: seq<Request>
    var settled: seq<Settlement>

    ghost function Snapshot(): State
      reads this
    {
      State(buffer, Desk(queue, settled))
    }

    constructor ()
      ensures Snapshot() == State([], Desk([], []))
    {
      buffer, queue, settled := [], [], [];
    }

    method Send(id: nat)
      modifies this
      ensures Snapshot() == State(old(buffer), Desk(old(queue) + [Pending(id)], old(settled)))
    {
      queue := queue + [Pending(id)];
    }

    /** One word of the answer to the request at the head of the queue. */
    method OnWord(word: Word)
      requires queue != []
      modifies this`queue, this`settled
      ensures Desk(queue, settled) == Handle(Desk(old(queue), old(settled)), word)
      ensures |queue| == Less(|old(queue)|, word)
    {
      var p := queue[0];
      if word == DONE {
        queue := queue[1..];
        if p.trapped {
          settled := settled + [Rejected(p.id, p.message)];
        } else {
          if p.cur != map[] {
            p := p.(rows := p.rows + [p.cur]);
          }
          settled := settled + [Resolved(p.id, p.rows)];
        }
        return;
      }
      if word == RE {
        if p.cur != map[] {
          p := p.(rows := p.rows + [p.cur], cur := map[]);
        }
      } else if word == TRAP || word == FATAL {
        p := p.(trapped := true);
      } else if word != [] && word[0] == EQ {
        var i := IndexOf(word, EQ, 1);
        if i.Some? {
          var k, v := word[1..i.value], word[i.value + 1..];
          if p.trapped {
            if k == MESSAGE {
              p := p.(message := v);
            }
          } else {
            p := p.(cur := p.cur[k := v]);
          }
        }
      }
      queue := queue[0 := p];
    }

    /** The socket's data handler. */
    method OnData(data: seq<Byte>)
      modifies this
      ensures Snapshot() == Feed(old(Snapshot()), data)
    {
      var buf := buffer + data;
      var off := 0;
      ghost var goal := Lex(buf, 0, |queue|);
      ghost var desk := HandleAll(Desk(queue, settled), goal.words);
      ghost var words := goal.words;
      while off < |buf| && queue != []
        invariant Lex(buf, off, |queue|) == goal.(words := words)
        invariant HandleAll(Desk(queue, settled), words) == desk
        decreases |buf| - off
      {
        ghost var at := off;
        var prefix := DecodeLength(buf, off);
        off := off + prefix.adv;
        if prefix.len == 0 {
          LexSkip(buf, at, |queue|, off);
          continue;
        }
        if off + prefix.len > |buf| {
          off := off - prefix.adv;
          break;
        }
        var word := buf[off..off + prefix.len];
        off := off + prefix.len;
        LexTake(buf, at, |queue|, off, word);
        words := Lex(buf, off, Less(|queue|, word)).words;
        assert ([word] + words)[1..] == words;
        OnWord(word);
      }
      buffer := From(buf, off);
    }
  }
}
