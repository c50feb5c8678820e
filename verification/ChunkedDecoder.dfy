/** The framing of the chunked transfer coding (section 7.1 of RFC 9112), generic in
    how a chunk-size line is read. */
module ChunkFraming {
  import opened Prelude

  type Byte = b: int | 0 <= b < 256
  type Bytes = seq<Byte>

  const CR: Byte := 13
  const LF: Byte := 10
  const CRLF: Bytes := [CR, LF]
  const USIZE: nat := 0x1_0000_0000_0000_0000

  /** Reads the size out of a line (without its line feed). */
  type SizeParser = Bytes -> Option<nat>

  /** `Panicked` is an index computation that leaves the machine word: it aborts in
      every build, by the overflow check or by the slice bounds that follow. */
  datatype Decoded = Body(bytes: Bytes) | Truncated | BadSize | TooShort | Panicked

  /** Index of the first line feed at or after `pos`, or the length if there is none. */
  function LineEnd(body: Bytes, pos: nat): (r: nat)
    requires pos <= |body|
    ensures pos <= r <= |body|
    ensures r < |body| ==> body[r] == LF
    ensures LF !in body[pos..r]
    decreases |body| - pos
  {
    if pos == |body| || body[pos] == LF then pos else LineEnd(body, pos + 1)
  }

  predicate StartsCrLf(s: Bytes) { |s| >= 2 && s[0] == CR && s[1] == LF }

  /** What the loop body finds at `pos`: a stop, or a chunk `from..to` after which
      reading resumes at `next`. */
  datatype Piece = Finished | Failed(error: Decoded) | Chunked(from: nat, to: nat, next: nat)

  function Classify(body: Bytes, eol: nat, size: Option<nat>): (r: Piece)
    requires eol < |body|
    ensures r.Chunked? ==> eol < r.from < r.to <= |body| && r.to < r.next
  {
    match size
    case None => Failed(BadSize)
    case Some(n) =>
      var end := eol + 1 + n;
      if n == 0 then Finished
      else if end >= USIZE then Failed(Panicked)
      else if end > |body| then Failed(TooShort)
      else Chunked(eol + 1, end, end + if StartsCrLf(body[end..]) then 2 else 1)
  }

  function ReadChunk(parse: SizeParser, body: Bytes, pos: nat): (r: Piece)
    requires pos < |body|
    ensures r.Chunked? ==> pos < r.from < r.to <= |body| && r.to < r.next
  {
    var eol := LineEnd(body, pos);
    if eol == |body| then Failed(Truncated) else Classify(body, eol, parse(body[pos..eol]))
  }

  /** Reading from `pos` on, with `out` collected so far. */
  function Decode(parse: SizeParser, body: Bytes, pos: nat, out: Bytes): Decoded
    decreases |body| - pos
  {
    if pos >= |body| then Body(out)
    else
      match ReadChunk(parse, body, pos)
      case Finished => Body(out)
      case Failed(error) => error
      case Chunked(from, to, next) => Decode(parse, body, next, out + body[from..to])
  }

  // ------------------------------------------------------------------
  // Encoding and decoding
  // ------------------------------------------------------------------

  /** A chunk on the wire: the text of its size line, and its data. */
  datatype Framed = Framed(line: Bytes, data: Bytes)

  /** The line stays on one line and announces the data that follows it. */
  ghost predicate Announces(parse: SizeParser, f: Framed) {
    LF !in f.line && parse(f.line + [CR]) == Some(|f.data|)
  }

  ghost predicate AllAnnounce(parse: SizeParser, fs: seq<Framed>) {
    forall i :: 0 <= i < |fs| ==> Announces(parse, fs[i]) && fs[i].data != []
  }

  function EncodeChunk(f: Framed): Bytes { f.line + CRLF + f.data + CRLF }

  function EncodeAll(fs: seq<Framed>): Bytes {
    if fs == [] then [] else EncodeChunk(fs[0]) + EncodeAll(fs[1..])
  }

  /** The chunks in turn, then the zero chunk's line and whatever trails it. */
  function Encode(fs: seq<Framed>, last: Bytes, trailer: Bytes): Bytes {
    EncodeAll(fs) + (last + CRLF + trailer)
  }

  function Payload(fs: seq<Framed>): Bytes {
    if fs == [] then [] else fs[0].data + Payload(fs[1..])
  }

  lemma {:induction false} LineEndAt(body: Bytes, pos: nat, k: nat)
    requires pos <= k < |body| && body[k] == LF
    requires forall i :: pos <= i < k ==> body[i] != LF
    ensures LineEnd(body, pos) == k
    decreases k - pos
  {
    if pos < k {
      LineEndAt(body, pos + 1, k);
    }
  }

  /** The size line found at `pos`. */
  lemma {:induction false} FindsLine(body: Bytes, pos: nat, line: Bytes, rest: Bytes)
    requires LF !in line && pos <= |body| && body[pos..] == line + CRLF + rest
    ensures var eol := pos + |line| + 1;
            && eol < |body| && LineEnd(body, pos) == eol
            && body[pos..eol] == line + [CR] && body[eol + 1..] == rest
  {
    var n := |line|;
    var tail := body[pos..];
    assert forall i :: 0 <= i < |tail| ==> body[pos + i] == tail[i];
    assert tail[n] == CR && tail[n + 1] == LF;
    forall i | pos <= i < pos + n + 1
      ensures body[i] != LF
    {
      assert body[i] == tail[i - pos];
      if i < pos + n {
        assert tail[i - pos] == line[i - pos] && line[i - pos] in line;
      }
    }
    assert body[pos + n + 1] == tail[n + 1];
    LineEndAt(body, pos, pos + n + 1);
    assert body[pos..pos + n + 1] == tail[..n + 1] == line + [CR];
    assert body[pos + n + 2..] == tail[n + 2..] == rest;
  }

  lemma {:induction false} DataSlices(body: Bytes, start: nat, data: Bytes, rest: Bytes)
    requires start <= |body| && body[start..] == data + (CRLF + rest)
    ensures var end := start + |data|;
            && end + 2 <= |body| && body[start..end] == data
            && StartsCrLf(body[end..]) && body[end + 2..] == rest
  {
    var tail, end := body[start..], start + |data|;
    assert body[start..end] == tail[..|data|];
    assert body[end..] == tail[|data|..] == CRLF + rest;
    assert body[end + 2..] == (CRLF + rest)[2..];
  }

  lemma {:induction false} Associates(a: Bytes, b: Bytes, c: Bytes)
    ensures (a + b) + c == a + (b + c)
  {
  }

  lemma {:induction false} Regroup(f: Framed, rest: Bytes)
    ensures EncodeChunk(f) + rest == f.line + CRLF + (f.data + (CRLF + rest))
  {
    Associates(f.line + CRLF + f.data, CRLF, rest);
    Associates(f.line + CRLF, f.data, CRLF + rest);
  }

  /** From `pos` on the body is `tail`. */
  ghost predicate At(body: Bytes, pos: nat, tail: Bytes) { pos + |tail| == |body| && body[pos..] == tail }

  lemma {:induction false} AtNext(body: Bytes, pos: nat, a: Bytes, b: Bytes, next: nat)
    requires At(body, pos, a + b) && next == pos + |a|
    ensures At(body, next, b)
  {
    assert body[next..] == body[pos..][|a|..] == (a + b)[|a|..];
  }

  lemma {:induction false} AtStart(body: Bytes)
    ensures At(body, 0, body)
  {
  }

  lemma {:induction false} ReadsChunk(parse: SizeParser, body: Bytes, pos: nat, f: Framed, rest: Bytes)
    requires |body| < USIZE && Announces(parse, f) && f.data != [] && At(body, pos, EncodeChunk(f) + rest)
    ensures pos < |body|
    ensures var p := ReadChunk(parse, body, pos);
            p.Chunked? && body[p.from..p.to] == f.data && p.next == pos + |EncodeChunk(f)|
  {
    Regroup(f, rest);
    FindsLine(body, pos, f.line, f.data + (CRLF + rest));
    var eol := pos + |f.line| + 1;
    DataSlices(body, eol + 1, f.data, rest);
    assert ReadChunk(parse, body, pos) == Classify(body, eol, Some(|f.data|));
  }

  /** One chunk read off the front. */
  lemma {:induction false} DecodesOne(
    parse: SizeParser, body: Bytes, pos: nat, f: Framed, rest: Bytes, next: nat, out: Bytes, more: Bytes)
    requires |body| < USIZE && Announces(parse, f) && f.data != [] && At(body, pos, EncodeChunk(f) + rest)
    requires next == pos + |EncodeChunk(f)| && more == out + f.data
    ensures Decode(parse, body, pos, out) == Decode(parse, body, next, more)
  {
    ReadsChunk(parse, body, pos, f, rest);
    var p := ReadChunk(parse, body, pos);
    assert p.next == next && out + body[p.from..p.to] == more;
  }

  lemma {:induction false} AnnounceTail(parse: SizeParser, fs: seq<Framed>)
    requires AllAnnounce(parse, fs) && fs != []
    ensures Announces(parse, fs[0]) && fs[0].data != [] && AllAnnounce(parse, fs[1..])
  {
  }

  /** The first of several chunks, and what is left after it. */
  lemma {:induction false} SplitFirst(
    body: Bytes, pos: nat, fs: seq<Framed>, rest: Bytes, next: nat, end: nat, out: Bytes, total: Bytes)
    requires fs != [] && At(body, pos, EncodeAll(fs) + rest) && next == pos + |EncodeChunk(fs[0])|
    requires end == pos + |EncodeAll(fs)| && total == out + Payload(fs)
    ensures At(body, pos, EncodeChunk(fs[0]) + (EncodeAll(fs[1..]) + rest))
    ensures At(body, next, EncodeAll(fs[1..]) + rest)
    ensures end == next + |EncodeAll(fs[1..])| && total == (out + fs[0].data) + Payload(fs[1..])
  {
    var wire, later := EncodeChunk(fs[0]), EncodeAll(fs[1..]);
    Associates(wire, later, rest);
    AtNext(body, pos, wire, later + rest, next);
    Associates(out, fs[0].data, Payload(fs[1..]));
  }

  /** Reading any number of encoded chunks collects their data and goes on with the
      bytes that follow them. */
  lemma {:induction false} DecodesChunks(
    parse: SizeParser, body: Bytes, pos: nat, fs: seq<Framed>, rest: Bytes, end: nat, out: Bytes, total: Bytes)
    requires |body| < USIZE && AllAnnounce(parse, fs) && At(body, pos, EncodeAll(fs) + rest)
    requires end == pos + |EncodeAll(fs)| && total == out + Payload(fs)
    ensures Decode(parse, body, pos, out) == Decode(parse, body, end, total)
    decreases |fs|
  {
    if fs == [] {
      assert end == pos && total == out;
    } else {
      var next, more := pos + |EncodeChunk(fs[0])|, out + fs[0].data;
      AnnounceTail(parse, fs);
      SplitFirst(body, pos, fs, rest, next, end, out, total);
      DecodesOne(parse, body, pos, fs[0], EncodeAll(fs[1..]) + rest, next, out, more);
      DecodesChunks(parse, body, next, fs[1..], rest, end, more, total);
    }
  }

  /** The same for a body that starts with them. */
  lemma {:induction false} DecodesPrefix(
    parse: SizeParser, body: Bytes, fs: seq<Framed>, rest: Bytes, end: nat, total: Bytes)
    requires |body| < USIZE && AllAnnounce(parse, fs) && body == EncodeAll(fs) + rest
    requires end == |EncodeAll(fs)| && total == Payload(fs)
    ensures Decode(parse, body, 0, []) == Decode(parse, body, end, total)
  {
    AtStart(body);
    assert [] + Payload(fs) == Payload(fs);
    DecodesChunks(parse, body, 0, fs, rest, end, [], total);
  }

  /** The zero chunk ends the body. */
  lemma {:induction false} ReadsLast(
    parse: SizeParser, body: Bytes, pos: nat, last: Bytes, trailer: Bytes, out: Bytes)
    requires Announces(parse, Framed(last, [])) && At(body, pos, last + CRLF + trailer)
    ensures Decode(parse, body, pos, out) == Body(out)
  {
    FindsLine(body, pos, last, trailer);
    assert ReadChunk(parse, body, pos) == Finished;
  }

  /** Decoding an encoding returns the concatenated data, whatever trails the zero chunk. */
  lemma {:induction false} FramingRoundTrip(parse: SizeParser, fs: seq<Framed>, last: Bytes, trailer: Bytes)
    requires AllAnnounce(parse, fs) && Announces(parse, Framed(last, []))
    requires |Encode(fs, last, trailer)| < USIZE
    ensures Decode(parse, Encode(fs, last, trailer), 0, []) == Body(Payload(fs))
  {
    var body, rest, end := Encode(fs, last, trailer), last + CRLF + trailer, |EncodeAll(fs)|;
    AtStart(body);
    AtNext(body, 0, EncodeAll(fs), rest, end);
    DecodesPrefix(parse, body, fs, rest, end, Payload(fs));
    ReadsLast(parse, body, end, last, trailer, Payload(fs));
  }

  /** After any number of good chunks, a line that announces more than the machine
      word has room for panics. */
  lemma {:induction false} OverflowPanics(
    parse: SizeParser, fs: seq<Framed>, line: Bytes, size: nat, rest: Bytes)
    requires AllAnnounce(parse, fs) && LF !in line && parse(line + [CR]) == Some(size) && size > 0
    requires |Encode(fs, line, rest)| < USIZE <= |EncodeAll(fs)| + |line| + 2 + size
    ensures Decode(parse, Encode(fs, line, rest), 0, []) == Panicked
  {
    var body, tail, end := Encode(fs, line, rest), line + CRLF + rest, |EncodeAll(fs)|;
    AtStart(body);
    AtNext(body, 0, EncodeAll(fs), tail, end);
    DecodesPrefix(parse, body, fs, tail, end, Payload(fs));
    PanicsHere(parse, body, end, line, size, rest, Payload(fs));
  }

  lemma {:induction false} PanicsHere(
    parse: SizeParser, body: Bytes, pos: nat, line: Bytes, size: nat, rest: Bytes, out: Bytes)
    requires LF !in line && parse(line + [CR]) == Some(size) && size > 0 && pos + |line| + 2 + size >= USIZE
    requires At(body, pos, line + CRLF + rest)
    ensures Decode(parse, body, pos, out) == Panicked
  {
    FindsLine(body, pos, line, rest);
    assert ReadChunk(parse, body, pos) == Failed(Panicked);
  }

  /** Reading from `pos` on gets to `q` through well-framed chunks. */
  predicate Reaches(parse: SizeParser, body: Bytes, pos: nat, q: nat)
    decreases |body| - pos
  {
    pos == q ||
    (pos < |body| && ReadChunk(parse, body, pos).Chunked? &&
     Reaches(parse, body, ReadChunk(parse, body, pos).next, q))
  }

  /** The size announced at `q` leaves no room in the machine word. */
  predicate Overflows(parse: SizeParser, body: Bytes, q: nat) {
    q < |body| &&
    var eol := LineEnd(body, q);
    && eol < |body| && parse(body[q..eol]).Some?
    && parse(body[q..eol]).value > 0 && eol + 1 + parse(body[q..eol]).value >= USIZE
  }

  /** On any input the decoder panics exactly when it gets to such a size. */
  lemma {:induction false} PanicsExactly(parse: SizeParser, body: Bytes, pos: nat, out: Bytes)
    ensures Decode(parse, body, pos, out) == Panicked <==>
            exists q :: Reaches(parse, body, pos, q) && Overflows(parse, body, q)
    decreases |body| - pos
  {
    if pos < |body| {
      var p := ReadChunk(parse, body, pos);
      if p.Chunked? {
        PanicsExactly(parse, body, p.next, out + body[p.from..p.to]);
        assert forall q: nat :: Reaches(parse, body, pos, q) <==> q == pos || Reaches(parse, body, p.next, q);
        assert !Overflows(parse, body, pos);
      } else {
        assert forall q: nat :: Reaches(parse, body, pos, q) <==> q == pos;
        assert p == Failed(Panicked) <==> Overflows(parse, body, pos);
      }
    }
  }

  /** Reading stops at `q`: the input is used up, or the line there announces no data. */
  predicate EndsAt(parse: SizeParser, body: Bytes, q: nat) {
    q >= |body| || (LineEnd(body, q) < |body| && parse(body[q..LineEnd(body, q)]) == Some(0))
  }

  /** On any input the decoder returns a body exactly when it gets to such a point; it
      does not ask for the zero chunk. */
  lemma {:induction false} AcceptsExactly(parse: SizeParser, body: Bytes, pos: nat, out: Bytes)
    ensures Decode(parse, body, pos, out).Body? <==>
            exists q :: Reaches(parse, body, pos, q) && EndsAt(parse, body, q)
    decreases |body| - pos
  {
    if pos >= |body| {
      assert Reaches(parse, body, pos, pos) && EndsAt(parse, body, pos);
    } else {
      var p := ReadChunk(parse, body, pos);
      if p.Chunked? {
        AcceptsExactly(parse, body, p.next, out + body[p.from..p.to]);
        assert forall q: nat :: Reaches(parse, body, pos, q) <==> q == pos || Reaches(parse, body, p.next, q);
        assert !EndsAt(parse, body, pos);
      } else {
        assert forall q: nat :: Reaches(parse, body, pos, q) <==> q == pos;
        assert p == Finished <==> EndsAt(parse, body, pos);
      }
    }
  }

  /** Why else it stops: no line feed, a size that cannot be read, or data that is missing. */
  predicate NoLine(body: Bytes, q: nat) { q < |body| && LineEnd(body, q) == |body| }

  predicate Unreadable(parse: SizeParser, body: Bytes, q: nat) {
    q < |body| && LineEnd(body, q) < |body| && parse(body[q..LineEnd(body, q)]).None?
  }

  predicate Lacking(parse: SizeParser, body: Bytes, q: nat) {
    q < |body| &&
    var eol := LineEnd(body, q);
    && eol < |body| && parse(body[q..eol]).Some? && parse(body[q..eol]).value > 0
    && |body| < eol + 1 + parse(body[q..eol]).value < USIZE
  }

  lemma {:induction false} FailsExactly(parse: SizeParser, body: Bytes, pos: nat, out: Bytes)
    ensures Decode(parse, body, pos, out) == Truncated <==>
            exists q :: Reaches(parse, body, pos, q) && NoLine(body, q)
    ensures Decode(parse, body, pos, out) == BadSize <==>
            exists q :: Reaches(parse, body, pos, q) && Unreadable(parse, body, q)
    ensures Decode(parse, body, pos, out) == TooShort <==>
            exists q :: Reaches(parse, body, pos, q) && Lacking(parse, body, q)
    decreases |body| - pos
  {
    if pos < |body| {
      var p := ReadChunk(parse, body, pos);
      if p.Chunked? {
        FailsExactly(parse, body, p.next, out + body[p.from..p.to]);
        assert forall q: nat :: Reaches(parse, body, pos, q) <==> q == pos || Reaches(parse, body, p.next, q);
        assert !NoLine(body, pos) && !Unreadable(parse, body, pos) && !Lacking(parse, body, pos);
      } else {
        assert forall q: nat :: Reaches(parse, body, pos, q) <==> q == pos;
        assert p == Failed(Truncated) <==> NoLine(body, pos);
        assert p == Failed(BadSize) <==> Unreadable(parse, body, pos);
        assert p == Failed(TooShort) <==> Lacking(parse, body, pos);
      }
    }
  }

  lemma {:induction false} FindsBareLine(body: Bytes, pos: nat, line: Bytes, rest: Bytes)
    requires LF !in line && At(body, pos, line + [LF] + rest)
    ensures var eol := pos + |line|;
            && eol < |body| && LineEnd(body, pos) == eol
            && body[pos..eol] == line && body[eol + 1..] == rest
  {
    var n := |line|;
    var tail := body[pos..];
    forall i | pos <= i < pos + n
      ensures body[i] != LF
    {
      assert body[i] == tail[i - pos] == line[i - pos] && line[i - pos] in line;
    }
    assert body[pos + n] == tail[n];
    LineEndAt(body, pos, pos + n);
    assert body[pos..pos + n] == tail[..n];
    assert body[pos + n + 1..] == tail[n + 1..];
  }

  /** A bare line feed ends a size line as well, and any single byte but the carriage return
      of a CRLF is skipped after the data. */
  lemma {:induction false} ReadsBareChunk(
    parse: SizeParser, body: Bytes, pos: nat, f: Framed, sep: Byte, rest: Bytes)
    requires |body| < USIZE && LF !in f.line && parse(f.line) == Some(|f.data|) && f.data != []
    requires At(body, pos, f.line + [LF] + (f.data + ([sep] + rest)))
    requires sep != CR || rest == [] || rest[0] != LF
    ensures pos < |body|
    ensures var p := ReadChunk(parse, body, pos);
            p.Chunked? && body[p.from..p.to] == f.data && At(body, p.next, rest)
  {
    FindsBareLine(body, pos, f.line, f.data + ([sep] + rest));
    var start := pos + |f.line| + 1;
    var tail, end := body[start..], start + |f.data|;
    assert tail == f.data + ([sep] + rest);
    assert body[start..end] == tail[..|f.data|];
    assert body[end..] == tail[|f.data|..] == [sep] + rest;
    assert body[end + 1..] == ([sep] + rest)[1..] == rest;
    assert ReadChunk(parse, body, pos) == Classify(body, start - 1, Some(|f.data|));
  }

  /** In particular never when every size it could read leaves room for the length of
      the body. */
  lemma {:induction false} OtherwiseNeverPanics(parse: SizeParser, body: Bytes, pos: nat, out: Bytes)
    requires forall i, j :: 0 <= i <= j <= |body| && parse(body[i..j]).Some? ==>
               |body| + parse(body[i..j]).value < USIZE
    ensures Decode(parse, body, pos, out) != Panicked
    decreases |body| - pos
  {
    if pos < |body| {
      var p := ReadChunk(parse, body, pos);
      if p.Chunked? {
        OtherwiseNeverPanics(parse, body, p.next, out + body[p.from..p.to]);
      }
    }
  }

  // ------------------------------------------------------------------
  // Truncated encodings
  // ------------------------------------------------------------------

  /** A body cut off after any chunk is accepted as complete: the missing zero chunk
      goes unnoticed. */
  lemma {:induction false} MissingTerminatorAccepted(parse: SizeParser, fs: seq<Framed>)
    requires AllAnnounce(parse, fs) && |EncodeAll(fs)| < USIZE
    ensures Decode(parse, EncodeAll(fs), 0, []) == Body(Payload(fs))
  {
    var body := EncodeAll(fs);
    assert body == EncodeAll(fs) + [];
    DecodesPrefix(parse, body, fs, [], |body|, Payload(fs));
  }

  /** What the decoder makes of the first `i` bytes of an encoding. A chunk whose data is
      complete counts, with its line end or without. */
  function Cut(fs: seq<Framed>, last: Bytes, i: nat, out: Bytes): Decoded
    decreases |fs|
  {
    if i == 0 then Body(out)
    else if fs == [] then if i >= |last| + 2 then Body(out) else Truncated
    else
      var n := |EncodeChunk(fs[0])|;
      if i < |fs[0].line| + 2 then Truncated
      else if i < n - 2 then TooShort
      else Cut(fs[1..], last, if i <= n then 0 else i - n, out + fs[0].data)
  }

  lemma {:induction false} NoLineFeed(body: Bytes, pos: nat)
    requires pos <= |body| && LF !in body[pos..]
    ensures LineEnd(body, pos) == |body|
    decreases |body| - pos
  {
    if pos < |body| {
      assert body[pos..][0] == body[pos];
      assert body[pos..] == [body[pos]] + body[pos + 1..];
      NoLineFeed(body, pos + 1);
    }
  }

  lemma {:induction false} NoLineFeedIn(line: Bytes, rest: Bytes, i: nat)
    requires LF !in line && i < |line| + 2
    ensures LF !in (line + CRLF + rest)[..i]
  {
    var tail := line + CRLF + rest;
    forall k | 0 <= k < i
      ensures tail[k] != LF
    {
      if k < |line| {
        assert tail[k] == line[k] && line[k] in line;
      } else {
        assert tail[k] == CR;
      }
    }
  }

  /** Nothing of a line but a proper prefix: the line feed is missing. */
  lemma {:induction false} CutInLine(
    parse: SizeParser, body: Bytes, pos: nat, line: Bytes, rest: Bytes, i: nat, out: Bytes)
    requires LF !in line && 0 < i < |line| + 2 && At(body, pos, (line + CRLF + rest)[..i])
    ensures Decode(parse, body, pos, out) == Truncated
  {
    NoLineFeedIn(line, rest, i);
    NoLineFeed(body, pos);
  }

  lemma {:induction false} CutBehind(a: Bytes, b: Bytes, i: nat)
    requires |a| <= i <= |a| + |b|
    ensures (a + b)[..i] == a + b[..i - |a|]
  {
  }

  lemma {:induction false} CutBefore(a: Bytes, b: Bytes, i: nat)
    requires i <= |a|
    ensures (a + b)[..i] == a[..i]
  {
  }

  /** A cut in the data, or in the line end behind it. */
  lemma {:induction false} CutChunk(f: Framed, rest: Bytes, i: nat)
    requires |f.line| + 2 <= i <= |EncodeChunk(f)|
    ensures (EncodeChunk(f) + rest)[..i] == f.line + CRLF + (f.data + CRLF)[..i - (|f.line| + 2)]
  {
    CutBefore(EncodeChunk(f), rest, i);
    Associates(f.line + CRLF, f.data, CRLF);
    CutBehind(f.line + CRLF, f.data + CRLF, i);
  }

  lemma {:induction false} DataBeforeCut(body: Bytes, start: nat, data: Bytes, k: nat)
    requires |data| <= k < |data| + 2 && At(body, start, (data + CRLF)[..k])
    ensures var end := start + |data|;
            end <= |body| && body[start..end] == data && |body[end..]| <= 1
  {
    var end := start + |data|;
    assert body[start..end] == body[start..][..|data|] == (data + CRLF)[..k][..|data|] == data;
  }

  /** What the decoder finds at such a cut. */
  lemma {:induction false} ReadsCut(parse: SizeParser, body: Bytes, pos: nat, f: Framed, inner: Bytes, k: nat)
    requires Announces(parse, f) && f.data != [] && pos + |EncodeChunk(f)| < USIZE
    requires k < |f.data| + 2 && inner == (f.data + CRLF)[..k] && At(body, pos, f.line + CRLF + inner)
    ensures pos < |body|
    ensures var p := ReadChunk(parse, body, pos);
            if k < |f.data| then p == Failed(TooShort)
            else p.Chunked? && body[p.from..p.to] == f.data && p.next >= |body|
  {
    FindsLine(body, pos, f.line, inner);
    var eol := pos + |f.line| + 1;
    assert ReadChunk(parse, body, pos) == Classify(body, eol, Some(|f.data|));
    if k >= |f.data| {
      DataBeforeCut(body, eol + 1, f.data, k);
    }
  }

  lemma {:induction false} CutInData(
    parse: SizeParser, body: Bytes, pos: nat, f: Framed, inner: Bytes, k: nat, out: Bytes, more: Bytes)
    requires Announces(parse, f) && f.data != [] && pos + |EncodeChunk(f)| < USIZE && more == out + f.data
    requires k < |f.data| + 2 && inner == (f.data + CRLF)[..k] && At(body, pos, f.line + CRLF + inner)
    ensures Decode(parse, body, pos, out) == if k < |f.data| then TooShort else Body(more)
  {
    ReadsCut(parse, body, pos, f, inner, k);
  }

  lemma {:induction false} EncodeCons(fs: seq<Framed>, last: Bytes, trailer: Bytes)
    requires fs != []
    ensures Encode(fs, last, trailer) == EncodeChunk(fs[0]) + Encode(fs[1..], last, trailer)
  {
    Associates(EncodeChunk(fs[0]), EncodeAll(fs[1..]), last + CRLF + trailer);
  }

  lemma {:induction false} CutLast(
    parse: SizeParser, body: Bytes, pos: nat, last: Bytes, trailer: Bytes, tail: Bytes, i: nat, out: Bytes)
    requires Announces(parse, Framed(last, [])) && tail == last + CRLF + trailer
    requires 0 < i <= |tail| && At(body, pos, tail[..i])
    ensures Decode(parse, body, pos, out) == if i >= |last| + 2 then Body(out) else Truncated
  {
    if i < |last| + 2 {
      CutInLine(parse, body, pos, last, trailer, i, out);
    } else {
      CutBehind(last + CRLF, trailer, i);
      ReadsLast(parse, body, pos, last, trailer[..i - (|last| + 2)], out);
    }
  }

  lemma {:induction false} CutFirst(
    parse: SizeParser, body: Bytes, pos: nat, f: Framed, rest: Bytes, i: nat, out: Bytes, more: Bytes)
    requires Announces(parse, f) && f.data != [] && more == out + f.data
    requires 0 < i < |EncodeChunk(f)| && pos + |EncodeChunk(f)| < USIZE
    requires At(body, pos, (EncodeChunk(f) + rest)[..i])
    ensures Decode(parse, body, pos, out) ==
            if i < |f.line| + 2 then Truncated
            else if i < |EncodeChunk(f)| - 2 then TooShort
            else Body(more)
  {
    if i < |f.line| + 2 {
      Regroup(f, rest);
      CutInLine(parse, body, pos, f.line, f.data + (CRLF + rest), i, out);
    } else {
      var k := i - (|f.line| + 2);
      CutChunk(f, rest, i);
      CutInData(parse, body, pos, f, (f.data + CRLF)[..k], k, out, more);
    }
  }

  lemma {:induction false} CutSkips(fs: seq<Framed>, last: Bytes, i: nat, j: nat, out: Bytes, more: Bytes)
    requires fs != [] && i == |EncodeChunk(fs[0])| + j && more == out + fs[0].data
    ensures Cut(fs, last, i, out) == Cut(fs[1..], last, j, more)
  {
  }

  /** A cut behind the first chunk leaves that chunk whole. */
  lemma {:induction false} CutLater(body: Bytes, pos: nat, wire: Bytes, rest: Bytes, i: nat, j: nat, next: nat)
    requires i == |wire| + j && j <= |rest| && next == pos + |wire| && At(body, pos, (wire + rest)[..i])
    ensures At(body, pos, wire + rest[..j]) && At(body, next, rest[..j])
  {
    CutBehind(wire, rest, i);
    AtNext(body, pos, wire, rest[..j], next);
  }

  lemma {:induction false} CutDecodes(
    parse: SizeParser, body: Bytes, pos: nat, fs: seq<Framed>, last: Bytes, trailer: Bytes, whole: Bytes, i: nat,
    out: Bytes)
    requires AllAnnounce(parse, fs) && Announces(parse, Framed(last, []))
    requires whole == Encode(fs, last, trailer) && i <= |whole| && pos + |whole| < USIZE
    requires At(body, pos, whole[..i])
    ensures Decode(parse, body, pos, out) == Cut(fs, last, i, out)
    decreases |fs|
  {
    if i == 0 {
      assert pos == |body|;
    } else if fs == [] {
      assert whole == last + CRLF + trailer;
      CutLast(parse, body, pos, last, trailer, whole, i, out);
    } else {
      var wire, rest, more := EncodeChunk(fs[0]), Encode(fs[1..], last, trailer), out + fs[0].data;
      AnnounceTail(parse, fs);
      EncodeCons(fs, last, trailer);
      if i < |wire| {
        CutFirst(parse, body, pos, fs[0], rest, i, out, more);
      } else {
        var next, j := pos + |wire|, i - |wire|;
        CutLater(body, pos, wire, rest, i, j, next);
        DecodesOne(parse, body, pos, fs[0], rest[..j], next, out, more);
        CutDecodes(parse, body, next, fs[1..], last, trailer, rest, j, more);
        CutSkips(fs, last, i, j, out, more);
      }
    }
  }

  /** Where the first `k` chunks of an encoding end. */
  function EndOf(fs: seq<Framed>, k: nat): nat
    requires k <= |fs|
  {
    |EncodeAll(fs[..k])|
  }

  /** A cut that goes unnoticed: before the first byte, at the end of a chunk or up to two
      bytes before it, or behind the line feed of the zero chunk. */
  ghost predicate Unnoticed(fs: seq<Framed>, last: Bytes, i: nat) {
    || i == 0
    || (exists k :: 0 < k <= |fs| && EndOf(fs, k) - 2 <= i <= EndOf(fs, k))
    || i >= EndOf(fs, |fs|) + |last| + 2
  }

  lemma {:induction false} EndOfCons(fs: seq<Framed>, k: nat)
    requires 0 < k <= |fs|
    ensures EndOf(fs, k) == |EncodeChunk(fs[0])| + EndOf(fs[1..], k - 1)
  {
    assert fs[..k][1..] == fs[1..][..k - 1];
  }

  lemma {:induction false} CutAccepts(fs: seq<Framed>, last: Bytes, i: nat, out: Bytes)
    ensures Cut(fs, last, i, out).Body? <==> Unnoticed(fs, last, i)
    decreases |fs|
  {
    if i > 0 && fs != [] {
      var n := |EncodeChunk(fs[0])|;
      forall k | 0 < k <= |fs|
        ensures EndOf(fs, k) == n + EndOf(fs[1..], k - 1)
      {
        EndOfCons(fs, k);
      }
      assert EndOf(fs[1..], 0) == 0;
      if n - 2 <= i <= n {
        assert EndOf(fs, 1) == n;
      } else if i > n {
        CutAccepts(fs[1..], last, i - n, out + fs[0].data);
        UnnoticedTail(fs, last, i);
      }
    }
  }

  lemma {:induction false} UnnoticedTail(fs: seq<Framed>, last: Bytes, i: nat)
    requires fs != [] && i > |EncodeChunk(fs[0])|
    ensures Unnoticed(fs, last, i) <==> Unnoticed(fs[1..], last, i - |EncodeChunk(fs[0])|)
  {
    var n, later := |EncodeChunk(fs[0])|, fs[1..];
    EndOfCons(fs, |fs|);
    assert EndOf(later, 0) == 0;
    if k :| 0 < k <= |fs| && EndOf(fs, k) - 2 <= i <= EndOf(fs, k) {
      EndOfCons(fs, k);
      assert 0 < k - 1 <= |later| && EndOf(later, k - 1) - 2 <= i - n <= EndOf(later, k - 1);
    }
    if k :| 0 < k <= |later| && EndOf(later, k) - 2 <= i - n <= EndOf(later, k) {
      EndOfCons(fs, k + 1);
      assert 0 < k + 1 <= |fs| && EndOf(fs, k + 1) - 2 <= i <= EndOf(fs, k + 1);
    }
  }

  /** An encoding cut anywhere: the result, and exactly which cuts go unnoticed. */
  lemma {:induction false} TruncationExactly(
    parse: SizeParser, fs: seq<Framed>, last: Bytes, trailer: Bytes, i: nat)
    requires AllAnnounce(parse, fs) && Announces(parse, Framed(last, []))
    requires i <= |Encode(fs, last, trailer)| < USIZE
    ensures var r := Decode(parse, Encode(fs, last, trailer)[..i], 0, []);
            r == Cut(fs, last, i, []) && (r.Body? <==> Unnoticed(fs, last, i))
  {
    var whole := Encode(fs, last, trailer);
    AtStart(whole[..i]);
    CutDecodes(parse, whole[..i], 0, fs, last, trailer, whole, i, []);
    CutAccepts(fs, last, i, []);
  }
}

/** `decode_chunked` of `crates/justapi-core/src/testing.rs`: a size line is UTF-8 text
    with a hexadecimal size and an optional extension. */
module ChunkedDecoder {
  import opened Prelude
  import opened ChunkFraming

  const SEMICOLON: Byte := 59

  // ------------------------------------------------------------------
  // UTF-8
  // ------------------------------------------------------------------

  /** The character that starts `s`, and how many bytes it takes; zero if `s` does
      not start with a well-formed UTF-8 sequence. */
  function FirstChar(s: Bytes): (r: (nat, char))
    requires s != []
    ensures r.0 <= |s|
    ensures s[0] < 0x80 ==> r == (1, s[0] as char)
  {
    var b: int := s[0];
    var x: int := if |s| >= 2 then s[1] as int - 0x80 else -1;
    var y: int := if |s| >= 3 then s[2] as int - 0x80 else -1;
    var z: int := if |s| >= 4 then s[3] as int - 0x80 else -1;
    if b < 0x80 then (1, b as char)
    else if 0xC2 <= b < 0xE0 && 0 <= x < 64 then (2, ((b - 0xC0) * 64 + x) as char)
    else if 0xE0 <= b < 0xF0 && 0 <= x < 64 && 0 <= y < 64 && (b == 0xE0 ==> x >= 32) && (b == 0xED ==> x < 32)
    then (3, ((b - 0xE0) * 4096 + x * 64 + y) as char)
    else if 0xF0 <= b < 0xF5 && 0 <= x < 64 && 0 <= y < 64 && 0 <= z < 64 &&
            (b == 0xF0 ==> x >= 16) && (b == 0xF4 ==> x < 16)
    then (4, ((b - 0xF0) * 262144 + x * 4096 + y * 64 + z) as char)
    else (0, ' ')
  }

  /** `std::str::from_utf8`. */
  function Utf8(s: Bytes): Option<string>
    decreases |s|
  {
    if s == [] then Some("")
    else
      var (n, c) := FirstChar(s);
      if n == 0 then None
      else
        match Utf8(s[n..])
        case None => None
        case Some(rest) => Some([c] + rest)
  }

  // ------------------------------------------------------------------
  // The chunk-size line
  // ------------------------------------------------------------------

  function HexDigit(c: char): Option<nat> {
    if '0' <= c <= '9' then Some((c - '0') as nat)
    else if 'a' <= c <= 'f' then Some((c - 'a') as nat + 10)
    else if 'A' <= c <= 'F' then Some((c - 'A') as nat + 10)
    else None
  }

  predicate HexDigits(s: string) { forall i :: 0 <= i < |s| ==> HexDigit(s[i]).Some? }

  /** Positional value of a string of hexadecimal digits. */
  function HexValue(s: string): nat
    requires HexDigits(s)
  {
    if s == "" then 0 else 16 * HexValue(s[..|s| - 1]) + HexDigit(s[|s| - 1]).value
  }

  /** `usize::from_str_radix(_, 16)`: an optional plus sign, at least one digit, and
      a value that fits. */
  function ParseHex(s: string): Option<nat> {
    var digits := if s != "" && s[0] == '+' then s[1..] else s;
    if digits == "" || !HexDigits(digits) || HexValue(digits) >= USIZE then None
    else Some(HexValue(digits))
  }

  function UpToSemicolon(s: string): string {
    if s == "" || s[0] == ';' then "" else [s[0]] + UpToSemicolon(s[1..])
  }

  function StripCr(line: Bytes): Bytes {
    if line != [] && line[|line| - 1] == CR then line[..|line| - 1] else line
  }

  function ChunkSize(line: Bytes): Option<nat> {
    match Utf8(StripCr(line))
    case None => None
    case Some(text) => ParseHex(Trim(UpToSemicolon(text)))
  }

  // ------------------------------------------------------------------
  // The decoder
  // ------------------------------------------------------------------

  method FindLineEnd(body: Bytes, pos: nat) returns (eol: nat)
    requires pos <= |body|
    ensures eol == LineEnd(body, pos)
  {
    eol := pos;
    while eol < |body| && body[eol] != LF
      invariant pos <= eol <= |body| && LineEnd(body, eol) == LineEnd(body, pos)
    {
      eol := eol + 1;
    }
  }

  /** One round of the loop body. Every index it forms is in bounds. */
  method NextChunk(parse: SizeParser, body: Bytes, pos: nat) returns (r: Piece)
    requires pos < |body|
    ensures r == ReadChunk(parse, body, pos)
  {
    var lineEnd := FindLineEnd(body, pos);
    if lineEnd == |body| {
      return Failed(Truncated);
    }
    var size := parse(body[pos..lineEnd]);
    if size.None? {
      return Failed(BadSize);
    }
    if size.value == 0 {
      return Finished;
    }
    var dataStart := lineEnd + 1;
    var dataEnd := dataStart + size.value;
    if dataEnd >= USIZE {
      return Failed(Panicked);
    }
    if dataEnd > |body| {
      return Failed(TooShort);
    }
    r := Chunked(dataStart, dataEnd, dataEnd + if StartsCrLf(body[dataEnd..]) then 2 else 1);
  }

  method DecodeChunked(body: Bytes) returns (r: Decoded)
    ensures r == Decode(ChunkSize, body, 0, [])
  {
    var out: Bytes := [];
    var pos: nat := 0;
    while pos < |body|
      invariant Decode(ChunkSize, body, pos, out) == Decode(ChunkSize, body, 0, [])
      decreases |body| - pos
    {
      var piece := NextChunk(ChunkSize, body, pos);
      if piece.Failed? {
        return piece.error;
      }
      if piece.Finished? {
        break;
      }
      out := out + body[piece.from..piece.to];
      pos := piece.next;
    }
    r := Body(out);
  }

  // ------------------------------------------------------------------
  // Size lines
  // ------------------------------------------------------------------

  /** One chunk: its data, the hexadecimal digits of its size in any case and with
      any leading zeros, and an optional extension. */
  datatype Chunk = Chunk(data: Bytes, digits: string, ext: Bytes)

  /** An extension is empty, or starts with a semicolon, stays on its line and is UTF-8. */
  predicate Extension(ext: Bytes) {
    ext == [] || (ext[0] == SEMICOLON && LF !in ext && Utf8(ext).Some?)
  }

  predicate ChunkOk(c: Chunk) {
    c.digits != "" && HexDigits(c.digits) && HexValue(c.digits) == |c.data| < USIZE && Extension(c.ext)
  }

  predicate ChunksOk(chunks: seq<Chunk>) {
    forall i :: 0 <= i < |chunks| ==> ChunkOk(chunks[i]) && chunks[i].data != []
  }

  function Ascii(s: string): (r: Bytes)
    requires HexDigits(s)
    ensures |r| == |s| && forall i :: 0 <= i < |s| ==> r[i] == s[i] as int
  {
    seq(|s|, i requires 0 <= i < |s| => s[i] as Byte)
  }

  function Frame(c: Chunk): Framed
    requires ChunkOk(c)
  {
    Framed(Ascii(c.digits) + c.ext, c.data)
  }

  function Frames(chunks: seq<Chunk>): (r: seq<Framed>)
    requires ChunksOk(chunks)
    ensures |r| == |chunks| && forall i :: 0 <= i < |r| ==> r[i] == Frame(chunks[i])
  {
    seq(|chunks|, i requires 0 <= i < |chunks| => Frame(chunks[i]))
  }

  lemma {:induction false} Utf8Cons(s: Bytes, c: char, rest: string)
    requires s != [] && s[0] < 0x80 && c == s[0] as char && Utf8(s[1..]) == Some(rest)
    ensures Utf8(s) == Some([c] + rest)
  {
    assert FirstChar(s) == (1, c);
  }

  lemma {:induction false} AsciiTail(digits: string, ext: Bytes)
    requires HexDigits(digits) && digits != ""
    ensures HexDigits(digits[1..])
    ensures var s := Ascii(digits) + ext;
            s[0] < 0x80 && digits[0] == s[0] as char && s[1..] == Ascii(digits[1..]) + ext
  {
    assert HexDigit(digits[0]).Some?;
  }

  lemma {:induction false} Utf8AfterDigits(digits: string, ext: Bytes)
    requires HexDigits(digits) && Utf8(ext).Some?
    ensures Utf8(Ascii(digits) + ext) == Some(digits + Utf8(ext).value)
    decreases |digits|
  {
    var text := Utf8(ext).value;
    if digits == "" {
      assert Ascii(digits) + ext == ext;
      assert digits + text == text;
    } else {
      AsciiTail(digits, ext);
      Utf8AfterDigits(digits[1..], ext);
      Utf8Cons(Ascii(digits) + ext, digits[0], digits[1..] + text);
      assert [digits[0]] + (digits[1..] + text) == digits + text;
    }
  }

  lemma {:induction false} DigitsBeforeExtension(digits: string, text: string)
    requires HexDigits(digits) && (text == "" || text[0] == ';')
    ensures UpToSemicolon(digits + text) == digits
    decreases |digits|
  {
    if digits == "" {
      assert digits + text == text;
    } else {
      assert HexDigit(digits[0]).Some?;
      assert (digits + text)[1..] == digits[1..] + text;
      DigitsBeforeExtension(digits[1..], text);
    }
  }

  lemma {:induction false} ExtensionText(ext: Bytes)
    requires Extension(ext)
    ensures Utf8(ext).Some? && (Utf8(ext).value == "" || Utf8(ext).value[0] == ';')
  {
    if ext != [] {
      assert FirstChar(ext) == (1, ';');
    }
  }

  lemma {:induction false} HexDigitsTrim(digits: string)
    requires digits != "" && HexDigits(digits)
    ensures Trim(digits) == digits && digits[0] != '+'
  {
    assert HexDigit(digits[0]).Some? && HexDigit(digits[|digits| - 1]).Some?;
  }

  /** A well-formed size line announces the size of its data. */
  lemma {:induction false} SizeOfLine(digits: string, ext: Bytes)
    requires digits != "" && HexDigits(digits) && HexValue(digits) < USIZE && Extension(ext)
    ensures LF !in Ascii(digits) + ext
    ensures ChunkSize(Ascii(digits) + ext + [CR]) == Some(HexValue(digits))
  {
    var line := Ascii(digits) + ext;
    assert StripCr(line + [CR]) == line;
    ExtensionText(ext);
    Utf8AfterDigits(digits, ext);
    DigitsBeforeExtension(digits, Utf8(ext).value);
    HexDigitsTrim(digits);
    forall i | 0 <= i < |digits|
      ensures Ascii(digits)[i] != LF
    {
      assert HexDigit(digits[i]).Some?;
    }
  }

  lemma {:induction false} LinesAnnounce(chunks: seq<Chunk>, last: Chunk)
    requires ChunksOk(chunks) && ChunkOk(last) && last.data == []
    ensures AllAnnounce(ChunkSize, Frames(chunks)) && Announces(ChunkSize, Framed(Frame(last).line, []))
  {
    forall i | 0 <= i < |chunks|
      ensures Announces(ChunkSize, Frames(chunks)[i])
    {
      SizeOfLine(chunks[i].digits, chunks[i].ext);
    }
    SizeOfLine(last.digits, last.ext);
  }

  /** For every list of non-empty chunks, however their sizes are written, decoding
      their encoding returns their concatenation. */
  lemma {:induction false} RoundTrip(chunks: seq<Chunk>, last: Chunk, trailer: Bytes)
    requires ChunksOk(chunks) && ChunkOk(last) && last.data == []
    requires |Encode(Frames(chunks), Frame(last).line, trailer)| < USIZE
    ensures Decode(ChunkSize, Encode(Frames(chunks), Frame(last).line, trailer), 0, []) ==
            Body(Payload(Frames(chunks)))
  {
    LinesAnnounce(chunks, last);
    FramingRoundTrip(ChunkSize, Frames(chunks), Frame(last).line, trailer);
  }

  /** A chunked body cut at `i` is taken for a complete one exactly when the cut falls on
      the end of a chunk, within its closing line end, before everything or behind the
      zero chunk's line. */
  lemma {:induction false} TruncatedBody(chunks: seq<Chunk>, last: Chunk, trailer: Bytes, i: nat)
    requires ChunksOk(chunks) && ChunkOk(last) && last.data == []
    requires i <= |Encode(Frames(chunks), Frame(last).line, trailer)| < USIZE
    ensures Decode(ChunkSize, Encode(Frames(chunks), Frame(last).line, trailer)[..i], 0, []).Body? <==>
            Unnoticed(Frames(chunks), Frame(last).line, i)
  {
    LinesAnnounce(chunks, last);
    TruncationExactly(ChunkSize, Frames(chunks), Frame(last).line, trailer, i);
  }

  /** The result does not depend on how the payload was cut into chunks. */
  lemma {:induction false} SplitIndependent(a: seq<Chunk>, b: seq<Chunk>, last: Chunk, trailer: Bytes)
    requires ChunksOk(a) && ChunksOk(b) && ChunkOk(last) && last.data == []
    requires |Encode(Frames(a), Frame(last).line, trailer)| < USIZE
    requires |Encode(Frames(b), Frame(last).line, trailer)| < USIZE
    requires Payload(Frames(a)) == Payload(Frames(b))
    ensures Decode(ChunkSize, Encode(Frames(a), Frame(last).line, trailer), 0, []) ==
            Decode(ChunkSize, Encode(Frames(b), Frame(last).line, trailer), 0, [])
  {
    RoundTrip(a, last, trailer);
    RoundTrip(b, last, trailer);
  }

  // ------------------------------------------------------------------
  // Every size can be written
  // ------------------------------------------------------------------

  function HexChar(d: nat): char
    requires d < 16
  {
    if d < 10 then '0' + d as char else 'a' + (d - 10) as char
  }

  /** The shortest lower-case hexadecimal form. */
  function Hex(n: nat): string {
    if n < 16 then [HexChar(n)] else Hex(n / 16) + [HexChar(n % 16)]
  }

  lemma {:induction false} HexRoundTrip(n: nat)
    ensures Hex(n) != "" && HexDigits(Hex(n)) && HexValue(Hex(n)) == n
  {
    assert forall d: nat :: d < 16 ==> HexDigit(HexChar(d)) == Some(d);
    var h := Hex(n);
    if n < 16 {
      assert h[..0] == "";
    } else {
      HexRoundTrip(n / 16);
      assert h[..|h| - 1] == Hex(n / 16);
    }
  }

  /** What reads as a size: digits, perhaps after a plus sign, that fit the word. */
  lemma {:induction false} ParsesExactly(s: string, n: nat)
    ensures ParseHex(s) == Some(n) <==>
            exists digits :: (s == digits || s == "+" + digits) && digits != "" && digits[0] != '+' &&
                             HexDigits(digits) && HexValue(digits) == n < USIZE
  {
    var digits := if s != "" && s[0] == '+' then s[1..] else s;
    if ParseHex(s) == Some(n) {
      assert s == digits || s == "+" + digits;
      assert HexDigit(digits[0]).Some?;
    }
    if d :| (s == d || s == "+" + d) && d != "" && d[0] != '+' && HexDigits(d) && HexValue(d) == n < USIZE {
      assert s == "+" + d ==> s[1..] == d;
      assert d == digits;
    }
  }

  /** A size line may end in a bare line feed. */
  lemma {:induction false} SizeOfBareLine(digits: string, ext: Bytes)
    requires digits != "" && HexDigits(digits) && HexValue(digits) < USIZE && Extension(ext)
    requires ext == [] || ext[|ext| - 1] != CR
    ensures ChunkSize(Ascii(digits) + ext) == Some(HexValue(digits))
  {
    var line := Ascii(digits) + ext;
    assert HexDigit(digits[|digits| - 1]).Some?;
    assert StripCr(line) == line;
    ExtensionText(ext);
    Utf8AfterDigits(digits, ext);
    DigitsBeforeExtension(digits, Utf8(ext).value);
    HexDigitsTrim(digits);
  }

  // ------------------------------------------------------------------
  // UTF-8, both ways
  // ------------------------------------------------------------------

  /** The UTF-8 form of a character (section 3 of RFC 3629): six bits to a byte behind the
      first. */
  function EncodeChar(c: char): (r: Bytes)
    ensures 1 <= |r| <= 4
  {
    var n := c as int;
    var q1 := n / 64;
    var q2 := q1 / 64;
    if n < 0x80 then [n]
    else if n < 0x800 then [0xC0 + q1, 0x80 + n % 64]
    else if n < 0x10000 then [0xE0 + q2, 0x80 + q1 % 64, 0x80 + n % 64]
    else [0xF0 + q2 / 64, 0x80 + q2 % 64, 0x80 + q1 % 64, 0x80 + n % 64]
  }

  function EncodeText(s: string): Bytes {
    if s == "" then [] else EncodeChar(s[0]) + EncodeText(s[1..])
  }

  lemma {:induction false} SixBits(q: nat, r: nat)
    requires r < 64
    ensures (64 * q + r) / 64 == q && (64 * q + r) % 64 == r
  {
  }

  lemma {:induction false} ReadsTwo(c: char, s: Bytes)
    requires 0x80 <= c as int < 0x800 && |s| >= 2
    requires s[0] == 0xC0 + c as int / 64 && s[1] == 0x80 + c as int % 64
    ensures FirstChar(s) == (2, c)
  {
  }

  lemma {:induction false} ReadsThree(c: char, s: Bytes)
    requires 0x800 <= c as int < 0x10000 && |s| >= 3
    requires s[0] == 0xE0 + c as int / 64 / 64 && s[1] == 0x80 + c as int / 64 % 64 && s[2] == 0x80 + c as int % 64
    ensures FirstChar(s) == (3, c)
  {
    var n := c as int;
    assert n == 4096 * (n / 64 / 64) + 64 * (n / 64 % 64) + n % 64;
  }

  lemma {:induction false} ReadsFour(c: char, s: Bytes)
    requires 0x10000 <= c as int && |s| >= 4
    requires s[0] == 0xF0 + c as int / 64 / 64 / 64 && s[1] == 0x80 + c as int / 64 / 64 % 64
    requires s[2] == 0x80 + c as int / 64 % 64 && s[3] == 0x80 + c as int % 64
    ensures FirstChar(s) == (4, c)
  {
    var n := c as int;
    assert n == 262144 * (n / 64 / 64 / 64) + 4096 * (n / 64 / 64 % 64) + 64 * (n / 64 % 64) + n % 64;
  }

  lemma {:induction false} ReadsChar(c: char, rest: Bytes)
    ensures FirstChar(EncodeChar(c) + rest) == (|EncodeChar(c)|, c)
  {
    var n, s := c as int, EncodeChar(c) + rest;
    if 0x80 <= n < 0x800 {
      ReadsTwo(c, s);
    } else if 0x800 <= n < 0x10000 {
      ReadsThree(c, s);
    } else if 0x10000 <= n {
      ReadsFour(c, s);
    }
  }

  lemma {:induction false} WritesTwo(c: char, b: int, x: int)
    requires 0xC2 <= b < 0xE0 && 0 <= x < 64 && c as int == (b - 0xC0) * 64 + x
    ensures EncodeChar(c) == [b, 0x80 + x]
  {
    SixBits(b - 0xC0, x);
  }

  lemma {:induction false} WritesThree(c: char, b: int, x: int, y: int)
    requires 0xE0 <= b < 0xF0 && 0 <= x < 64 && 0 <= y < 64 && (b == 0xE0 ==> x >= 32)
    requires c as int == (b - 0xE0) * 4096 + x * 64 + y
    ensures EncodeChar(c) == [b, 0x80 + x, 0x80 + y]
  {
    var n := c as int;
    assert n == 64 * (64 * (b - 0xE0) + x) + y;
    SixBits(64 * (b - 0xE0) + x, y);
    SixBits(b - 0xE0, x);
  }

  lemma {:induction false} WritesFour(c: char, b: int, x: int, y: int, z: int)
    requires 0xF0 <= b < 0xF5 && 0 <= x < 64 && 0 <= y < 64 && 0 <= z < 64 && (b == 0xF0 ==> x >= 16)
    requires c as int == (b - 0xF0) * 262144 + x * 4096 + y * 64 + z
    ensures EncodeChar(c) == [b, 0x80 + x, 0x80 + y, 0x80 + z]
  {
    var n := c as int;
    var q2 := 64 * (b - 0xF0) + x;
    assert n == 64 * (64 * q2 + y) + z;
    SixBits(64 * q2 + y, z);
    SixBits(q2, y);
    SixBits(b - 0xF0, x);
  }

  lemma {:induction false} WritesChar(s: Bytes)
    requires s != [] && FirstChar(s).0 > 0
    ensures s[..FirstChar(s).0] == EncodeChar(FirstChar(s).1)
  {
    var (n, c) := FirstChar(s);
    var b: int := s[0];
    if n == 2 {
      WritesTwo(c, b, s[1] as int - 0x80);
    } else if n == 3 {
      WritesThree(c, b, s[1] as int - 0x80, s[2] as int - 0x80);
    } else if n == 4 {
      WritesFour(c, b, s[1] as int - 0x80, s[2] as int - 0x80, s[3] as int - 0x80);
    }
  }

  /** A line is taken for text exactly if it is the UTF-8 form of that text. */
  lemma {:induction false} Utf8Exactly(s: Bytes, text: string)
    ensures Utf8(s) == Some(text) <==> s == EncodeText(text)
    decreases |s|, |text|
  {
    if s == EncodeText(text) && text != "" {
      var rest := EncodeText(text[1..]);
      ReadsChar(text[0], rest);
      assert s[|EncodeChar(text[0])|..] == rest;
      Utf8Exactly(rest, text[1..]);
      assert [text[0]] + text[1..] == text;
    }
    if Utf8(s) == Some(text) && s != [] {
      var (n, c) := FirstChar(s);
      WritesChar(s);
      Utf8Exactly(s[n..], text[1..]);
      assert s == s[..n] + s[n..];
    }
  }

  lemma {:induction false} BeforeSemicolon(core: string, ext: string)
    requires ';' !in core && (ext == "" || ext[0] == ';')
    ensures UpToSemicolon(core + ext) == core
  {
    if core == "" {
      assert core + ext == ext;
    } else {
      assert (core + ext)[0] == core[0] && (core + ext)[1..] == core[1..] + ext;
      BeforeSemicolon(core[1..], ext);
    }
  }

  /** White space around the digits is ignored. */
  lemma {:induction false} SpacedSize(front: string, digits: string, back: string, ext: string)
    requires Blank(front) && Blank(back) && (ext == "" || ext[0] == ';')
    requires digits != "" && HexDigits(digits) && HexValue(digits) < USIZE
    ensures ChunkSize(EncodeText(front + digits + back + ext) + [CR]) == Some(HexValue(digits))
  {
    var core := front + digits + back;
    var line := EncodeText(core + ext);
    assert StripCr(line + [CR]) == line;
    Utf8Exactly(line, core + ext);
    assert forall i :: 0 <= i < |digits| ==> HexDigit(digits[i]).Some?;
    assert ';' !in front && ';' !in digits && ';' !in back;
    BeforeSemicolon(core, ext);
    TrimsTo(front, digits, back);
    HexDigitsTrim(digits);
  }

  function LowerHex(c: char): char { if 'A' <= c <= 'F' then c - 'A' + 'a' else c }

  function LowerCase(s: string): (r: string)
    ensures |r| == |s|
  {
    seq(|s|, i requires 0 <= i < |s| => LowerHex(s[i]))
  }

  /** The case of the digits does not matter. */
  lemma {:induction false} CaseIrrelevant(s: string)
    ensures HexDigits(LowerCase(s)) <==> HexDigits(s)
    ensures HexDigits(s) ==> HexValue(LowerCase(s)) == HexValue(s)
  {
    assert forall c: char :: HexDigit(LowerHex(c)) == HexDigit(c);
    assert forall i :: 0 <= i < |s| ==> LowerCase(s)[i] == LowerHex(s[i]);
    if s != "" {
      var n := |s| - 1;
      CaseIrrelevant(s[..n]);
      assert LowerCase(s)[..n] == LowerCase(s[..n]);
    }
  }

  /** Leading zeros do not matter either. */
  lemma {:induction false} LeadingZero(s: string)
    requires HexDigits(s)
    ensures HexDigits("0" + s) && HexValue("0" + s) == HexValue(s)
  {
    var t := "0" + s;
    if s == "" {
      assert t[..0] == "";
    } else {
      LeadingZero(s[..|s| - 1]);
      assert t[..|t| - 1] == "0" + s[..|s| - 1];
    }
  }

  function Pow16(n: nat): nat { if n == 0 then 1 else 16 * Pow16(n - 1) }

  lemma {:induction false} HexLength(n: nat, k: nat)
    requires k > 0 && n < Pow16(k)
    requires k == 1 || Pow16(k - 1) <= n
    ensures |Hex(n)| == k
    decreases k
  {
    if k == 1 {
      assert Pow16(1) == 16 * Pow16(0);
    } else {
      HexLength(n / 16, k - 1);
    }
  }

  /** Hence any non-empty data can be sent as one canonical chunk. */
  lemma {:induction false} CanonicalChunk(data: Bytes)
    requires |data| < USIZE
    ensures ChunkOk(Chunk(data, Hex(|data|), []))
  {
    HexRoundTrip(|data|);
  }

  /** Eighteen bytes announcing a chunk of 2^64 - 1 make the decoder panic. */
  lemma {:induction false} HugeSizePanics(digits: string)
    requires digits == Hex(USIZE - 1)
    ensures HexDigits(digits) && |digits| == 16 && Decode(ChunkSize, Ascii(digits) + CRLF, 0, []) == Panicked
  {
    HexRoundTrip(USIZE - 1);
    assert Pow16(4) == 0x1_0000 && Pow16(8) == 0x1_0000_0000 && Pow16(12) == 0x1_0000_0000_0000;
    assert Pow16(15) == 0x1000_0000_0000_0000 && Pow16(16) == USIZE;
    HexLength(USIZE - 1, 16);
    SizeOfLine(digits, []);
    assert Ascii(digits) + [] == Ascii(digits);
    assert Encode([], Ascii(digits), []) == Ascii(digits) + CRLF;
    OverflowPanics(ChunkSize, [], Ascii(digits), USIZE - 1, []);
  }
}
