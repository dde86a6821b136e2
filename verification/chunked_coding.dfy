/**
 The chunked transfer coding (section 7.1 of RFC 9112) beside the reader of
 `anthrouter/interception.py`: the reader accepts exactly the encodings below, and inverts
 them.
 */
module ChunkedCoding {
  import opened Common
  import opened RequestBody

  // ---- Encoding --------------------------------------------------------------

  /** `line` announces the size, with any extensions; `end` is the line break behind the data. */
  datatype Chunk = Chunk(line: seq<Byte>, data: seq<Byte>, end: seq<Byte>)

  datatype Message = Message(chunks: seq<Chunk>, last: seq<Byte>, trailers: seq<seq<Byte>>, blank: seq<Byte>)

  predicate ChunkOk(c: Chunk) {
    IsFramingLine(c.line) && ChunkSize(c.line) == Some(|c.data|) && c.data != [] && c.end in BLANK_LINES
  }

  predicate ChunksOk(chunks: seq<Chunk>) {
    chunks == [] || (ChunkOk(chunks[0]) && ChunksOk(chunks[1..]))
  }

  predicate TrailersOk(trailers: seq<seq<Byte>>) {
    trailers == [] || (IsFramingLine(trailers[0]) && trailers[0] !in BLANK_LINES && TrailersOk(trailers[1..]))
  }

  predicate MessageOk(m: Message) {
    && ChunksOk(m.chunks) && TrailersOk(m.trailers) && m.blank in BLANK_LINES
    && IsFramingLine(m.last) && ChunkSize(m.last) == Some(0)
  }

  function EncodeTrailers(trailers: seq<seq<Byte>>, blank: seq<Byte>): seq<Byte> {
    if trailers == [] then blank else trailers[0] + EncodeTrailers(trailers[1..], blank)
  }

  function EncodeChunks(chunks: seq<Chunk>, tail: seq<Byte>): seq<Byte> {
    if chunks == [] then tail
    else chunks[0].line + (chunks[0].data + (chunks[0].end + EncodeChunks(chunks[1..], tail)))
  }

  function Encode(m: Message): seq<Byte> {
    EncodeChunks(m.chunks, m.last + EncodeTrailers(m.trailers, m.blank))
  }

  function Body(chunks: seq<Chunk>): seq<Byte> {
    if chunks == [] then [] else chunks[0].data + Body(chunks[1..])
  }

  // ---- Lines -----------------------------------------------------------------

  lemma {:induction false} LineEndFinds(line: seq<Byte>, rest: seq<Byte>, limit: nat)
    requires EndsLine(line) && |line| <= limit && LF !in line[..|line| - 1]
    ensures LineEnd(line + rest, limit) == |line|
  {
    if |line| > 1 {
      assert line[0] == line[..|line| - 1][0];
      assert line[1..][..|line[1..]| - 1] == line[..|line| - 1][1..];
      assert (line + rest)[1..] == line[1..] + rest;
      LineEndFinds(line[1..], rest, limit - 1);
    }
  }

  lemma {:induction false} LineEndIsFirst(s: seq<Byte>, limit: nat)
    requires EndsLine(s[..LineEnd(s, limit)])
    ensures LF !in s[..LineEnd(s, limit) - 1]
  {
    if s[0] != LF {
      var n := LineEnd(s[1..], limit - 1);
      assert s[..1 + n][1..] == s[1..][..n];
      if n > 0 {
        assert s[..1 + n][n] == s[1..][..n][n - 1];
        LineEndIsFirst(s[1..], limit - 1);
        assert s[..n] == [s[0]] + s[1..][..n - 1];
      }
    }
  }

  lemma FramingLineReads(line: seq<Byte>, rest: seq<Byte>)
    requires IsFramingLine(line)
    ensures FramingLine(line + rest) == Some((line, rest))
  {
    LineEndFinds(line, rest, MAX_LINE);
    assert (line + rest)[..|line|] == line && (line + rest)[|line|..] == rest;
  }

  lemma FramingLineSplits(s: seq<Byte>)
    requires FramingLine(s).Some?
    ensures var (line, rest) := FramingLine(s).value; IsFramingLine(line) && s == line + rest
  {
    LineEndIsFirst(s, MAX_LINE);
    var n := LineEnd(s, MAX_LINE);
    assert s[..n][..n - 1] == s[..n - 1];
  }

  lemma BlankLinesFrame(end: seq<Byte>)
    requires end in BLANK_LINES
    ensures IsFramingLine(end)
  {
    assert end == [CR, LF] || end == [LF];
  }

  // ---- Decoding inverts encoding ---------------------------------------------

  lemma {:induction false} TrailersSkipped(trailers: seq<seq<Byte>>, blank: seq<Byte>, rest: seq<Byte>)
    requires TrailersOk(trailers) && blank in BLANK_LINES
    ensures SkipTrailers(EncodeTrailers(trailers, blank) + rest) == Some(rest)
  {
    BlankLinesFrame(blank);
    if trailers == [] {
      FramingLineReads(blank, rest);
    } else {
      var more := EncodeTrailers(trailers[1..], blank);
      ConcatAssoc(trailers[0], more, rest);
      FramingLineReads(trailers[0], more + rest);
      TrailersSkipped(trailers[1..], blank, rest);
    }
  }

  lemma LastChunkReads(m: Message, total: nat, rest: seq<Byte>)
    requires MessageOk(m) && total <= MAX_BODY
    ensures NextChunk(m.last + EncodeTrailers(m.trailers, m.blank) + rest, total) == Done(rest)
  {
    var trailers := EncodeTrailers(m.trailers, m.blank);
    ConcatAssoc(m.last, trailers, rest);
    FramingLineReads(m.last, trailers + rest);
    TrailersSkipped(m.trailers, m.blank, rest);
  }

  lemma ChunkDataReads(data: seq<Byte>, end: seq<Byte>, rest: seq<Byte>)
    requires end in BLANK_LINES
    ensures ChunkData(data + (end + rest), |data|) == Data(data, rest)
  {
    var s := data + (end + rest);
    assert s[|data|..] == end + rest && s[..|data|] == data;
    BlankLinesFrame(end);
    FramingLineReads(end, rest);
  }

  lemma ChunkReads(c: Chunk, total: nat, rest: seq<Byte>)
    requires ChunkOk(c)
    ensures NextChunk(c.line + (c.data + (c.end + rest)), total)
         == if total + |c.data| > MAX_BODY then Bad(TooLarge) else Data(c.data, rest)
  {
    FramingLineReads(c.line, c.data + (c.end + rest));
    ChunkDataReads(c.data, c.end, rest);
  }

  lemma EncodeChunksBefore(chunks: seq<Chunk>, tail: seq<Byte>, rest: seq<Byte>)
    requires chunks != []
    ensures EncodeChunks(chunks, tail) + rest
         == chunks[0].line + (chunks[0].data + (chunks[0].end + (EncodeChunks(chunks[1..], tail) + rest)))
  {
    var more := EncodeChunks(chunks[1..], tail);
    ConcatAssoc(chunks[0].line, chunks[0].data + (chunks[0].end + more), rest);
    ConcatAssoc(chunks[0].data, chunks[0].end + more, rest);
    ConcatAssoc(chunks[0].end, more, rest);
  }

  /**
   Any split of a body into chunks, with any extensions and trailers whose lines fit the bound,
   decodes to the body and is consumed through its final blank line; a body over the limit is
   refused.
   */
  lemma {:induction false} DecodingInvertsEncoding(m: Message, held: seq<Byte>, rest: seq<Byte>)
    requires MessageOk(m) && |held| <= MAX_BODY
    ensures DecodeChunks(Encode(m) + rest, held)
         == if |held| + |Body(m.chunks)| <= MAX_BODY then Framed(held + Body(m.chunks), rest) else Malformed(TooLarge)
    decreases |m.chunks|
  {
    if m.chunks == [] {
      LastChunkReads(m, |held|, rest);
      assert held + [] == held;
    } else {
      var c, fewer := m.chunks[0], m.(chunks := m.chunks[1..]);
      EncodeChunksBefore(m.chunks, m.last + EncodeTrailers(m.trailers, m.blank), rest);
      ChunkReads(c, |held|, Encode(fewer) + rest);
      if |held| + |c.data| <= MAX_BODY {
        DecodingInvertsEncoding(fewer, held + c.data, rest);
        ConcatAssoc(held, c.data, Body(fewer.chunks));
      }
    }
  }

  // ---- Nothing else is accepted ----------------------------------------------

  lemma {:induction false} TrailersRead(s: seq<Byte>) returns (trailers: seq<seq<Byte>>, blank: seq<Byte>)
    requires SkipTrailers(s).Some?
    ensures TrailersOk(trailers) && blank in BLANK_LINES
    ensures s == EncodeTrailers(trailers, blank) + SkipTrailers(s).value
    decreases |s|
  {
    FramingLineSplits(s);
    var (line, rest) := FramingLine(s).value;
    if line in BLANK_LINES {
      trailers, blank := [], line;
    } else {
      var more;
      more, blank := TrailersRead(rest);
      trailers := [line] + more;
      assert trailers[1..] == more;
      ConcatAssoc(line, EncodeTrailers(more, blank), SkipTrailers(rest).value);
    }
  }

  lemma ChunkDataSplits(s: seq<Byte>, size: nat) returns (end: seq<Byte>)
    requires ChunkData(s, size).Data?
    ensures end in BLANK_LINES && s == ChunkData(s, size).chunk + (end + ChunkData(s, size).rest)
  {
    FramingLineSplits(s[size..]);
    end := FramingLine(s[size..]).value.0;
  }

  lemma ChunkSplits(s: seq<Byte>, total: nat) returns (c: Chunk)
    requires NextChunk(s, total).Data?
    ensures ChunkOk(c) && c.data == NextChunk(s, total).chunk
    ensures s == c.line + (c.data + (c.end + NextChunk(s, total).rest))
  {
    FramingLineSplits(s);
    var (line, rest) := FramingLine(s).value;
    var size := ChunkSize(line).value;
    var end := ChunkDataSplits(rest, size);
    c := Chunk(line, rest[..size], end);
  }

  lemma LastChunkSplits(s: seq<Byte>, total: nat) returns (m: Message)
    requires NextChunk(s, total).Done?
    ensures MessageOk(m) && m.chunks == [] && s == Encode(m) + NextChunk(s, total).rest
  {
    FramingLineSplits(s);
    var (line, rest) := FramingLine(s).value;
    var trailers, blank := TrailersRead(rest);
    m := Message([], line, trailers, blank);
    ConcatAssoc(line, EncodeTrailers(trailers, blank), NextChunk(s, total).rest);
  }

  /** What was accepted was an encoding of what was returned. */
  lemma {:induction false} AcceptedIsEncoded(s: seq<Byte>, held: seq<Byte>) returns (m: Message)
    requires DecodeChunks(s, held).Framed? && |held| <= MAX_BODY
    ensures MessageOk(m) && s == Encode(m) + DecodeChunks(s, held).rest
    ensures DecodeChunks(s, held).body == held + Body(m.chunks) && |DecodeChunks(s, held).body| <= MAX_BODY
    decreases |s|
  {
    var step := NextChunk(s, |held|);
    if step.Done? {
      m := LastChunkSplits(s, |held|);
      assert held + [] == held;
    } else {
      var c := ChunkSplits(s, |held|);
      var fewer := AcceptedIsEncoded(step.rest, held + step.chunk);
      m := fewer.(chunks := [c] + fewer.chunks);
      assert m.chunks[1..] == fewer.chunks;
      EncodeChunksBefore(m.chunks, m.last + EncodeTrailers(m.trailers, m.blank), DecodeChunks(s, held).rest);
      ConcatAssoc(held, c.data, Body(fewer.chunks));
    }
  }

  /** The language of the reader: a body is yielded exactly by what starts with an encoding of it within the limit. */
  lemma ReaderAcceptsExactlyTheCoding(s: seq<Byte>, body: seq<Byte>, rest: seq<Byte>)
    ensures DecodeChunks(s, []) == Framed(body, rest)
       <==> exists m :: MessageOk(m) && s == Encode(m) + rest && Body(m.chunks) == body && |body| <= MAX_BODY
  {
    if DecodeChunks(s, []) == Framed(body, rest) {
      var m := AcceptedIsEncoded(s, []);
      assert [] + Body(m.chunks) == Body(m.chunks);
    }
    forall m | MessageOk(m) && s == Encode(m) + rest && Body(m.chunks) == body && |body| <= MAX_BODY
      ensures DecodeChunks(s, []) == Framed(body, rest)
    {
      DecodingInvertsEncoding(m, [], rest);
      assert [] + Body(m.chunks) == Body(m.chunks);
    }
  }

  // ---- Every split can be announced ------------------------------------------

  function HexDigit(d: nat): Byte
    requires d < 16
  {
    if d < 10 then (48 + d) as Byte else (87 + d) as Byte
  }

  function HexText(n: nat): (r: seq<Byte>)
    ensures r != []
  {
    (if n < 16 then [] else HexText(n / 16)) + [HexDigit(n % 16)]
  }

  /** The size in hexadecimal, an extension, and the line break. */
  function SizeLine(n: nat, extension: seq<Byte>): seq<Byte> {
    HexText(n) + (extension + [CR, LF])
  }

  predicate IsExtension(extension: seq<Byte>) {
    extension == [] || (extension[0] == SEMICOLON && LF !in extension)
  }

  predicate AllHex(s: seq<Byte>) {
    s == [] || (HexValue(s[0]).Some? && AllHex(s[1..]))
  }

  lemma {:induction false} HexNumberAppend(a: seq<Byte>, b: seq<Byte>, n: nat)
    requires AllHex(a)
    ensures HexNumber(a, n).Some? && HexNumber(a + b, n) == HexNumber(b, HexNumber(a, n).value)
  {
    if a == [] {
      assert a + b == b;
    } else {
      assert (a + b)[1..] == a[1..] + b;
      HexNumberAppend(a[1..], b, 16 * n + HexValue(a[0]).value);
    }
  }

  lemma {:induction false} AllHexAppend(a: seq<Byte>, d: Byte)
    requires AllHex(a) && HexValue(d).Some?
    ensures AllHex(a + [d])
  {
    if a != [] {
      AllHexAppend(a[1..], d);
      assert (a + [d])[1..] == a[1..] + [d];
    }
  }

  lemma {:induction false} HexTextReads(n: nat)
    ensures AllHex(HexText(n)) && HexNumber(HexText(n), 0) == Some(n)
  {
    var d := HexDigit(n % 16);
    assert HexValue(d) == Some(n % 16);
    if n < 16 {
      assert HexText(n) == [d];
      assert HexNumber([d], 0) == HexNumber([d][1..], n) && [d][1..] == [];
    } else {
      var init := HexText(n / 16);
      HexTextReads(n / 16);
      AllHexAppend(init, d);
      HexNumberAppend(init, [d], 0);
      assert HexNumber([d], n / 16) == HexNumber([d][1..], 16 * (n / 16) + n % 16) && [d][1..] == [];
    }
  }

  lemma {:induction false} HexIsPlain(s: seq<Byte>, b: Byte)
    requires AllHex(s) && b in s
    ensures !IsAsciiSpace(b) && b != SEMICOLON && b != LF
  {
    if b != s[0] {
      HexIsPlain(s[1..], b);
    }
  }

  lemma {:induction false} BeforeSemicolonKeeps(a: seq<Byte>, b: seq<Byte>)
    requires SEMICOLON !in a
    ensures BeforeSemicolon(a + b) == a + BeforeSemicolon(b)
  {
    if a == [] {
      assert a + b == b;
    } else {
      assert (a + b)[1..] == a[1..] + b;
      BeforeSemicolonKeeps(a[1..], b);
      assert [a[0]] + (a[1..] + BeforeSemicolon(b)) == a + BeforeSemicolon(b);
    }
  }

  lemma TrimmedSize(digits: seq<Byte>, tail: seq<Byte>)
    requires digits != [] && AllHex(digits) && (tail == [] || tail == [CR, LF])
    ensures TrimRight(TrimLeft(digits + tail)) == digits
  {
    HexIsPlain(digits, digits[0]);
    HexIsPlain(digits, digits[|digits| - 1]);
    var s := digits + tail;
    if tail == [CR, LF] {
      assert TrimLeft(s) == s && TrimRight(digits) == digits;
      var once := digits + [CR];
      assert s[..|s| - 1] == once && once[..|once| - 1] == digits;
      assert TrimRight(s) == TrimRight(once) == TrimRight(digits);
    } else {
      assert s == digits;
    }
  }

  lemma SizeLineAnnounces(n: nat, extension: seq<Byte>)
    requires IsExtension(extension)
    ensures ChunkSize(SizeLine(n, extension)) == Some(n)
  {
    HexTextReads(n);
    var digits := HexText(n);
    if SEMICOLON in digits {
      HexIsPlain(digits, SEMICOLON);
    }
    BeforeSemicolonKeeps(digits, extension + [CR, LF]);
    if extension == [] {
      assert extension + [CR, LF] == [CR, LF];
      BeforeSemicolonKeeps([CR, LF], []);
      assert [CR, LF] + [] == [CR, LF];
      TrimmedSize(digits, [CR, LF]);
    } else {
      TrimmedSize(digits, []);
    }
  }

  lemma SizeLineFrames(n: nat, extension: seq<Byte>)
    requires IsExtension(extension) && |SizeLine(n, extension)| <= MAX_LINE
    ensures IsFramingLine(SizeLine(n, extension))
  {
    HexTextReads(n);
    var digits, line := HexText(n), SizeLine(n, extension);
    if LF in digits {
      HexIsPlain(digits, LF);
    }
    assert line[..|line| - 1] == digits + (extension + [CR]);
  }

  /** The chunks of a body split into pieces, each announced by its own size line. */
  function Announced(pieces: seq<seq<Byte>>, extensions: seq<seq<Byte>>): seq<Chunk>
    requires |extensions| == |pieces|
  {
    if pieces == [] then []
    else [Chunk(SizeLine(|pieces[0]|, extensions[0]), pieces[0], [CR, LF])] + Announced(pieces[1..], extensions[1..])
  }

  predicate Announceable(pieces: seq<seq<Byte>>, extensions: seq<seq<Byte>>)
    requires |extensions| == |pieces|
  {
    pieces == []
    || (pieces[0] != [] && IsExtension(extensions[0]) && |SizeLine(|pieces[0]|, extensions[0])| <= MAX_LINE
        && Announceable(pieces[1..], extensions[1..]))
  }

  lemma {:induction false} AnnouncedIsOk(pieces: seq<seq<Byte>>, extensions: seq<seq<Byte>>)
    requires |extensions| == |pieces| && Announceable(pieces, extensions)
    ensures ChunksOk(Announced(pieces, extensions)) && Body(Announced(pieces, extensions)) == Concat(pieces)
  {
    if pieces != [] {
      SizeLineAnnounces(|pieces[0]|, extensions[0]);
      SizeLineFrames(|pieces[0]|, extensions[0]);
      AnnouncedIsOk(pieces[1..], extensions[1..]);
      assert Announced(pieces, extensions)[1..] == Announced(pieces[1..], extensions[1..]);
    }
  }

  /** However a body within the limit is cut into non-empty pieces, it arrives whole. */
  lemma EverySplitArrives(pieces: seq<seq<Byte>>, extensions: seq<seq<Byte>>, trailers: seq<seq<Byte>>, rest: seq<Byte>)
    requires |extensions| == |pieces| && Announceable(pieces, extensions) && TrailersOk(trailers)
    requires |Concat(pieces)| <= MAX_BODY
    ensures var m := Message(Announced(pieces, extensions), SizeLine(0, []), trailers, [CR, LF]);
            DecodeChunks(Encode(m) + rest, []) == Framed(Concat(pieces), rest)
  {
    var m := Message(Announced(pieces, extensions), SizeLine(0, []), trailers, [CR, LF]);
    AnnouncedIsOk(pieces, extensions);
    SizeLineAnnounces(0, []);
    assert HexText(0) == [48];
    SizeLineFrames(0, []);
    DecodingInvertsEncoding(m, [], rest);
    assert [] + Concat(pieces) == Concat(pieces);
  }
}
