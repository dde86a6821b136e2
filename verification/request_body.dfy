/**
 Reading an intercepted request body (`anthrouter/interception.py`): plain bodies by their
 length, chunked ones by section 7.1 of RFC 9112.
 */
module RequestBody {
  import opened Common
  import opened Text

  const CR: Byte := 13
  const SEMICOLON: Byte := 59

  const MAX_BODY: nat := 33554432
  const MAX_LINE: nat := 1024

  // ---- Lines -----------------------------------------------------------------

  /** How much `readline(limit)` takes. */
  function LineEnd(s: seq<Byte>, limit: nat): (n: nat)
    ensures n <= |s| && n <= limit
  {
    if s == [] || limit == 0 then 0 else if s[0] == LF then 1 else 1 + LineEnd(s[1..], limit - 1)
  }

  predicate EndsLine(line: seq<Byte>) {
    line != [] && line[|line| - 1] == LF
  }

  /** A line that fits the bound and has its line feed, and what follows it. */
  function FramingLine(s: seq<Byte>): Option<(seq<Byte>, seq<Byte>)> {
    var n := LineEnd(s, MAX_LINE);
    if EndsLine(s[..n]) then Some((s[..n], s[n..])) else None
  }

  predicate IsFramingLine(line: seq<Byte>) {
    EndsLine(line) && |line| <= MAX_LINE && LF !in line[..|line| - 1]
  }

  const BLANK_LINES := {[CR, LF], [LF]}

  // ---- Chunk sizes -----------------------------------------------------------

  /** `int(text, 16)` on one digit. */
  function HexValue(b: Byte): Option<nat> {
    if 48 <= b <= 57 then Some((b - 48) as nat)
    else if 65 <= b <= 70 then Some((b - 55) as nat)
    else if 97 <= b <= 102 then Some((b - 87) as nat)
    else None
  }

  function HexNumber(digits: seq<Byte>, so_far: nat): Option<nat> {
    if digits == [] then Some(so_far)
    else
      match HexValue(digits[0])
      case None => None
      case Some(d) => HexNumber(digits[1..], 16 * so_far + d)
  }

  predicate IsAsciiSpace(b: Byte) {
    b == 32 || 9 <= b <= 13
  }

  function TrimLeft(s: seq<Byte>): (r: seq<Byte>)
    ensures |r| <= |s|
  {
    if s != [] && IsAsciiSpace(s[0]) then TrimLeft(s[1..]) else s
  }

  function TrimRight(s: seq<Byte>): (r: seq<Byte>)
    ensures |r| <= |s|
  {
    if s != [] && IsAsciiSpace(s[|s| - 1]) then TrimRight(s[..|s| - 1]) else s
  }

  function BeforeSemicolon(s: seq<Byte>): seq<Byte> {
    if s == [] || s[0] == SEMICOLON then [] else [s[0]] + BeforeSemicolon(s[1..])
  }

  /** The size a chunk line announces, extensions ignored; `None` when it is not hexadecimal. */
  function ChunkSize(line: seq<Byte>): Option<nat> {
    var text := TrimRight(TrimLeft(BeforeSemicolon(line)));
    if text == [] then None else HexNumber(text, 0)
  }

  // ---- Decoding --------------------------------------------------------------

  datatype Problem = UnsupportedCoding | LineCutOff | BadChunkSize | TooLarge | ChunkCutOff | BadLength | BodyCutOff
  datatype Decoded = Framed(body: seq<Byte>, rest: seq<Byte>) | Malformed(problem: Problem)

  /** Trailer lines up to and with the blank one. */
  function SkipTrailers(s: seq<Byte>): (r: Option<seq<Byte>>)
    ensures r.Some? ==> |r.value| <= |s|
    decreases |s|
  {
    match FramingLine(s)
    case None => None
    case Some((line, rest)) => if line in BLANK_LINES then Some(rest) else SkipTrailers(rest)
  }

  /** One chunk, the end of the body, or what is wrong. */
  datatype Step = Data(chunk: seq<Byte>, rest: seq<Byte>) | Done(rest: seq<Byte>) | Bad(problem: Problem)

  /** The bytes of a chunk whose size line has been read, and the blank line behind them. */
  function ChunkData(s: seq<Byte>, size: nat): (r: Step)
    ensures r.Data? ==> |r.rest| < |s| && |r.chunk| == size
  {
    if |s| < size then Bad(ChunkCutOff)
    else
      match FramingLine(s[size..])
      case None => Bad(LineCutOff)
      case Some((end, after)) => if end in BLANK_LINES then Data(s[..size], after) else Bad(ChunkCutOff)
  }

  function NextChunk(s: seq<Byte>, total: nat): (r: Step)
    ensures r.Data? ==> |r.rest| < |s| && total + |r.chunk| <= MAX_BODY
  {
    match FramingLine(s)
    case None => Bad(LineCutOff)
    case Some((line, rest)) =>
      match ChunkSize(line)
      case None => Bad(BadChunkSize)
      case Some(size) =>
        if total + size > MAX_BODY then Bad(TooLarge)
        else if size == 0 then
          match SkipTrailers(rest)
          case None => Bad(LineCutOff)
          case Some(after) => Done(after)
        else ChunkData(rest, size)
  }

  /** The body behind what is already held. */
  function DecodeChunks(s: seq<Byte>, held: seq<Byte>): Decoded
    decreases |s|
  {
    match NextChunk(s, |held|)
    case Bad(problem) => Malformed(problem)
    case Done(rest) => Framed(held, rest)
    case Data(chunk, rest) => DecodeChunks(rest, held + chunk)
  }

  // ---- Headers ---------------------------------------------------------------

  function SplitBy(s: string, separator: char, word: string): seq<string> {
    if s == "" then [word]
    else if s[0] == separator then [word] + SplitBy(s[1..], separator, "")
    else SplitBy(s[1..], separator, word + [s[0]])
  }

  /** Stripped and in lower case, the empty ones dropped. */
  function Tidied(tokens: seq<string>): seq<string> {
    if tokens == [] then []
    else (if Strip(tokens[0]) == "" then [] else [Lower(Strip(tokens[0]))]) + Tidied(tokens[1..])
  }

  function Codings(values: seq<string>): seq<string> {
    if values == [] then [] else Tidied(SplitBy(values[0], ',', "")) + Codings(values[1..])
  }

  function DecimalNumber(digits: string, so_far: nat): Option<nat> {
    if digits == "" then Some(so_far)
    else if '0' <= digits[0] <= '9' then DecimalNumber(digits[1..], 10 * so_far + (digits[0] - '0') as nat)
    else None
  }

  /** What the request's body is, by its framing headers and the bytes that follow them. */
  function BodyOf(transferEncoding: seq<string>, contentLength: string, s: seq<Byte>): Decoded {
    var codings := Codings(transferEncoding);
    if codings == ["chunked"] then DecodeChunks(s, [])
    else if codings != [] then Malformed(UnsupportedCoding)
    else
      var text := if Strip(contentLength) == "" then "0" else Strip(contentLength);
      match DecimalNumber(text, 0)
      case None => Malformed(BadLength)
      case Some(n) =>
        if n > MAX_BODY then Malformed(TooLarge)
        else if |s| < n then Malformed(BodyCutOff)
        else Framed(s[..n], s[n..])
  }

  // ---- The reader ------------------------------------------------------------

  /** The buffered input: `read` and `readline` take from its front. */
  class Reader {
    var pending: seq<Byte>

    constructor (input: seq<Byte>)
      ensures pending == input
    {
      pending := input;
    }

    method ReadLine(limit: nat) returns (line: seq<Byte>)
      modifies this
      ensures line == old(pending)[..LineEnd(old(pending), limit)]
      ensures pending == old(pending)[LineEnd(old(pending), limit)..]
    {
      var n := LineEnd(pending, limit);
      line, pending := pending[..n], pending[n..];
    }

    method Read(size: nat) returns (data: seq<Byte>)
      modifies this
      ensures var n := if size <= |old(pending)| then size else |old(pending)|;
              data == old(pending)[..n] && pending == old(pending)[n..]
    {
      var n := if size <= |pending| then size else |pending|;
      data, pending := pending[..n], pending[n..];
    }

    /** `_framing_line`. */
    method ReadFramingLine() returns (line: Option<seq<Byte>>)
      modifies this
      ensures match FramingLine(old(pending))
              case None => line == None
              case Some((l, rest)) => line == Some(l) && pending == rest && |rest| < |old(pending)|
    {
      var l := ReadLine(MAX_LINE);
      line := if EndsLine(l) then Some(l) else None;
    }

    method ReadTrailers() returns (ok: bool)
      modifies this
      ensures match SkipTrailers(old(pending)) case None => !ok case Some(rest) => ok && pending == rest
    {
      while true
        invariant SkipTrailers(pending) == SkipTrailers(old(pending))
        decreases |pending|
      {
        var line := ReadFramingLine();
        if line == None {
          return false;
        }
        if line.value in BLANK_LINES {
          return true;
        }
      }
    }

    method ReadChunk(total: nat) returns (step: Step)
      modifies this
      ensures step == NextChunk(old(pending), total)
      ensures !step.Bad? ==> pending == step.rest
      ensures step.Data? ==> |step.rest| < |old(pending)| && total + |step.chunk| <= MAX_BODY
    {
      var line := ReadFramingLine();
      if line == None {
        return Bad(LineCutOff);
      }
      var size := ChunkSize(line.value);
      if size == None {
        return Bad(BadChunkSize);
      }
      if total + size.value > MAX_BODY {
        return Bad(TooLarge);
      }
      if size.value == 0 {
        var ok := ReadTrailers();
        return if ok then Done(pending) else Bad(LineCutOff);
      }
      step := ReadChunkData(size.value);
    }

    method ReadChunkData(size: nat) returns (step: Step)
      modifies this
      ensures step == ChunkData(old(pending), size)
      ensures !step.Bad? ==> step.Data? && pending == step.rest
    {
      var chunk := Read(size);
      if |chunk| != size {
        return Bad(ChunkCutOff);
      }
      var end := ReadFramingLine();
      if end == None {
        return Bad(LineCutOff);
      }
      return if end.value in BLANK_LINES then Data(chunk, pending) else Bad(ChunkCutOff);
    }

    /**
     The chunked branch.  `held` is what the buffer holds on return, or when the source raises:
     it never outgrows the limit.
     */
    method ReadChunks() returns (r: Decoded, held: seq<Byte>)
      modifies this
      ensures r == DecodeChunks(old(pending), [])
      ensures r.Framed? ==> pending == r.rest && held == r.body
      ensures |held| <= MAX_BODY
    {
      held := [];
      while true
        invariant |held| <= MAX_BODY
        invariant DecodeChunks(old(pending), []) == DecodeChunks(pending, held)
        decreases |pending|
      {
        var step := ReadChunk(|held|);
        if step.Bad? {
          return Malformed(step.problem), held;
        }
        if step.Done? {
          return Framed(held, pending), held;
        }
        held := held + step.chunk;
      }
    }

    method ReadRequestBody(transferEncoding: seq<string>, contentLength: string) returns (r: Decoded)
      modifies this
      ensures r == BodyOf(transferEncoding, contentLength, old(pending))
      ensures r.Framed? ==> pending == r.rest
    {
      var codings := Codings(transferEncoding);
      if codings != [] && codings != ["chunked"] {
        return Malformed(UnsupportedCoding);
      }
      if codings != [] {
        var held;
        r, held := ReadChunks();
        return;
      }
      var text := Strip(contentLength);
      if text == "" {
        text := "0";
      }
      var length := DecimalNumber(text, 0);
      if length == None {
        return Malformed(BadLength);
      }
      if length.value > MAX_BODY {
        return Malformed(TooLarge);
      }
      var body := Read(length.value);
      if |body| != length.value {
        return Malformed(BodyCutOff);
      }
      return Framed(body, pending);
    }
  }
}
