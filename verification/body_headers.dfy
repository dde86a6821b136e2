/**
 The headers that frame an intercepted request (`anthrouter/interception.py`): which transfer
 codings they name, and which length.
 */
module BodyHeaders {
  import opened Common
  import opened RequestBody
  import opened Text

  // ---- Stripped text ---------------------------------------------------------

  predicate AllSpaces(s: string, from: nat, to: nat)
    requires to <= |s|
  {
    forall i :: from <= i < to ==> IsSpace(s[i])
  }

  /** `r` is `s[a..b]`, with spaces only around it and none at its ends. */
  predicate IsStripped(s: string, r: string, a: nat, b: nat) {
    && a <= b <= |s| && r == s[a..b] && AllSpaces(s, 0, a) && AllSpaces(s, b, |s|)
    && (a < b ==> !IsSpace(s[a]) && !IsSpace(s[b - 1]))
  }

  lemma {:induction false} LeftStripped(s: string)
    ensures var a := |s| - |StripLeft(s)|; StripLeft(s) == s[a..] && AllSpaces(s, 0, a)
  {
    if s != "" && IsSpace(s[0]) {
      LeftStripped(s[1..]);
      assert forall i :: 0 < i < |s| ==> s[i] == s[1..][i - 1];
    }
  }

  lemma {:induction false} RightStripped(s: string)
    ensures AllSpaces(s, |StripRight(s)|, |s|)
  {
    if s != "" && IsSpace(s[|s| - 1]) {
      RightStripped(s[..|s| - 1]);
    }
  }

  lemma StripMeans(s: string)
    ensures exists a, b :: IsStripped(s, Strip(s), a, b)
  {
    var left := StripLeft(s);
    var a := |s| - |left|;
    var b := a + |Strip(s)|;
    LeftStripped(s);
    RightStripped(left);
    assert forall i :: a <= i < |s| ==> s[i] == left[i - a];
    assert IsStripped(s, Strip(s), a, b);
  }

  // ---- Transfer codings ------------------------------------------------------

  lemma {:induction false} CodingsJoin(a: seq<string>, b: seq<string>)
    ensures Codings(a + b) == Codings(a) + Codings(b)
  {
    if a == [] {
      assert a + b == b;
    } else {
      CodingsJoin(a[1..], b);
      assert (a + b)[1..] == a[1..] + b;
      ConcatAssoc(Tidied(SplitBy(a[0], ',', "")), Codings(a[1..]), Codings(b));
    }
  }

  lemma {:induction false} SplitAtComma(a: string, b: string, word: string)
    requires ',' !in a
    ensures SplitBy(a + "," + b, ',', word) == [word + a] + SplitBy(b, ',', "")
    ensures SplitBy(a, ',', word) == [word + a]
    decreases |a|
  {
    var s := a + "," + b;
    if a == "" {
      assert s[1..] == b && word + a == word;
    } else {
      assert s[1..] == a[1..] + "," + b;
      SplitAtComma(a[1..], b, word + [a[0]]);
      assert word + [a[0]] + a[1..] == word + a;
    }
  }

  /** A token names a coding, in lower case, unless it is blank. */
  function CodingOf(token: string): seq<string> {
    if IsBlank(token) then [] else [Lower(Strip(token))]
  }

  lemma CodingsOfOne(value: string)
    ensures Codings([value]) == Tidied(SplitBy(value, ',', ""))
  {
    assert [value][1..] == [];
    assert Tidied(SplitBy(value, ',', "")) + [] == Tidied(SplitBy(value, ',', ""));
  }

  /** The codings named are those between the commas of all the headers, in order. */
  lemma CodingsAreTheTokens(a: string, b: string, values: seq<string>)
    requires ',' !in a
    ensures Codings([]) == []
    ensures Codings([a]) == CodingOf(a)
    ensures Codings([a + "," + b]) == CodingOf(a) + Codings([b])
    ensures Codings([a] + values) == Codings([a]) + Codings(values)
  {
    CodingsOfOne(a);
    CodingsOfOne(b);
    CodingsOfOne(a + "," + b);
    SplitAtComma(a, b, "");
    CodingsJoin([a], values);
    assert "" + a == a && [a][1..] == [];
    assert ([a] + SplitBy(b, ',', ""))[1..] == SplitBy(b, ',', "");
  }

  // ---- Lengths ---------------------------------------------------------------

  function DigitOf(d: nat): char
    requires d < 10
  {
    '0' + d as char
  }

  /** How a number is written. */
  function DecimalText(n: nat): string {
    if n < 10 then [DigitOf(n)] else DecimalText(n / 10) + [DigitOf(n % 10)]
  }

  function Zeros(k: nat): string {
    seq(k, _ => '0')
  }

  lemma {:induction false} NumberFromLast(s: string, c: char, soFar: nat)
    ensures DecimalNumber(s + [c], soFar) ==
              match DecimalNumber(s, soFar)
              case None => None
              case Some(v) => if '0' <= c <= '9' then Some(10 * v + (c - '0') as nat) else None
  {
    if s == "" {
      assert s + [c] == [c] && [c][1..] == "";
    } else {
      assert (s + [c])[1..] == s[1..] + [c];
      if '0' <= s[0] <= '9' {
        NumberFromLast(s[1..], c, 10 * soFar + (s[0] - '0') as nat);
      }
    }
  }

  /** Leading zeros do not matter. */
  predicate Writes(s: string, k: nat, n: nat) {
    s == Zeros(k) + DecimalText(n)
  }

  lemma {:induction false} ZerosRead(k: nat)
    ensures DecimalNumber(Zeros(k), 0) == Some(0)
  {
    if k > 0 {
      ZerosRead(k - 1);
      assert Zeros(k)[1..] == Zeros(k - 1);
    }
  }

  lemma {:induction false} WrittenReads(k: nat, n: nat)
    ensures DecimalNumber(Zeros(k) + DecimalText(n), 0) == Some(n)
  {
    if n < 10 {
      ZerosRead(k);
      NumberFromLast(Zeros(k), DigitOf(n), 0);
    } else {
      WrittenReads(k, n / 10);
      NumberFromLast(Zeros(k) + DecimalText(n / 10), DigitOf(n % 10), 0);
      ConcatAssoc(Zeros(k), DecimalText(n / 10), [DigitOf(n % 10)]);
    }
  }

  lemma OneMoreDigit(s: string, k: nat, v: nat, d: nat)
    requires Writes(s, k, v) && d < 10
    ensures Writes(s + [DigitOf(d)], if v == 0 then k + 1 else k, 10 * v + d)
  {
    if v == 0 {
      assert Zeros(k) + ['0'] == Zeros(k + 1);
      assert DecimalText(0) == ['0'];
    } else {
      assert (10 * v + d) / 10 == v && (10 * v + d) % 10 == d;
      ConcatAssoc(Zeros(k), DecimalText(v), [DigitOf(d)]);
    }
  }

  lemma {:induction false} ReadIsWritten(s: string, n: nat)
    requires s != "" && DecimalNumber(s, 0) == Some(n)
    ensures exists k :: Writes(s, k, n)
    decreases |s|
  {
    var init, c := s[..|s| - 1], s[|s| - 1];
    NumberFromLast(init, c, 0);
    assert init + [c] == s;
    var v, d := DecimalNumber(init, 0).value, (c - '0') as nat;
    assert c == DigitOf(d);
    if init == "" {
      assert Zeros(0) + DecimalText(d) == [c];
      assert Writes(s, 0, n);
    } else {
      ReadIsWritten(init, v);
      var k :| Writes(init, k, v);
      OneMoreDigit(init, k, v, d);
    }
  }

  /**
   Without a transfer coding the body is as long as the header says: no header, or a blank one,
   is a length of zero, and anything but a decimal number is refused.
   */
  lemma LengthFramesBody(transferEncoding: seq<string>, contentLength: string, s: seq<Byte>, k: nat, n: nat)
    requires Codings(transferEncoding) == []
    ensures var r, text := BodyOf(transferEncoding, contentLength, s), Strip(contentLength);
            && (text == "" ==> r == Framed([], s))
            && (Writes(text, k, n) ==>
                  r == if n > 33554432 then Malformed(TooLarge)
                       else if |s| < n then Malformed(BodyCutOff)
                       else Framed(s[..n], s[n..]))
            && (text != "" && (forall j: nat, m: nat :: !Writes(text, j, m)) ==> r == Malformed(BadLength))
  {
    var text := Strip(contentLength);
    WrittenReads(k, n);
    if text == "" {
      assert "0"[1..] == "" && DecimalNumber("0", 0) == Some(0);
    } else if DecimalNumber(text, 0).Some? {
      ReadIsWritten(text, DecimalNumber(text, 0).value);
    }
  }

  /** The one coding that is read is a single `chunked`; any other is refused. */
  lemma CodingFramesBody(transferEncoding: seq<string>, contentLength: string, s: seq<Byte>)
    requires Codings(transferEncoding) != []
    ensures BodyOf(transferEncoding, contentLength, s)
         == if Codings(transferEncoding) == ["chunked"] then DecodeChunks(s, []) else Malformed(UnsupportedCoding)
  {
  }

  // ---- Chunk sizes -----------------------------------------------------------

  predicate IsPad(b: Byte) {
    b in {9, 10, 11, 12, 13, 32}
  }

  predicate AllPads(s: seq<Byte>) {
    forall i :: 0 <= i < |s| ==> IsPad(s[i])
  }

  predicate IsHexDigit(b: Byte) {
    48 <= b <= 57 || 65 <= b <= 70 || 97 <= b <= 102
  }

  predicate AllHexDigits(s: seq<Byte>) {
    s != [] && forall i :: 0 <= i < |s| ==> IsHexDigit(s[i])
  }

  /** What a digit counts: letters of either case go on behind nine. */
  function DigitValue(b: Byte): nat
    requires IsHexDigit(b)
  {
    if b <= 57 then (b - 48) as nat else if b <= 70 then (b - 65) as nat + 10 else (b - 97) as nat + 10
  }

  lemma {:induction false} HexFromLast(s: seq<Byte>, b: Byte, soFar: nat)
    ensures HexNumber(s + [b], soFar) ==
              match HexNumber(s, soFar)
              case None => None
              case Some(v) => if IsHexDigit(b) then Some(16 * v + DigitValue(b)) else None
  {
    if s == [] {
      assert s + [b] == [b] && [b][1..] == [];
    } else {
      assert (s + [b])[1..] == s[1..] + [b];
      if HexValue(s[0]).Some? {
        HexFromLast(s[1..], b, 16 * soFar + HexValue(s[0]).value);
      }
    }
  }

  lemma {:induction false} HexReadsDigits(s: seq<Byte>, soFar: nat)
    ensures HexNumber(s, soFar).Some? <==> s == [] || AllHexDigits(s)
  {
    if s != [] && IsHexDigit(s[0]) {
      HexReadsDigits(s[1..], 16 * soFar + HexValue(s[0]).value);
      assert forall i :: 0 < i < |s| ==> s[i] == s[1..][i - 1];
    }
  }

  predicate IsTail(tail: seq<Byte>) {
    tail == [] || tail[0] == 59
  }

  lemma {:induction false} CutAtSemicolon(s: seq<Byte>, tail: seq<Byte>)
    requires 59 !in s && IsTail(tail)
    ensures BeforeSemicolon(s + tail) == s
  {
    if s == [] {
      assert s + tail == tail;
    } else {
      assert s[0] in s && (s + tail)[1..] == s[1..] + tail;
      CutAtSemicolon(s[1..], tail);
    }
  }

  lemma {:induction false} SemicolonCuts(line: seq<Byte>)
    ensures exists tail :: IsTail(tail) && line == BeforeSemicolon(line) + tail
    ensures 59 !in BeforeSemicolon(line)
  {
    if line == [] || line[0] == SEMICOLON {
      assert IsTail(line) && line == [] + line;
    } else {
      SemicolonCuts(line[1..]);
      var tail :| IsTail(tail) && line[1..] == BeforeSemicolon(line[1..]) + tail;
      assert line == [line[0]] + line[1..] == BeforeSemicolon(line) + tail;
    }
  }

  lemma {:induction false} LeftPadsGo(pads: seq<Byte>, s: seq<Byte>)
    requires AllPads(pads) && (s != [] ==> !IsPad(s[0]))
    ensures TrimLeft(pads + s) == s
  {
    if pads == [] {
      assert pads + s == s;
    } else {
      assert (pads + s)[1..] == pads[1..] + s;
      LeftPadsGo(pads[1..], s);
    }
  }

  lemma {:induction false} RightPadsGo(s: seq<Byte>, pads: seq<Byte>)
    requires AllPads(pads) && (s != [] ==> !IsPad(s[|s| - 1]))
    ensures TrimRight(s + pads) == s
  {
    if pads == [] {
      assert s + pads == s;
    } else {
      InitOfConcat(s, pads);
      RightPadsGo(s, pads[..|pads| - 1]);
    }
  }

  predicate PadsBetween(s: seq<Byte>, from: nat, to: nat)
    requires to <= |s|
  {
    forall i :: from <= i < to ==> IsPad(s[i])
  }

  lemma {:induction false} LeftIsPads(s: seq<Byte>)
    ensures |TrimLeft(s)| <= |s| && TrimLeft(s) == s[|s| - |TrimLeft(s)|..]
    ensures PadsBetween(s, 0, |s| - |TrimLeft(s)|)
  {
    if s != [] && IsAsciiSpace(s[0]) {
      LeftIsPads(s[1..]);
      assert forall i :: 0 < i < |s| ==> s[i] == s[1..][i - 1];
    }
  }

  lemma {:induction false} RightIsPads(s: seq<Byte>)
    ensures TrimRight(s) <= s && PadsBetween(s, |TrimRight(s)|, |s|)
  {
    if s != [] && IsAsciiSpace(s[|s| - 1]) {
      RightIsPads(s[..|s| - 1]);
    }
  }

  /** A size line: hexadecimal digits, white space around them, and anything behind a semicolon. */
  ghost predicate HoldsDigits(line: seq<Byte>, digits: seq<Byte>) {
    && AllHexDigits(digits)
    && exists a, b, tail :: AllPads(a) && AllPads(b) && IsTail(tail) && line == a + digits + b + tail
  }

  lemma DigitsAreRead(a: seq<Byte>, digits: seq<Byte>, b: seq<Byte>, tail: seq<Byte>)
    requires AllHexDigits(digits) && AllPads(a) && AllPads(b) && IsTail(tail)
    ensures ChunkSize(a + digits + b + tail) == HexNumber(digits, 0)
  {
    assert 59 !in a + digits + b;
    CutAtSemicolon(a + digits + b, tail);
    assert a + digits + b == a + (digits + b);
    LeftPadsGo(a, digits + b);
    RightPadsGo(digits, b);
  }

  lemma PadsInFront(s: seq<Byte>, pads: seq<Byte>)
    requires |TrimLeft(s)| <= |s| && pads == s[..|s| - |TrimLeft(s)|]
    ensures AllPads(pads) && s == pads + TrimLeft(s)
  {
    LeftIsPads(s);
  }

  lemma PadsBehind(s: seq<Byte>, pads: seq<Byte>)
    requires |TrimRight(s)| <= |s| && pads == s[|TrimRight(s)|..]
    ensures AllPads(pads) && s == TrimRight(s) + pads
  {
    RightIsPads(s);
  }

  lemma TrimmedIsInside(text: seq<Byte>)
    ensures exists a, b :: AllPads(a) && AllPads(b) && text == a + TrimRight(TrimLeft(text)) + b
  {
    var left := TrimLeft(text);
    LeftIsPads(text);
    RightIsPads(left);
    var a, b := text[..|text| - |left|], left[|TrimRight(left)|..];
    PadsInFront(text, a);
    PadsBehind(left, b);
    ConcatAssoc(a, TrimRight(left), b);
  }

  lemma SizeHoldsDigits(line: seq<Byte>, text: seq<Byte>, digits: seq<Byte>)
    requires text == BeforeSemicolon(line) && digits == TrimRight(TrimLeft(text)) && AllHexDigits(digits)
    ensures HoldsDigits(line, digits)
  {
    SemicolonCuts(line);
    var tail :| IsTail(tail) && line == text + tail;
    TrimmedIsInside(text);
    var a, b :| AllPads(a) && AllPads(b) && text == a + digits + b;
    assert line == a + digits + b + tail;
  }

  /** A line is read as a size exactly when it holds nothing but digits there, and as what they say. */
  lemma ChunkSizeMeans(line: seq<Byte>, digits: seq<Byte>)
    ensures HoldsDigits(line, digits) ==> ChunkSize(line) == HexNumber(digits, 0) && ChunkSize(line).Some?
    ensures ChunkSize(line).Some? ==> exists ds :: HoldsDigits(line, ds)
  {
    if HoldsDigits(line, digits) {
      var a, b, tail :| AllPads(a) && AllPads(b) && IsTail(tail) && line == a + digits + b + tail;
      DigitsAreRead(a, digits, b, tail);
      HexReadsDigits(digits, 0);
    }
    if ChunkSize(line).Some? {
      var text := BeforeSemicolon(line);
      HexReadsDigits(TrimRight(TrimLeft(text)), 0);
      SizeHoldsDigits(line, text, TrimRight(TrimLeft(text)));
    }
  }

  // ---- Framing lines ---------------------------------------------------------

  lemma {:induction false} LineEndsAt(line: seq<Byte>, rest: seq<Byte>, limit: nat)
    requires LF !in line
    ensures LineEnd(line + [LF] + rest, limit) == if |line| < limit then |line| + 1 else limit
  {
    if line != [] && limit > 0 {
      assert line[0] in line;
      assert (line + [LF] + rest)[1..] == line[1..] + [LF] + rest;
      LineEndsAt(line[1..], rest, limit - 1);
    }
  }

  lemma {:induction false} LineGoesOn(s: seq<Byte>, limit: nat)
    requires LF !in s
    ensures LineEnd(s, limit) == if |s| < limit then |s| else limit
  {
    if s != [] && limit > 0 {
      assert s[0] in s;
      LineGoesOn(s[1..], limit - 1);
    }
  }

  /** A framing line is at most 1024 bytes long, its line feed among them. */
  lemma FramingLineMeans(line: seq<Byte>, rest: seq<Byte>)
    requires LF !in line
    ensures FramingLine(line + [LF] + rest) == if |line| < 1024 then Some((line + [LF], rest)) else None
    ensures FramingLine(line) == None
  {
    var s := line + [LF] + rest;
    LineEndsAt(line, rest, MAX_LINE);
    LineGoesOn(line, MAX_LINE);
    if |line| < 1024 {
      assert s[..|line| + 1] == line + [LF] && s[|line| + 1..] == rest;
    } else {
      assert s[..1024][1023] == line[1023] && line[1023] in line;
    }
    if line != [] {
      var n := LineEnd(line, MAX_LINE);
      assert line[..n][n - 1] == line[n - 1] && line[n - 1] in line;
    }
  }
}
