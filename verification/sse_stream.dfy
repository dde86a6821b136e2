/**
 Server-sent events off the wire (`anthrouter/http_util.py`, `anthrouter/transport.py`; section
 9.2 of the WHATWG HTML standard): bytes to lines to event chunks.
 */
module SseStream {
  import opened Common
  import opened Text

  type Decoder = seq<Byte> -> string

  // ---- Lines -----------------------------------------------------------------

  /** The line in front of the first line feed, if there is one. */
  function FirstLine(s: seq<Byte>): Option<nat> {
    if s == [] then None
    else if s[0] == LF then Some(0)
    else
      match FirstLine(s[1..])
      case None => None
      case Some(n) => Some(n + 1)
  }

  lemma {:induction false} FirstLineFits(s: seq<Byte>)
    ensures FirstLine(s).Some? ==> FirstLine(s).value < |s| && s[FirstLine(s).value] == LF
    ensures FirstLine(s).Some? <==> LF in s
  {
    if s != [] && s[0] != LF {
      FirstLineFits(s[1..]);
    }
  }

  /** The lines of a whole response; a last one without its line feed counts unless it is empty. */
  function LinesOf(decode: Decoder, s: seq<Byte>): seq<string>
    decreases |s|
  {
    FirstLineFits(s);
    match FirstLine(s)
    case None => if s == [] then [] else [decode(s)]
    case Some(n) => [decode(s[..n])] + LinesOf(decode, s[n + 1..])
  }

  lemma {:induction false} FirstLineStays(a: seq<Byte>, b: seq<Byte>)
    requires FirstLine(a).Some?
    ensures FirstLine(a + b) == FirstLine(a)
  {
    if a[0] != LF {
      assert (a + b)[1..] == a[1..] + b;
      FirstLineStays(a[1..], b);
    }
  }

  lemma LinesOfLonger(decode: Decoder, a: seq<Byte>, b: seq<Byte>)
    requires FirstLine(a).Some?
    ensures FirstLine(a).value < |a|
    ensures var n := FirstLine(a).value;
            LinesOf(decode, a + b) == [decode(a[..n])] + LinesOf(decode, a[n + 1..] + b)
  {
    FirstLineFits(a);
    FirstLineStays(a, b);
    var n := FirstLine(a).value;
    assert (a + b)[..n] == a[..n] && (a + b)[n + 1..] == a[n + 1..] + b;
  }

  /** `read_sse_lines`: the lines do not depend on how the response arrived. */
  method ReadSseLines(decode: Decoder, arrivals: seq<seq<Byte>>) returns (lines: seq<string>)
    ensures lines == LinesOf(decode, Concat(arrivals))
  {
    lines := [];
    var buf: seq<Byte> := [];
    assert Concat(arrivals) == buf + Concat(arrivals[0..]);
    for i := 0 to |arrivals|
      invariant LinesOf(decode, Concat(arrivals)) == lines + LinesOf(decode, buf + Concat(arrivals[i..]))
      invariant FirstLine(buf) == None
    {
      ghost var rest := Concat(arrivals[i + 1..]);
      assert arrivals[i..][1..] == arrivals[i + 1..];
      ConcatAssoc(buf, arrivals[i], rest);
      buf := buf + arrivals[i];
      lines, buf := TakeLines(decode, lines, buf, rest);
    }
    assert arrivals[|arrivals|..] == [] && buf + [] == buf;
    if buf != [] {
      lines := lines + [decode(buf)];
    }
  }

  /** The inner loop: every complete line leaves the buffer. */
  method TakeLines(decode: Decoder, taken: seq<string>, start: seq<Byte>, ghost rest: seq<Byte>)
    returns (lines: seq<string>, buf: seq<Byte>)
    ensures FirstLine(buf) == None
    ensures lines + LinesOf(decode, buf + rest) == taken + LinesOf(decode, start + rest)
  {
    lines, buf := taken, start;
    while FirstLine(buf).Some?
      invariant lines + LinesOf(decode, buf + rest) == taken + LinesOf(decode, start + rest)
      decreases |buf|
    {
      FirstLineFits(buf);
      LinesOfLonger(decode, buf, rest);
      var n := FirstLine(buf).value;
      ConcatAssoc(lines, [decode(buf[..n])], LinesOf(decode, buf[n + 1..] + rest));
      lines, buf := lines + [decode(buf[..n])], buf[n + 1..];
    }
  }

  // ---- Chunks ----------------------------------------------------------------

  predicate AllSpace(s: string) {
    s == "" || (IsSpace(s[0]) && AllSpace(s[1..]))
  }

  lemma {:induction false} AllSpaceAppend(a: string, b: string)
    ensures AllSpace(a + b) <==> AllSpace(a) && AllSpace(b)
  {
    if a == "" {
      assert a + b == b;
    } else {
      assert (a + b)[1..] == a[1..] + b;
      AllSpaceAppend(a[1..], b);
    }
  }

  lemma {:induction false} StripRightBlank(s: string)
    ensures StripRight(s) == "" <==> AllSpace(s)
    decreases |s|
  {
    if s != "" {
      var init, last := s[..|s| - 1], s[|s| - 1];
      assert s == init + [last];
      AllSpaceAppend(init, [last]);
      assert AllSpace([last]) <==> IsSpace(last);
      StripRightBlank(init);
    }
  }

  lemma {:induction false} StripLeftBlank(s: string)
    ensures AllSpace(StripLeft(s)) <==> AllSpace(s)
  {
    if s != "" && IsSpace(s[0]) {
      StripLeftBlank(s[1..]);
    }
  }

  lemma BlankIsAllSpace(s: string)
    ensures IsBlank(s) <==> AllSpace(s)
  {
    StripLeftBlank(s);
    StripRightBlank(StripLeft(s));
  }

  /** Lines put together again, each with its newline. */
  function Joined(lines: seq<string>): string {
    if lines == [] then "" else lines[0] + ['\n'] + Joined(lines[1..])
  }

  lemma {:induction false} JoinedAppend(lines: seq<string>, line: string)
    ensures Joined(lines + [line]) == Joined(lines) + (line + ['\n'])
  {
    if lines == [] {
      assert lines + [line] == [line] && [line][1..] == [] && "" + (line + ['\n']) == line + ['\n'] + "";
    } else {
      assert (lines + [line])[1..] == lines[1..] + [line];
      JoinedAppend(lines[1..], line);
      ConcatAssoc(lines[0] + ['\n'], Joined(lines[1..]), line + ['\n']);
    }
  }

  predicate AllBlank(lines: seq<string>) {
    lines == [] || (IsBlank(lines[0]) && AllBlank(lines[1..]))
  }

  lemma {:induction false} JoinedBlank(lines: seq<string>)
    ensures IsBlank(Joined(lines)) <==> AllBlank(lines)
  {
    BlankIsAllSpace(Joined(lines));
    if lines != [] {
      JoinedBlank(lines[1..]);
      BlankIsAllSpace(lines[0]);
      BlankIsAllSpace(Joined(lines[1..]));
      AllSpaceAppend(lines[0] + ['\n'], Joined(lines[1..]));
      AllSpaceAppend(lines[0], ['\n']);
      assert AllSpace(['\n']);
    }
  }

  /** The lines of each event: up to and with a blank one; `pending` has been read already. */
  function Groups(lines: seq<string>, pending: seq<string>): seq<seq<string>>
    decreases |lines|
  {
    if lines == [] then (if AllBlank(pending) then [] else [pending + [""]])
    else
      var now := pending + [lines[0]];
      if !IsBlank(lines[0]) then Groups(lines[1..], now)
      else (if AllBlank(now) then [] else [now]) + Groups(lines[1..], [])
  }

  function JoinedAll(groups: seq<seq<string>>): (r: seq<string>)
    ensures |r| == |groups|
  {
    if groups == [] then [] else [Joined(groups[0])] + JoinedAll(groups[1..])
  }

  /** What `send_message_stream` yields for a response, however it arrives. */
  function ChunksOf(decode: Decoder, s: seq<Byte>): seq<string> {
    JoinedAll(Groups(LinesOf(decode, s), []))
  }

  lemma {:induction false} JoinedAllAppend(groups: seq<seq<string>>, more: seq<seq<string>>)
    ensures JoinedAll(groups + more) == JoinedAll(groups) + JoinedAll(more)
  {
    if groups == [] {
      assert groups + more == more;
    } else {
      assert (groups + more)[1..] == groups[1..] + more;
      JoinedAllAppend(groups[1..], more);
    }
  }

  /** What the grouping loop yields from some point on. */
  ghost function Onward(lines: seq<string>, pending: seq<string>): seq<string> {
    JoinedAll(Groups(lines, pending))
  }

  /** One line: `pending` grows by it, and is yielded when it is blank and something is pending. */
  lemma OneLine(lines: seq<string>, pending: seq<string>)
    requires lines != []
    ensures var now := pending + [lines[0]];
            Onward(lines, pending) ==
            if !IsBlank(lines[0]) then Onward(lines[1..], now)
            else if AllBlank(now) then Onward(lines[1..], []) else [Joined(now)] + Onward(lines[1..], [])
  {
    var now := pending + [lines[0]];
    if IsBlank(lines[0]) {
      if AllBlank(now) {
        assert [] + Groups(lines[1..], []) == Groups(lines[1..], []);
      } else {
        JoinedAllAppend([now], Groups(lines[1..], []));
        assert JoinedAll([now]) == [Joined(now)];
      }
    }
  }

  lemma LastLines(pending: seq<string>)
    ensures Onward([], pending) == if AllBlank(pending) then [] else [Joined(pending) + ['\n']]
  {
    if !AllBlank(pending) {
      JoinedAppend(pending, "");
      assert JoinedAll([pending + [""]]) == [Joined(pending + [""])];
      assert "" + ['\n'] == ['\n'];
    }
  }

  /** `send_message_stream`. */
  method SendMessageStream(decode: Decoder, arrivals: seq<seq<Byte>>) returns (chunks: seq<string>)
    ensures chunks == ChunksOf(decode, Concat(arrivals))
  {
    var lines := ReadSseLines(decode, arrivals);
    var pending := "";
    ghost var group: seq<string> := [];
    chunks := [];
    for i := 0 to |lines|
      invariant pending == Joined(group)
      invariant Onward(lines, []) == chunks + Onward(lines[i..], group)
    {
      assert lines[i..][1..] == lines[i + 1..];
      OneLine(lines[i..], group);
      JoinedAppend(group, lines[i]);
      group := group + [lines[i]];
      pending := pending + (lines[i] + ['\n']);
      JoinedBlank(group);
      if IsBlank(lines[i]) {
        if !IsBlank(pending) {
          ConcatAssoc(chunks, [pending], Onward(lines[i + 1..], []));
          chunks := chunks + [pending];
        }
        pending, group := "", [];
      }
    }
    assert lines[|lines|..] == [];
    LastLines(group);
    JoinedBlank(group);
    if !IsBlank(pending) {
      chunks := chunks + [pending + ['\n']];
    }
  }

  // ---- What the framing keeps ------------------------------------------------

  function Substance(lines: seq<string>): seq<string> {
    if lines == [] then []
    else (if IsBlank(lines[0]) then [] else [lines[0]]) + Substance(lines[1..])
  }

  lemma {:induction false} SubstanceJoins(a: seq<string>, b: seq<string>)
    ensures Substance(a + b) == Substance(a) + Substance(b)
  {
    if a == [] {
      assert a + b == b;
    } else {
      assert (a + b)[1..] == a[1..] + b;
      SubstanceJoins(a[1..], b);
    }
  }

  lemma {:induction false} BlankHasNoSubstance(lines: seq<string>)
    ensures AllBlank(lines) <==> Substance(lines) == []
  {
    if lines != [] {
      BlankHasNoSubstance(lines[1..]);
    }
  }

  lemma SubstanceOfLine(pending: seq<string>, line: string)
    ensures Substance(pending + [line]) == Substance(pending) + if IsBlank(line) then [] else [line]
  {
    SubstanceJoins(pending, [line]);
    assert [line][1..] == [];
  }

  lemma LastGroupKeeps(pending: seq<string>)
    ensures Substance(Concat(Groups([], pending))) == Substance(pending)
  {
    BlankHasNoSubstance(pending);
    SubstanceOfLine(pending, "");
    if !AllBlank(pending) {
      var last := pending + [""];
      assert Groups([], pending) == [last] && Concat([last]) == last + Concat([last][1..]) && last + [] == last;
    }
  }

  lemma GroupKeeps(now: seq<string>, more: seq<seq<string>>)
    ensures Substance(Concat((if AllBlank(now) then [] else [now]) + more)) == Substance(now) + Substance(Concat(more))
  {
    BlankHasNoSubstance(now);
    if AllBlank(now) {
      assert [] + more == more;
    } else {
      assert ([now] + more)[1..] == more;
      SubstanceJoins(now, Concat(more));
    }
  }

  /** Grouping drops blank lines only: every other line is in exactly one event, in order. */
  lemma {:induction false} NoLineIsLost(lines: seq<string>, pending: seq<string>)
    ensures Substance(Concat(Groups(lines, pending))) == Substance(pending) + Substance(lines)
    decreases |lines|
  {
    if lines == [] {
      LastGroupKeeps(pending);
      assert Substance(pending) + [] == Substance(pending);
    } else {
      var now, rest := pending + [lines[0]], lines[1..];
      if IsBlank(lines[0]) {
        NoLineIsLost(rest, []);
        GroupKeeps(now, Groups(rest, []));
      } else {
        NoLineIsLost(rest, now);
      }
      GroupsStep(lines, pending);
      SubstanceStep(lines, pending);
    }
  }

  lemma GroupsStep(lines: seq<string>, pending: seq<string>)
    requires lines != []
    ensures var now := pending + [lines[0]];
            Groups(lines, pending) ==
            if IsBlank(lines[0]) then (if AllBlank(now) then [] else [now]) + Groups(lines[1..], [])
            else Groups(lines[1..], now)
  {
  }

  lemma SubstanceStep(lines: seq<string>, pending: seq<string>)
    requires lines != []
    ensures Substance(pending) + Substance(lines) == Substance(pending + [lines[0]]) + Substance(lines[1..])
  {
    SubstanceOfLine(pending, lines[0]);
    ConcatAssoc(Substance(pending), if IsBlank(lines[0]) then [] else [lines[0]], Substance(lines[1..]));
  }

  lemma {:induction false} EventsAreWhole(lines: seq<string>, pending: seq<string>, i: nat)
    requires i < |Groups(lines, pending)|
    ensures !AllBlank(Groups(lines, pending)[i])
    decreases |lines|
  {
    if lines == [] {
      BlankHasNoSubstance(pending);
      SubstanceOfLine(pending, "");
      BlankHasNoSubstance(pending + [""]);
    } else {
      var now, more := pending + [lines[0]], Groups(lines[1..], []);
      GroupsStep(lines, pending);
      if !IsBlank(lines[0]) {
        EventsAreWhole(lines[1..], now, i);
      } else if AllBlank(now) {
        EventsAreWhole(lines[1..], [], i);
      } else if i > 0 {
        assert ([now] + more)[i] == more[i - 1];
        EventsAreWhole(lines[1..], [], i - 1);
      }
    }
  }

  lemma {:induction false} JoinedEndsInNewline(lines: seq<string>)
    requires lines != []
    ensures Joined(lines) != "" && Joined(lines)[|Joined(lines)| - 1] == '\n'
  {
    if |lines| > 1 {
      JoinedEndsInNewline(lines[1..]);
    }
  }

  lemma {:induction false} JoinedAllAt(groups: seq<seq<string>>, i: nat)
    requires i < |groups|
    ensures JoinedAll(groups)[i] == Joined(groups[i])
  {
    if i > 0 {
      JoinedAllAt(groups[1..], i - 1);
    }
  }

  /** No event is blank, and each ends in a newline. */
  lemma ChunksAreWhole(decode: Decoder, s: seq<Byte>, i: nat)
    requires i < |ChunksOf(decode, s)|
    ensures var chunk := ChunksOf(decode, s)[i]; !IsBlank(chunk) && chunk != "" && chunk[|chunk| - 1] == '\n'
  {
    var groups := Groups(LinesOf(decode, s), []);
    EventsAreWhole(LinesOf(decode, s), [], i);
    JoinedAllAt(groups, i);
    JoinedBlank(groups[i]);
    JoinedEndsInNewline(groups[i]);
  }

  // ---- The framing, line by line and event by event --------------------------

  lemma {:induction false} FirstLineEnds(line: seq<Byte>, rest: seq<Byte>)
    requires LF !in line
    ensures FirstLine(line + [LF] + rest) == Some(|line|) && FirstLine(line) == None
  {
    if line != [] {
      assert line[0] in line;
      assert (line + [LF] + rest)[1..] == line[1..] + [LF] + rest;
      FirstLineEnds(line[1..], rest);
    }
  }

  /** A line ends at its line feed; the last one needs none, unless it is empty. */
  lemma LinesAreSplit(decode: Decoder, line: seq<Byte>, rest: seq<Byte>)
    requires LF !in line
    ensures LinesOf(decode, line + [LF] + rest) == [decode(line)] + LinesOf(decode, rest)
    ensures LinesOf(decode, line) == if line == [] then [] else [decode(line)]
  {
    var s := line + [LF] + rest;
    FirstLineEnds(line, rest);
    assert s[..|line|] == line && s[|line| + 1..] == rest;
  }

  predicate NoneBlank(lines: seq<string>) {
    forall i :: 0 <= i < |lines| ==> !IsBlank(lines[i])
  }

  lemma BlankEnds(lines: seq<string>, blank: string)
    requires IsBlank(blank) && NoneBlank(lines)
    ensures AllBlank(lines + [blank]) <==> lines == []
    ensures AllBlank(lines) <==> lines == []
  {
    if lines == [] {
      assert lines + [blank] == [blank] && [blank][1..] == [];
    } else {
      assert (lines + [blank])[0] == lines[0];
    }
  }

  lemma {:induction false} EventIsRead(head: seq<string>, blank: string, rest: seq<string>, pending: seq<string>)
    requires IsBlank(blank) && NoneBlank(pending) && NoneBlank(head)
    ensures Groups(head + [blank] + rest, pending)
         == (if pending + head == [] then [] else [pending + head + [blank]]) + Groups(rest, [])
    ensures Groups(head, pending) == if pending + head == [] then [] else [pending + head + [""]]
    decreases |head|
  {
    var lines := head + [blank] + rest;
    if head == [] {
      assert lines[0] == blank && lines[1..] == rest && pending + head == pending;
      BlankEnds(pending, blank);
    } else {
      var now := pending + [head[0]];
      assert lines[0] == head[0] && lines[1..] == head[1..] + [blank] + rest;
      assert now + head[1..] == pending + head;
      EventIsRead(head[1..], blank, rest, now);
    }
  }

  /** An event is the lines up to a blank one, which is kept; blank lines alone are none, and the last needs none. */
  lemma EventsAreSplit(head: seq<string>, blank: string, rest: seq<string>)
    requires IsBlank(blank) && NoneBlank(head)
    ensures Groups(head + [blank] + rest, [])
         == (if head == [] then [] else [head + [blank]]) + Groups(rest, [])
    ensures Groups(head, []) == if head == [] then [] else [head + [""]]
  {
    EventIsRead(head, blank, rest, []);
    assert [] + head == head;
  }

  /** The chunk of an event is its lines, each with a newline, one after another. */
  lemma {:induction false} ChunkIsItsLines(lines: seq<string>, parts: seq<string>)
    requires |parts| == |lines| && forall i :: 0 <= i < |lines| ==> parts[i] == lines[i] + "\n"
    ensures Joined(lines) == Concat(parts)
  {
    if lines != [] {
      ChunkIsItsLines(lines[1..], parts[1..]);
    }
  }
}
