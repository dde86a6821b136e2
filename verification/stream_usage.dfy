/**
 What the proxy learns from a streamed response while it passes it on
 (`anthrouter/handlers.py`): token counts, the assistant's text, and the id under which a
 Thread is recorded.
 */
module StreamUsage {
  import opened Common
  import opened Text
  import opened SseStream

  // ---- Events ----------------------------------------------------------------

  datatype Usage = Usage(input: Option<int>, output: Option<int>, creation: Option<int>, cached: Option<int>)

  datatype Event =
    | MessageStart(id: Option<string>, usage: Usage)
    | MessageDelta(delta: Usage)
    | TextDelta(text: string)
    | MessageStop
    | ErrorEvent
    | OtherEvent

  /** The events of a chunk: its `data:` lines that parse as JSON. */
  type Parser = string -> seq<Event>

  function EventsOf(parse: Parser, chunks: seq<string>): seq<Event> {
    if chunks == [] then [] else EventsOf(parse, chunks[..|chunks| - 1]) + parse(chunks[|chunks| - 1])
  }

  // ---- Token counts ----------------------------------------------------------

  datatype Field = Input | Output | Creation | Cached
  datatype Stats = Stats(input: int, output: int, creation: int, cached: int)

  function Count(s: Stats, f: Field): int {
    match f case Input => s.input case Output => s.output case Creation => s.creation case Cached => s.cached
  }

  function Reported(u: Usage, f: Field): Option<int> {
    match f case Input => u.input case Output => u.output case Creation => u.creation case Cached => u.cached
  }

  /** What an event says of a count, if it carries usage. */
  function CountIn(e: Event, f: Field): Option<int> {
    match e
    case MessageStart(_, usage) => Reported(usage, f)
    case MessageDelta(usage) => Reported(usage, f)
    case _ => None
  }

  function Max(n: int, o: Option<int>): int {
    if o.Some? && o.value > n then o.value else n
  }

  function Peak(events: seq<Event>, f: Field, start: int): int {
    if events == [] then start
    else Max(Peak(events[..|events| - 1], f, start), CountIn(events[|events| - 1], f))
  }

  lemma {:induction false} PeakJoins(a: seq<Event>, b: seq<Event>, f: Field, start: int)
    ensures Peak(a + b, f, start) == Peak(b, f, Peak(a, f, start))
  {
    if b == [] {
      assert a + b == a;
    } else {
      assert (a + b)[..|a + b| - 1] == a + b[..|b| - 1];
      PeakJoins(a, b[..|b| - 1], f, start);
    }
  }

  /** The peak is the largest count reported, and one of them or the start. */
  lemma {:induction false} PeakIsMaximum(events: seq<Event>, f: Field, start: int)
    ensures start <= Peak(events, f, start)
    ensures forall i :: 0 <= i < |events| && CountIn(events[i], f).Some? ==>
              CountIn(events[i], f).value <= Peak(events, f, start)
    ensures Peak(events, f, start) == start || exists e :: e in events && CountIn(e, f) == Some(Peak(events, f, start))
  {
    if events != [] {
      var init, last := events[..|events| - 1], events[|events| - 1];
      PeakIsMaximum(init, f, start);
      assert events == init + [last];
      if Peak(events, f, start) == Peak(init, f, start) {
        if Peak(init, f, start) != start {
          var e :| e in init && CountIn(e, f) == Some(Peak(init, f, start));
          assert e in events;
        }
      } else {
        assert last in events;
      }
    }
  }

  function AllPeaks(events: seq<Event>, start: Stats): Stats {
    Stats(Peak(events, Input, start.input), Peak(events, Output, start.output),
          Peak(events, Creation, start.creation), Peak(events, Cached, start.cached))
  }

  lemma AllPeaksJoin(a: seq<Event>, b: seq<Event>, start: Stats)
    ensures AllPeaks(a + b, start) == AllPeaks(b, AllPeaks(a, start))
  {
    PeakJoins(a, b, Input, start.input);
    PeakJoins(a, b, Output, start.output);
    PeakJoins(a, b, Creation, start.creation);
    PeakJoins(a, b, Cached, start.cached);
  }

  // The counts by their names on the wire.
  function InputTokens(e: Event): Option<int> {
    match e case MessageStart(_, u) => u.input case MessageDelta(u) => u.input case _ => None
  }

  function OutputTokens(e: Event): Option<int> {
    match e case MessageStart(_, u) => u.output case MessageDelta(u) => u.output case _ => None
  }

  function CreatedTokens(e: Event): Option<int> {
    match e case MessageStart(_, u) => u.creation case MessageDelta(u) => u.creation case _ => None
  }

  function CachedTokens(e: Event): Option<int> {
    match e case MessageStart(_, u) => u.cached case MessageDelta(u) => u.cached case _ => None
  }

  /** `n` is the largest count that an event reports, or zero. */
  predicate IsPeak(events: seq<Event>, reported: Event -> Option<int>, n: int) {
    && n >= 0 && (n == 0 || exists i :: 0 <= i < |events| && reported(events[i]) == Some(n))
    && forall i :: 0 <= i < |events| && reported(events[i]).Some? ==> reported(events[i]).value <= n
  }

  lemma PeakIsPeak(events: seq<Event>, f: Field, reported: Event -> Option<int>)
    requires forall e :: reported(e) == CountIn(e, f)
    ensures IsPeak(events, reported, Peak(events, f, 0))
  {
    PeakIsMaximum(events, f, 0);
    if Peak(events, f, 0) != 0 {
      var e :| e in events && CountIn(e, f) == Some(Peak(events, f, 0));
      var i :| 0 <= i < |events| && events[i] == e;
      assert reported(events[i]) == Some(Peak(events, f, 0));
    }
  }

  /** Each count of a stream is the largest one reported under its own name. */
  lemma CountsArePeaks(events: seq<Event>)
    ensures var s := AllPeaks(events, Stats(0, 0, 0, 0));
            && IsPeak(events, InputTokens, s.input) && IsPeak(events, OutputTokens, s.output)
            && IsPeak(events, CreatedTokens, s.creation) && IsPeak(events, CachedTokens, s.cached)
  {
    PeakIsPeak(events, Input, InputTokens);
    PeakIsPeak(events, Output, OutputTokens);
    PeakIsPeak(events, Creation, CreatedTokens);
    PeakIsPeak(events, Cached, CachedTokens);
  }

  /** `_extract_sse_stats` */
  method ExtractStats(events: seq<Event>, start: Stats) returns (stats: Stats)
    ensures stats == AllPeaks(events, start)
  {
    stats := start;
    for i := 0 to |events|
      invariant stats == AllPeaks(events[..i], start)
    {
      assert events[..i + 1][..i] == events[..i];
      match events[i]
      case MessageStart(_, usage) => stats := Raise(stats, usage);
      case MessageDelta(usage) => stats := Raise(stats, usage);
      case _ =>
    }
    assert events[..|events|] == events;
  }

  function Raise(s: Stats, u: Usage): Stats {
    Stats(Max(s.input, u.input), Max(s.output, u.output), Max(s.creation, u.creation), Max(s.cached, u.cached))
  }

  // ---- Text ------------------------------------------------------------------

  const RESPONSE_TEXT_LIMIT: nat := 1048576

  function EventText(e: Event): string {
    match e
    case TextDelta(t) => t
    case _ => ""
  }

  function AllText(events: seq<Event>): string {
    if events == [] then "" else AllText(events[..|events| - 1]) + EventText(events[|events| - 1])
  }

  predicate IsTextDelta(e: Event) {
    e.TextDelta?
  }

  function DeltaText(e: Event): string {
    match e case TextDelta(t) => t case _ => ""
  }

  function Deltas(events: seq<Event>): seq<string> {
    if events == [] then []
    else
      var last := events[|events| - 1];
      Deltas(events[..|events| - 1]) + if last.TextDelta? then [last.text] else []
  }

  /** The text is that of the text deltas, one after another. */
  lemma {:induction false} TextIsAllDeltas(events: seq<Event>)
    ensures Picks(events, Deltas(events), IsTextDelta, DeltaText)
    ensures AllText(events) == Concat(Deltas(events))
  {
    if events == [] {
      PicksNothing(IsTextDelta, DeltaText);
    } else {
      var init, last := events[..|events| - 1], events[|events| - 1];
      TextIsAllDeltas(init);
      PicksLast(init, Deltas(init), IsTextDelta, DeltaText, last);
      assert init + [last] == events;
      if last.TextDelta? {
        ConcatAppend(Deltas(init), last.text);
      } else {
        assert Deltas(init) + [] == Deltas(init) && AllText(init) + "" == AllText(init);
      }
    }
  }

  function Take(s: string, n: nat): string {
    if |s| <= n then s else s[..n]
  }

  lemma {:induction false} AllTextJoins(a: seq<Event>, b: seq<Event>)
    ensures AllText(a + b) == AllText(a) + AllText(b)
  {
    if b == [] {
      assert a + b == a;
    } else {
      InitOfConcat(a, b);
      AllTextJoins(a, b[..|b| - 1]);
      ConcatAssoc(AllText(a), AllText(b[..|b| - 1]), EventText(b[|b| - 1]));
    }
  }

  lemma TakeJoins(a: string, b: string, n: nat)
    ensures Take(Take(a, n) + b, n) == Take(a + b, n)
  {
    if |a| > n {
      assert (a[..n] + b)[..n] == (a + b)[..n];
    }
  }

  lemma TakePart(text: string, more: string, n: nat)
    requires |text| <= n < |text| + |more|
    ensures text + more[..n - |text|] == Take(text + more, n)
  {
  }

  lemma TakeStays(text: string, more: string, n: nat)
    requires |text| == n
    ensures Take(text + more, n) == text
  {
  }

  /** `_extract_sse_text`: what is captured is always a prefix of the text, up to the limit. */
  method ExtractText(events: seq<Event>, start: seq<string>) returns (parts: seq<string>)
    requires |Concat(start)| <= RESPONSE_TEXT_LIMIT
    ensures Concat(parts) == Take(Concat(start) + AllText(events), RESPONSE_TEXT_LIMIT)
  {
    parts := start;
    ghost var given := Concat(start);
    var length := TotalLength(start);
    if length >= RESPONSE_TEXT_LIMIT {
      TakeStays(given, AllText(events), RESPONSE_TEXT_LIMIT);
      return;
    }
    for i := 0 to |events|
      invariant Concat(parts) == given + AllText(events[..i])
      invariant length == |Concat(parts)| <= RESPONSE_TEXT_LIMIT
    {
      assert events[..i + 1][..i] == events[..i];
      var text := match events[i] case TextDelta(t) => t case _ => "";
      if text != "" {
        ConcatAssoc(given, AllText(events[..i]), text);
        if length + |text| > RESPONSE_TEXT_LIMIT {
          var kept := text[..RESPONSE_TEXT_LIMIT - length];
          ConcatAppend(parts, kept);
          TakePart(Concat(parts), text, RESPONSE_TEXT_LIMIT);
          RestIsCut(events, i, given);
          parts := parts + [kept];
          return;
        }
        ConcatAppend(parts, text);
        parts, length := parts + [text], length + |text|;
      }
    }
    assert events[..|events|] == events;
  }

  lemma TakeOfLonger(given: string, text: string, more: string, n: nat)
    requires |given + text| > n
    ensures Take(given + (text + more), n) == Take(given + text, n)
  {
    ConcatAssoc(given, text, more);
    assert (given + text + more)[..n] == (given + text)[..n];
  }

  lemma AllTextAround(events: seq<Event>, i: nat)
    requires i <= |events|
    ensures AllText(events) == AllText(events[..i]) + AllText(events[i..])
  {
    SplitAt(events, i);
    AllTextJoins(events[..i], events[i..]);
  }

  lemma RestIsCut(events: seq<Event>, i: nat, given: string)
    requires i < |events| && |given + AllText(events[..i + 1])| > RESPONSE_TEXT_LIMIT
    ensures Take(given + AllText(events), RESPONSE_TEXT_LIMIT)
         == Take(given + AllText(events[..i + 1]), RESPONSE_TEXT_LIMIT)
  {
    AllTextAround(events, i + 1);
    TakeOfLonger(given, AllText(events[..i + 1]), AllText(events[i + 1..]), RESPONSE_TEXT_LIMIT);
  }

  /** `sum(len(p) for p in text_parts)` */
  method TotalLength(parts: seq<string>) returns (n: nat)
    ensures n == |Concat(parts)|
  {
    n := 0;
    for i := 0 to |parts|
      invariant n == |Concat(parts[..i])|
    {
      assert parts[..i + 1] == parts[..i] + [parts[i]];
      ConcatAppend(parts[..i], parts[i]);
      n := n + |parts[i]|;
    }
    assert parts[..|parts|] == parts;
  }

  // ---- Thread marks ----------------------------------------------------------

  datatype Marks = Marks(id: Option<string>, stopped: bool, error: bool)

  const UNMARKED := Marks(None, false, false)

  function Mark(m: Marks, e: Event): Marks {
    match e
    case MessageStart(id, _) => if id.Some? then m.(id := id) else m
    case MessageStop => m.(stopped := true)
    case ErrorEvent => m.(error := true)
    case _ => m
  }

  function MarksAfter(events: seq<Event>, start: Marks): Marks {
    if events == [] then start else Mark(MarksAfter(events[..|events| - 1], start), events[|events| - 1])
  }

  lemma {:induction false} MarksJoin(a: seq<Event>, b: seq<Event>, start: Marks)
    ensures MarksAfter(a + b, start) == MarksAfter(b, MarksAfter(a, start))
  {
    if b == [] {
      assert a + b == a;
    } else {
      assert (a + b)[..|a + b| - 1] == a + b[..|b| - 1];
      MarksJoin(a, b[..|b| - 1], start);
    }
  }

  /** `_extract_sse_thread_marks` */
  method ExtractThreadMarks(events: seq<Event>, start: Marks) returns (marks: Marks)
    ensures marks == MarksAfter(events, start)
  {
    marks := start;
    for i := 0 to |events|
      invariant marks == MarksAfter(events[..i], start)
    {
      assert events[..i + 1][..i] == events[..i];
      match events[i]
      case MessageStart(id, _) => if id.Some? { marks := marks.(id := id); }
      case MessageStop => marks := marks.(stopped := true);
      case ErrorEvent => marks := marks.(error := true);
      case _ =>
    }
    assert events[..|events|] == events;
  }

  predicate Ready(events: seq<Event>) {
    var m := MarksAfter(events, UNMARKED);
    m.stopped && !m.error && m.id.Some?
  }

  /** The marks in terms of the events themselves. */
  lemma {:induction false} MarksMean(events: seq<Event>)
    ensures MarksAfter(events, UNMARKED).stopped <==> MessageStop in events
    ensures MarksAfter(events, UNMARKED).error <==> ErrorEvent in events
    ensures MarksAfter(events, UNMARKED).id.Some? <==> exists e :: e in events && e.MessageStart? && e.id.Some?
  {
    if events != [] {
      var init, last := events[..|events| - 1], events[|events| - 1];
      MarksMean(init);
      assert events == init + [last];
    }
  }

  /** The `MessageStart` that names the message: the last one with an id. */
  predicate IsLastStart(events: seq<Event>, i: nat) {
    && i < |events| && events[i].MessageStart? && events[i].id.Some?
    && forall j :: i < j < |events| && events[j].MessageStart? ==> events[j].id == None
  }

  lemma {:induction false} LastStartIsMarked(events: seq<Event>, i: nat)
    requires IsLastStart(events, i)
    ensures MarksAfter(events, UNMARKED).id == events[i].id
  {
    if i < |events| - 1 {
      LastStartIsMarked(events[..|events| - 1], i);
    }
  }

  lemma {:induction false} SomeStartIsLast(events: seq<Event>, e: Event)
    requires e in events && e.MessageStart? && e.id.Some?
    ensures exists i :: IsLastStart(events, i)
  {
    var init, last := events[..|events| - 1], events[|events| - 1];
    if last.MessageStart? && last.id.Some? {
      assert IsLastStart(events, |init|);
    } else {
      assert events == init + [last] && e in init;
      SomeStartIsLast(init, e);
      var i :| IsLastStart(init, i);
      assert IsLastStart(events, i);
    }
  }

  /** The marks are complete once there is an id and the stop, and no error. */
  lemma ReadyMeans(events: seq<Event>)
    ensures Ready(events) <==>
              MessageStop in events && ErrorEvent !in events && exists i :: IsLastStart(events, i)
  {
    MarksMean(events);
    if e :| e in events && e.MessageStart? && e.id.Some? {
      SomeStartIsLast(events, e);
    }
    if i :| IsLastStart(events, i) {
      LastStartIsMarked(events, i);
    }
  }

  // ---- The wrapper -----------------------------------------------------------

  /** What a client or the Thread map sees, in order. */
  datatype Action = Record(id: string, text: string) | Yield(chunk: string)

  const ERROR_HEADER := "event: error"
  const TAIL: nat := 20

  /** `chunk[-20:]` */
  function Tail(chunk: string): string {
    if |chunk| <= TAIL then chunk else chunk[|chunk| - TAIL..]
  }

  predicate HeaderSeen(chunks: seq<string>, tail: string, header: string)
    decreases |chunks|
  {
    chunks != [] && (Contains(tail + chunks[0], header) || HeaderSeen(chunks[1..], Tail(chunks[0]), header))
  }

  /** The record made when the events so far allow it for the first time. */
  function RecordOf(events: seq<Event>): Action
    requires Ready(events)
  {
    Record(MarksAfter(events, UNMARKED).id.value, Take(AllText(events), RESPONSE_TEXT_LIMIT))
  }

  function RecordsOf(now: seq<Event>, closed: bool): seq<Action> {
    if !closed && Ready(now) then [RecordOf(now)] else []
  }

  /** Every chunk is yielded; the record, if one is made, comes right before the chunk that completes it. */
  function Actions(parse: Parser, chunks: seq<string>, seen: seq<Event>, recorded: bool): seq<Action>
    decreases |chunks|
  {
    if chunks == [] then []
    else
      var now := seen + parse(chunks[0]);
      RecordsOf(now, recorded) + ([Yield(chunks[0])] + Actions(parse, chunks[1..], now, recorded || Ready(now)))
  }

  /** What the wrapper holds between two chunks. */
  datatype Progress = Progress(stats: Stats, parts: seq<string>, marks: Marks, recorded: bool)

  ghost predicate Follows(p: Progress, seen: seq<Event>, threaded: bool, captures: bool) {
    && p.stats == AllPeaks(seen, Stats(0, 0, 0, 0))
    && |Concat(p.parts)| <= RESPONSE_TEXT_LIMIT
    && (captures ==> Concat(p.parts) == Take(AllText(seen), RESPONSE_TEXT_LIMIT))
    && (!captures ==> p.parts == [])
    && (threaded && !p.recorded ==> p.marks == MarksAfter(seen, UNMARKED))
  }

  /** One chunk: counts, then text, then the Thread. */
  method OneChunk(events: seq<Event>, p: Progress, threaded: bool, captures: bool, ghost seen: seq<Event>)
    returns (r: Progress, actions: seq<Action>)
    requires Follows(p, seen, threaded, captures) && (threaded ==> captures)
    ensures Follows(r, seen + events, threaded, captures)
    ensures r.recorded == (p.recorded || (threaded && Ready(seen + events)))
    ensures actions == RecordsOf(seen + events, !threaded || p.recorded)
  {
    r, actions := p, [];
    var stats := ExtractStats(events, r.stats);
    AllPeaksJoin(seen, events, Stats(0, 0, 0, 0));
    r := r.(stats := stats);
    if captures {
      var parts := ExtractText(events, r.parts);
      AllTextJoins(seen, events);
      TakeJoins(AllText(seen), AllText(events), RESPONSE_TEXT_LIMIT);
      r := r.(parts := parts);
    }
    if threaded && !r.recorded {
      var marks := ExtractThreadMarks(events, r.marks);
      MarksJoin(seen, events, UNMARKED);
      r := r.(marks := marks);
      if marks.stopped && !marks.error && marks.id.Some? {
        actions := [Record(marks.id.value, Concat(r.parts))];
        r := r.(recorded := true);
      }
    }
  }

  /** The status of the request's row. */
  datatype RowStatus = Success | Error | RateLimited

  /**
   `_usage_sse_wrapper`; `threaded` says that the request carried a Thread, `stored` that there
   is another reason to capture the text.  `chunks` is all that upstream sent, and `failure`
   the status of what it raised behind them, if it did.
   */
  method UsageWrapper(parse: Parser, chunks: seq<string>, failure: Option<nat>, threaded: bool, stored: bool)
    returns (counts: Option<Stats>, text: string, actions: seq<Action>, status: RowStatus)
    ensures counts == if failure.Some? then None else Some(AllPeaks(EventsOf(parse, chunks), Stats(0, 0, 0, 0)))
    ensures text == if threaded || stored then Take(AllText(EventsOf(parse, chunks)), RESPONSE_TEXT_LIMIT) else ""
    ensures actions == Actions(parse, chunks, [], !threaded)
    ensures status == if failure == Some(429) then RateLimited
                      else if failure.Some? || HeaderSeen(chunks, "", ERROR_HEADER) then Error else Success
  {
    var stats, errored;
    stats, text, actions, errored := ReadChunks(parse, chunks, threaded, stored);
    if failure.Some? {
      errored := true;
    }
    status := if errored then Error else Success;
    counts := Some(stats);
    if failure.Some? {
      counts := None;
      if failure.value == 429 {
        status := RateLimited;
      }
    }
  }

  /** The loop over the chunks. */
  method ReadChunks(parse: Parser, chunks: seq<string>, threaded: bool, stored: bool)
    returns (stats: Stats, text: string, actions: seq<Action>, errored: bool)
    ensures stats == AllPeaks(EventsOf(parse, chunks), Stats(0, 0, 0, 0))
    ensures text == if threaded || stored then Take(AllText(EventsOf(parse, chunks)), RESPONSE_TEXT_LIMIT) else ""
    ensures actions == Actions(parse, chunks, [], !threaded)
    ensures errored == HeaderSeen(chunks, "", ERROR_HEADER)
  {
    var p := Progress(Stats(0, 0, 0, 0), [], UNMARKED, false);
    actions, errored := [], false;
    var lineTail := "";
    ghost var seen: seq<Event> := [];
    assert chunks[0..] == chunks;
    for i := 0 to |chunks|
      invariant seen == EventsOf(parse, chunks[..i])
      invariant Follows(p, seen, threaded, threaded || stored)
      invariant Actions(parse, chunks, [], !threaded)
             == actions + Actions(parse, chunks[i..], seen, !threaded || p.recorded)
      invariant HeaderSeen(chunks, "", ERROR_HEADER) <==> errored || HeaderSeen(chunks[i..], lineTail, ERROR_HEADER)
    {
      assert chunks[..i + 1][..i] == chunks[..i] && chunks[i..][1..] == chunks[i + 1..];
      var done;
      ghost var now := seen + parse(chunks[i]);
      ghost var closed := !threaded || p.recorded;
      p, done := OneChunk(parse(chunks[i]), p, threaded, threaded || stored, seen);
      ActionsStep(parse, actions, done, chunks[i..], seen, closed);
      if Contains(lineTail + chunks[i], ERROR_HEADER) {
        errored := true;
      }
      lineTail := Tail(chunks[i]);
      actions := actions + done + [Yield(chunks[i])];
      seen := now;
    }
    assert chunks[..|chunks|] == chunks && chunks[|chunks|..] == [];
    stats, text := p.stats, Concat(p.parts);
  }

  lemma ActionsStep(parse: Parser, before: seq<Action>, done: seq<Action>, chunks: seq<string>,
                    seen: seq<Event>, closed: bool)
    requires chunks != [] && done == RecordsOf(seen + parse(chunks[0]), closed)
    ensures before + Actions(parse, chunks, seen, closed)
         == before + done + [Yield(chunks[0])]
            + Actions(parse, chunks[1..], seen + parse(chunks[0]), closed || Ready(seen + parse(chunks[0])))
  {
    var now := seen + parse(chunks[0]);
    var rest := Actions(parse, chunks[1..], now, closed || Ready(now));
    ConcatAssoc(before, done, [Yield(chunks[0])] + rest);
    ConcatAssoc(before + done, [Yield(chunks[0])], rest);
  }

  // ---- What the actions come to ----------------------------------------------

  function Yields(chunks: seq<string>): (r: seq<Action>)
    ensures |r| == |chunks|
  {
    if chunks == [] then [] else [Yield(chunks[0])] + Yields(chunks[1..])
  }

  /** The first chunk whose arrival completes a stop without an error; `seen` came before. */
  function FirstReady(parse: Parser, chunks: seq<string>, seen: seq<Event>): (r: Option<nat>)
    ensures r.Some? ==> r.value < |chunks|
    decreases |chunks|
  {
    if chunks == [] then None
    else if Ready(seen + parse(chunks[0])) then Some(0)
    else
      match FirstReady(parse, chunks[1..], seen + parse(chunks[0]))
      case None => None
      case Some(k) => Some(k + 1)
  }

  lemma {:induction false} RecordedActions(parse: Parser, chunks: seq<string>, seen: seq<Event>)
    ensures Actions(parse, chunks, seen, true) == Yields(chunks)
    decreases |chunks|
  {
    if chunks != [] {
      RecordedActions(parse, chunks[1..], seen + parse(chunks[0]));
      assert [] + ([Yield(chunks[0])] + Yields(chunks[1..])) == Yields(chunks);
    }
  }

  /** `EventsOf`, from the front. */
  lemma {:induction false} EventsFromFront(parse: Parser, chunks: seq<string>)
    requires chunks != []
    ensures EventsOf(parse, chunks) == parse(chunks[0]) + EventsOf(parse, chunks[1..])
  {
    var init, last := chunks[..|chunks| - 1], chunks[|chunks| - 1];
    if |chunks| == 1 {
      assert init == [] && chunks[1..] == [];
      assert EventsOf(parse, init) + parse(last) == parse(last) == parse(last) + [];
    } else {
      EventsFromFront(parse, init);
      assert init[1..] == chunks[1..][..|chunks[1..]| - 1];
      ConcatAssoc(parse(chunks[0]), EventsOf(parse, init[1..]), parse(last));
    }
  }

  lemma SeenThenFront(parse: Parser, chunks: seq<string>, seen: seq<Event>, k: nat)
    requires k < |chunks|
    ensures seen + EventsOf(parse, chunks[..k + 1]) == seen + parse(chunks[0]) + EventsOf(parse, chunks[1..][..k])
  {
    EventsFromFront(parse, chunks[..k + 1]);
    assert chunks[..k + 1][1..] == chunks[1..][..k];
    ConcatAssoc(seen, parse(chunks[0]), EventsOf(parse, chunks[1..][..k]));
  }

  lemma {:induction false} FirstReadyIsFirst(parse: Parser, chunks: seq<string>, seen: seq<Event>, j: nat)
    requires j < |chunks|
    ensures var first := FirstReady(parse, chunks, seen);
            && (first.Some? ==> Ready(seen + EventsOf(parse, chunks[..first.value + 1])))
            && (first == None || j < first.value ==> !Ready(seen + EventsOf(parse, chunks[..j + 1])))
    decreases |chunks|
  {
    var now, rest := seen + parse(chunks[0]), chunks[1..];
    SeenThenFront(parse, chunks, seen, j);
    SeenThenFront(parse, chunks, seen, 0);
    assert EventsOf(parse, rest[..0]) == [] && now + [] == now;
    if !Ready(now) {
      var later := FirstReady(parse, rest, now);
      if later.Some? {
        SeenThenFront(parse, chunks, seen, later.value + 1);
        FirstReadyIsFirst(parse, rest, now, later.value);
      }
      if j > 0 {
        FirstReadyIsFirst(parse, rest, now, j - 1);
      }
    }
  }

  lemma YieldedBefore(first: string, rest: seq<string>, record: Action, k: nat)
    requires k <= |rest|
    ensures [Yield(first)] + (Yields(rest[..k]) + [record] + Yields(rest[k..]))
         == Yields(([first] + rest)[..k + 1]) + [record] + Yields(([first] + rest)[k + 1..])
  {
    assert ([first] + rest)[..k + 1] == [first] + rest[..k] && ([first] + rest)[k + 1..] == rest[k..];
    assert ([first] + rest[..k])[1..] == rest[..k];
    ConcatAssoc([Yield(first)], Yields(rest[..k]) + [record], Yields(rest[k..]));
    ConcatAssoc([Yield(first)], Yields(rest[..k]), [record]);
  }

  lemma NotYetRecorded(parse: Parser, chunks: seq<string>, seen: seq<Event>)
    requires chunks != [] && !Ready(seen + parse(chunks[0]))
    ensures Actions(parse, chunks, seen, false)
         == [Yield(chunks[0])] + Actions(parse, chunks[1..], seen + parse(chunks[0]), false)
  {
    var tail := Actions(parse, chunks[1..], seen + parse(chunks[0]), false);
    assert [] + ([Yield(chunks[0])] + tail) == [Yield(chunks[0])] + tail;
  }

  /** From any point on: at the first chunk that completes the marks, or never. */
  lemma {:induction false} RecordedAtFirstReady(parse: Parser, chunks: seq<string>, seen: seq<Event>)
    ensures var first := FirstReady(parse, chunks, seen);
            && (first == None ==> Actions(parse, chunks, seen, false) == Yields(chunks))
            && (first.Some? ==>
                  var k := first.value;
                  && Ready(seen + EventsOf(parse, chunks[..k + 1]))
                  && Actions(parse, chunks, seen, false)
                     == Yields(chunks[..k]) + [RecordOf(seen + EventsOf(parse, chunks[..k + 1]))] + Yields(chunks[k..]))
    decreases |chunks|
  {
    if chunks != [] {
      var now, rest := seen + parse(chunks[0]), chunks[1..];
      if Ready(now) {
        RecordedNow(parse, chunks, seen);
      } else {
        RecordedAtFirstReady(parse, rest, now);
        NotYetRecorded(parse, chunks, seen);
        var later := FirstReady(parse, rest, now);
        if later.Some? {
          SeenThenFront(parse, chunks, seen, later.value + 1);
          YieldedBefore(chunks[0], rest, RecordOf(now + EventsOf(parse, rest[..later.value + 1])), later.value);
          assert [chunks[0]] + rest == chunks;
        }
      }
    }
  }

  lemma RecordedNow(parse: Parser, chunks: seq<string>, seen: seq<Event>)
    requires chunks != [] && Ready(seen + parse(chunks[0]))
    ensures seen + EventsOf(parse, chunks[..1]) == seen + parse(chunks[0])
    ensures Actions(parse, chunks, seen, false)
         == Yields(chunks[..0]) + [RecordOf(seen + parse(chunks[0]))] + Yields(chunks[0..])
  {
    var now := seen + parse(chunks[0]);
    SeenThenFront(parse, chunks, seen, 0);
    assert EventsOf(parse, chunks[1..][..0]) == [] && now + [] == now;
    RecordedActions(parse, chunks[1..], now);
    assert chunks[0..] == chunks && Yields(chunks[..0]) == [];
    assert [] + [RecordOf(now)] == [RecordOf(now)];
  }

  lemma {:induction false} EventsGrow(parse: Parser, chunks: seq<string>, i: nat, j: nat)
    requires i <= j <= |chunks|
    ensures EventsOf(parse, chunks[..i]) <= EventsOf(parse, chunks[..j])
  {
    if i < j {
      EventsGrow(parse, chunks, i, j - 1);
      assert chunks[..j][..j - 1] == chunks[..j - 1];
    }
  }

  /** The chunks up to `j` hold an id and the stop but no error. */
  predicate ReadyAt(parse: Parser, chunks: seq<string>, j: nat) {
    j < |chunks| && Ready(EventsOf(parse, chunks[..j + 1]))
  }

  lemma NothingSeen(events: seq<Event>)
    ensures [] + events == events
  {
  }

  lemma FirstReadyIsReady(parse: Parser, chunks: seq<string>)
    requires FirstReady(parse, chunks, []).Some?
    ensures ReadyAt(parse, chunks, FirstReady(parse, chunks, []).value)
  {
    var first := FirstReady(parse, chunks, []).value;
    FirstReadyIsFirst(parse, chunks, [], first);
    NothingSeen(EventsOf(parse, chunks[..first + 1]));
  }

  lemma NotReadyBefore(parse: Parser, chunks: seq<string>, j: nat)
    requires FirstReady(parse, chunks, []) == None || j < FirstReady(parse, chunks, []).value
    ensures !ReadyAt(parse, chunks, j)
  {
    if j < |chunks| {
      FirstReadyIsFirst(parse, chunks, [], j);
      NothingSeen(EventsOf(parse, chunks[..j + 1]));
    }
  }

  lemma FirstReadyIs(parse: Parser, chunks: seq<string>, k: nat)
    requires ReadyAt(parse, chunks, k) && forall j: nat :: j < k ==> !ReadyAt(parse, chunks, j)
    ensures FirstReady(parse, chunks, []) == Some(k)
  {
    var first := FirstReady(parse, chunks, []);
    if first == None || k < first.value {
      NotReadyBefore(parse, chunks, k);
    } else if first.value < k {
      FirstReadyIsReady(parse, chunks);
    }
  }

  /**
   The client gets every chunk, in order.  The Thread is recorded at most once: right before
   the first chunk that makes an id, the stop and no error complete is yielded, under the id
   that the last `MessageStart` so far gives it and with the text of the deltas so far.
   */
  lemma RecordedRightBeforeItsStop(parse: Parser, chunks: seq<string>, k: nat, events: seq<Event>, i: nat,
                                   texts: seq<string>)
    requires ReadyAt(parse, chunks, k) && forall j: nat :: j < k ==> !ReadyAt(parse, chunks, j)
    requires events == EventsOf(parse, chunks[..k + 1])
    requires IsLastStart(events, i) && Picks(events, texts, IsTextDelta, DeltaText)
    ensures var text := Concat(texts);
            var record := Record(events[i].id.value, if |text| <= 1048576 then text else text[..1048576]);
            Actions(parse, chunks, [], false) == Yields(chunks[..k]) + [record] + Yields(chunks[k..])
  {
    FirstReadyIs(parse, chunks, k);
    RecordedAtFirstReady(parse, chunks, []);
    NothingSeen(events);
    LastStartIsMarked(events, i);
    TextIsAllDeltas(events);
    PicksIsExact(events, texts, Deltas(events), IsTextDelta, DeltaText);
  }

  /** It is recorded if and only if some chunk completes the marks. */
  lemma RecordedWhenReady(parse: Parser, chunks: seq<string>)
    ensures Actions(parse, chunks, [], false) == Yields(chunks) <==> forall j: nat :: !ReadyAt(parse, chunks, j)
  {
    RecordedAtFirstReady(parse, chunks, []);
    var first := FirstReady(parse, chunks, []);
    if first == None {
      forall j: nat ensures !ReadyAt(parse, chunks, j) {
        NotReadyBefore(parse, chunks, j);
      }
    } else {
      FirstReadyIsReady(parse, chunks);
      assert |Actions(parse, chunks, [], false)| == |chunks| + 1;
    }
  }

  lemma NeverReadyAgain(parse: Parser, chunks: seq<string>, j: nat, k: nat)
    requires j <= k < |chunks| && ErrorEvent in EventsOf(parse, chunks[..j + 1])
    ensures !ReadyAt(parse, chunks, k)
  {
    MarksMean(EventsOf(parse, chunks[..k + 1]));
    EventsGrow(parse, chunks, j + 1, k + 1);
  }

  /** An error costs the Thread its record for good, unless an earlier chunk had completed the marks. */
  lemma ErrorForbidsTheRecord(parse: Parser, chunks: seq<string>, j: nat)
    requires j < |chunks| && ErrorEvent in EventsOf(parse, chunks[..j + 1])
    ensures Actions(parse, chunks, [], false) == Yields(chunks)
            <==> forall i: nat :: i < j ==> !ReadyAt(parse, chunks, i)
  {
    RecordedWhenReady(parse, chunks);
    forall k: nat | j <= k ensures !ReadyAt(parse, chunks, k) {
      if k < |chunks| {
        NeverReadyAgain(parse, chunks, j, k);
      }
    }
  }

  // ---- The error header ------------------------------------------------------

  lemma {:induction false} ContainsWithin(a: string, b: string, part: string)
    ensures Contains(a, part) ==> Contains(a + b, part)
    ensures Contains(b, part) ==> Contains(a + b, part)
  {
    if a == "" {
      assert a + b == b;
    } else {
      assert (a + b)[1..] == a[1..] + b;
      ContainsWithin(a[1..], b, part);
      if part <= a {
        assert a + b == part + (a[|part|..] + b);
      }
    }
  }

  lemma LongPartHoldsNewline(a: string, b: string, part: string)
    requires a != "" && a[|a| - 1] == '\n' && part <= a + b
    ensures |part| >= |a| ==> '\n' in part
  {
    if |part| >= |a| {
      assert part[|a| - 1] == (a + b)[|a| - 1];
    }
  }

  /** A part without a newline cannot straddle one. */
  lemma {:induction false} ContainsEither(a: string, b: string, part: string)
    requires a != "" && a[|a| - 1] == '\n' && '\n' !in part && part != ""
    ensures Contains(a + b, part) <==> Contains(a, part) || Contains(b, part)
  {
    ContainsWithin(a, b, part);
    assert (a + b)[1..] == a[1..] + b;
    if part <= a + b {
      LongPartHoldsNewline(a, b, part);
      assert part == (a + b)[..|part|] == a[..|part|];
    }
    if |a| > 1 {
      ContainsEither(a[1..], b, part);
    } else {
      assert a[1..] + b == b;
      assert a[1..] == "" && !Contains("", part);
    }
  }

  predicate AllTerminated(chunks: seq<string>) {
    chunks == [] || (chunks[0] != "" && chunks[0][|chunks[0]| - 1] == '\n' && AllTerminated(chunks[1..]))
  }

  lemma TailKeepsEnd(chunk: string, part: string)
    requires chunk != "" && chunk[|chunk| - 1] == '\n'
    ensures Tail(chunk) != "" && Tail(chunk)[|Tail(chunk)| - 1] == '\n'
    ensures Contains(Tail(chunk), part) ==> Contains(chunk, part)
  {
    if |chunk| > TAIL {
      var cut := |chunk| - TAIL;
      assert chunk == chunk[..cut] + chunk[cut..];
      ContainsWithin(chunk[..cut], chunk[cut..], part);
    }
  }

  /** Looking at each chunk behind the tail of the last one finds the header exactly when the stream holds it. */
  lemma {:induction false} HeaderIsFound(chunks: seq<string>, tail: string, part: string)
    requires AllTerminated(chunks) && '\n' !in part && part != ""
    requires tail == "" || (tail[|tail| - 1] == '\n' && !Contains(tail, part))
    ensures HeaderSeen(chunks, tail, part) <==> Contains(Concat(chunks), part)
    decreases |chunks|
  {
    if chunks != [] {
      if tail != "" {
        ContainsEither(tail, chunks[0], part);
      } else {
        assert tail + chunks[0] == chunks[0];
      }
      ContainsEither(chunks[0], Concat(chunks[1..]), part);
      TailKeepsEnd(chunks[0], part);
      if !Contains(chunks[0], part) {
        HeaderIsFound(chunks[1..], Tail(chunks[0]), part);
      }
    }
  }

  lemma {:induction false} TerminatedFrom(chunks: seq<string>)
    requires forall i :: 0 <= i < |chunks| ==> chunks[i] != "" && chunks[i][|chunks[i]| - 1] == '\n'
    ensures AllTerminated(chunks)
  {
    if chunks != [] {
      forall i | 0 <= i < |chunks[1..]| ensures chunks[1..][i] != "" && chunks[1..][i][|chunks[1..][i]| - 1] == '\n' {
        assert chunks[1..][i] == chunks[i + 1];
      }
      TerminatedFrom(chunks[1..]);
    }
  }

  /** So a streamed response is an error to the database exactly when some chunk names one, however it arrived. */
  lemma StreamErrorIsFound(decode: Decoder, s: seq<Byte>)
    ensures HeaderSeen(ChunksOf(decode, s), "", ERROR_HEADER) <==> Contains(Concat(ChunksOf(decode, s)), "event: error")
  {
    var chunks := ChunksOf(decode, s);
    forall i | 0 <= i < |chunks| ensures chunks[i] != "" && chunks[i][|chunks[i]| - 1] == '\n' {
      ChunksAreWhole(decode, s, i);
    }
    TerminatedFrom(chunks);
    HeaderIsFound(chunks, "", ERROR_HEADER);
  }
}
