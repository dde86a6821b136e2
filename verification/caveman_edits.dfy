/**
 Edit operations confined to communication sections (`anthrouter/caveman_rewrite.py`).

 A prompt is cut into markdown sections.  An edit names a unique substring that lies in a
 communication section and touches neither a heading line nor a caveman ruleset section.
 */
module CavemanEdits {
  import opened Common

  /** Which heading titles open a communication section, and which a ruleset section. */
  datatype Vocabulary = Vocabulary(comm: string -> bool, ruleset: string -> bool)

  // ---- Headings and sections -------------------------------------------------

  datatype Heading = Heading(start: nat, end: nat, level: nat, title: string)
  datatype Section = Section(start: nat, end: nat)

  predicate IsBlankChar(c: char) { c == ' ' || c == '\t' }

  /** Where the hashes from position `i` on end. */
  function HashesEnd(line: string, i: nat): (n: nat)
    requires i <= |line|
    ensures i <= n <= |line|
    decreases |line| - i
  {
    if i < |line| && line[i] == '#' then HashesEnd(line, i + 1) else i
  }

  function Hashes(line: string): (n: nat)
    ensures n <= |line|
  {
    HashesEnd(line, 0)
  }

  /** One to six hashes, a blank, and at least one more character. */
  predicate IsHeading(line: string) {
    var n := Hashes(line);
    1 <= n <= 6 && n + 2 <= |line| && IsBlankChar(line[n])
  }

  function SkipBlanks(s: string): string {
    if s != [] && IsBlankChar(s[0]) then SkipBlanks(s[1..]) else s
  }

  function TrimBlanks(s: string): string {
    if s != [] && IsBlankChar(s[|s| - 1]) then TrimBlanks(s[..|s| - 1]) else s
  }

  /** The title: blanks around it are not part of it, but it is never empty. */
  function TitleOf(line: string): string
    requires IsHeading(line)
  {
    var rest := SkipBlanks(line[Hashes(line)..]);
    if rest == [] then line[|line| - 1..] else TrimBlanks(rest)
  }

  function LineEnd(t: string, p: nat): (q: nat)
    requires p <= |t|
    ensures p <= q <= |t|
    ensures q < |t| ==> t[q] == '\n'
    decreases |t| - p
  {
    if p == |t| || t[p] == '\n' then p else LineEnd(t, p + 1)
  }

  /** What a line reads as when it is a heading. */
  datatype Title = Title(level: nat, text: string)

  function ReadHeading(line: string): Option<Title> {
    if IsHeading(line) then Some(Title(Hashes(line), TitleOf(line))) else None
  }

  /** What lines read as headings; an empty one never does. */
  type Reader = read: string -> Option<Title> | read("") == None witness line => None

  const READER: Reader := ReadHeading

  /** The heading that the line `t[p..e]` is, if it reads as one. */
  function HeadingOn(read: Reader, t: string, p: nat, e: nat): seq<Heading>
    requires p <= e <= |t|
  {
    match read(t[p..e])
    case None => []
    case Some(title) => [Heading(p, e, title.level, title.text)]
  }

  function HeadingsFrom(read: Reader, t: string, p: nat): seq<Heading>
    requires p <= |t|
    decreases |t| - p, 1
  {
    var e := LineEnd(t, p);
    HeadingOn(read, t, p, e) + HeadingsBehind(read, t, e)
  }

  /** The headings on the lines behind the one that ends at `e`. */
  function HeadingsBehind(read: Reader, t: string, e: nat): seq<Heading>
    requires e <= |t|
    decreases |t| - e, 0
  {
    if e < |t| then HeadingsFrom(read, t, e + 1) else []
  }

  function Headings(t: string): seq<Heading> {
    HeadingsFrom(READER, t, 0)
  }

  /** Start of the next heading of the same or a higher level, or the end of the text. */
  function SectionEnd(t: string, hs: seq<Heading>, level: nat): nat {
    if hs == [] then |t| else if hs[0].level <= level then hs[0].start else SectionEnd(t, hs[1..], level)
  }

  function SectionsOf(t: string, hs: seq<Heading>, opens: Heading -> bool): seq<Section> {
    if hs == [] then []
    else (if opens(hs[0]) then [Section(hs[0].start, SectionEnd(t, hs[1..], hs[0].level))] else [])
         + SectionsOf(t, hs[1..], opens)
  }

  function OpensRuleset(v: Vocabulary): Heading -> bool {
    (h: Heading) => v.ruleset(h.title)
  }

  function RulesetSections(t: string, v: Vocabulary): seq<Section> {
    SectionsOf(t, Headings(t), OpensRuleset(v))
  }

  predicate InSections(sections: seq<Section>, p: nat) {
    exists i :: 0 <= i < |sections| && sections[i].start <= p < sections[i].end
  }

  function OpensComm(v: Vocabulary, ruleset: seq<Section>): Heading -> bool {
    (h: Heading) => v.comm(h.title) && !InSections(ruleset, h.start)
  }

  function CommSections(t: string, v: Vocabulary): seq<Section> {
    SectionsOf(t, Headings(t), OpensComm(v, RulesetSections(t, v)))
  }

  // ---- Edits -----------------------------------------------------------------

  /** An element of the model's reply; a malformed one lacks its two strings. */
  datatype Op = Op(find: string, replace: string) | Malformed

  datatype Span = Span(start: nat, end: nat, replace: string)

  function Delta(s: Span): int {
    |s.replace| - (s.end - s.start)
  }

  predicate OccursAt(t: string, f: string, p: nat) {
    p + |f| <= |t| && t[p..p + |f|] == f
  }

  /** Python's `text.find(f, from)`, or -1. */
  function FindFrom(t: string, f: string, from: nat): (p: int)
    ensures p == -1 || (from <= p && OccursAt(t, f, p))
    ensures forall q :: from <= q && (p == -1 || q < p) ==> !OccursAt(t, f, q)
    decreases |t| - from
  {
    if from + |f| > |t| then -1
    else if OccursAt(t, f, from) then from
    else FindFrom(t, f, from + 1)
  }

  predicate Apart(aStart: nat, aEnd: nat, bStart: nat, bEnd: nat) {
    aEnd <= bStart || bEnd <= aStart
  }

  /** Where an op lands, or `None` when it is invalid. */
  function SpanOf(t: string, v: Vocabulary, op: Op): (r: Option<Span>)
    ensures r.Some? ==> r.value.start < r.value.end <= |t|
  {
    if op.Malformed? || op.find == "" then None
    else
      var start := FindFrom(t, op.find, 0);
      if start < 0 || FindFrom(t, op.find, start + 1) >= 0 then None
      else
        var end := start + |op.find|;
        if !InSomeSection(CommSections(t, v), start, end)
           || !ApartFromSections(RulesetSections(t, v), start, end)
           || !ApartFromHeadings(Headings(t), start, end) then None
        else Some(Span(start, end, op.replace))
  }

  predicate InSomeSection(sections: seq<Section>, start: nat, end: nat) {
    exists i :: 0 <= i < |sections| && sections[i].start <= start && end <= sections[i].end
  }

  predicate ApartFromSections(sections: seq<Section>, start: nat, end: nat) {
    forall i :: 0 <= i < |sections| ==> Apart(start, end, sections[i].start, sections[i].end)
  }

  predicate ApartFromHeadings(hs: seq<Heading>, start: nat, end: nat) {
    forall i :: 0 <= i < |hs| ==> Apart(start, end, hs[i].start, hs[i].end)
  }

  predicate AllValid(t: string, v: Vocabulary, ops: seq<Op>) {
    forall i :: 0 <= i < |ops| ==> SpanOf(t, v, ops[i]).Some?
  }

  function SpansOf(t: string, v: Vocabulary, ops: seq<Op>): (r: seq<Span>)
    requires AllValid(t, v, ops)
    ensures |r| == |ops|
    ensures forall i :: 0 <= i < |r| ==> r[i].start < r[i].end <= |t|
  {
    seq(|ops|, i requires 0 <= i < |ops| => SpanOf(t, v, ops[i]).value)
  }

  function InsertSpan(x: Span, s: seq<Span>): seq<Span> {
    if s == [] || x.start <= s[0].start then [x] + s else [s[0]] + InsertSpan(x, s[1..])
  }

  /** By start; a tie is an overlap, so its order never matters. */
  function SortSpans(s: seq<Span>): seq<Span> {
    if s == [] then [] else InsertSpan(s[0], SortSpans(s[1..]))
  }

  /** Each span ends before the next one starts. */
  predicate Ordered(s: seq<Span>, from: nat, len: nat) {
    if s == [] then from <= len
    else from <= s[0].start < s[0].end <= len && Ordered(s[1..], s[0].end, len)
  }

  function Build(t: string, spans: seq<Span>, pos: nat): string
    requires Ordered(spans, pos, |t|)
  {
    if spans == [] then t[pos..]
    else t[pos..spans[0].start] + spans[0].replace + Build(t, spans[1..], spans[0].end)
  }

  /** The result and the number of edits, or `None` when any op is invalid or two overlap. */
  function Edited(t: string, v: Vocabulary, ops: seq<Op>): Option<(string, nat)> {
    if AllValid(t, v, ops) && Ordered(SortSpans(SpansOf(t, v, ops)), 0, |t|)
    then Some((Build(t, SortSpans(SpansOf(t, v, ops)), 0), |ops|))
    else None
  }

  // ---- The loops of `apply_edits` --------------------------------------------

  predicate Increasing(s: seq<Span>) {
    |s| < 2 || (s[0].start <= s[1].start && Increasing(s[1..]))
  }

  lemma {:induction false} InsertIncreasing(x: Span, s: seq<Span>)
    requires Increasing(s)
    ensures Increasing(InsertSpan(x, s))
  {
    if s != [] && x.start > s[0].start {
      InsertIncreasing(x, s[1..]);
    }
  }

  lemma {:induction false} SortIncreasing(s: seq<Span>)
    ensures Increasing(SortSpans(s)) && |SortSpans(s)| == |s|
    ensures multiset(SortSpans(s)) == multiset(s)
  {
    if s != [] {
      SortIncreasing(s[1..]);
      InsertIncreasing(s[0], SortSpans(s[1..]));
      InsertMultiset(s[0], SortSpans(s[1..]));
      assert s == [s[0]] + s[1..];
    }
  }

  lemma {:induction false} InsertMultiset(x: Span, s: seq<Span>)
    ensures multiset(InsertSpan(x, s)) == multiset{x} + multiset(s)
    ensures |InsertSpan(x, s)| == |s| + 1
  {
    if s != [] && x.start > s[0].start {
      InsertMultiset(x, s[1..]);
      assert s == [s[0]] + s[1..];
    }
  }

  predicate NeighboursApart(s: seq<Span>) {
    forall i :: 0 < i < |s| ==> s[i - 1].end <= s[i].start
  }

  /** Ordering, as the comparison of neighbours that the source makes. */
  lemma {:induction false} OrderedByNeighbours(s: seq<Span>, from: nat, len: nat)
    requires from <= len
    requires forall i :: 0 <= i < |s| ==> s[i].start < s[i].end <= len
    ensures Ordered(s, from, len) <==> NeighboursApart(s) && (s != [] ==> from <= s[0].start)
  {
    if s != [] {
      var rest := s[1..];
      OrderedByNeighbours(rest, s[0].end, len);
      if NeighboursApart(rest) && (rest != [] ==> s[0].end <= rest[0].start) {
        forall i | 0 < i < |s| ensures s[i - 1].end <= s[i].start {
          if i > 1 {
            assert rest[i - 2].end <= rest[i - 1].start;
          }
        }
      }
      if NeighboursApart(s) {
        forall i | 0 < i < |rest| ensures rest[i - 1].end <= rest[i].start {
          assert s[i].end <= s[i + 1].start;
        }
      }
    }
  }

  method ApplyEdits(t: string, v: Vocabulary, ops: Option<seq<Op>>) returns (r: Option<(string, nat)>)
    ensures r == if ops == None then None else Edited(t, v, ops.value)
  {
    if ops == None {
      return None;
    }
    var spans := Validate(t, v, ops.value);
    if spans == None {
      return None;
    }
    var sorted := SortSpans(spans.value);
    var disjoint := CheckOrder(t, sorted, spans.value);
    if !disjoint {
      return None;
    }
    var out := Splice(t, sorted);
    return Some((out, |sorted|));
  }

  method Validate(t: string, v: Vocabulary, ops: seq<Op>) returns (spans: Option<seq<Span>>)
    ensures spans == if AllValid(t, v, ops) then Some(SpansOf(t, v, ops)) else None
  {
    var found: seq<Span> := [];
    for i := 0 to |ops|
      invariant |found| == i
      invariant forall j :: 0 <= j < i ==> SpanOf(t, v, ops[j]) == Some(found[j])
    {
      var span := SpanOf(t, v, ops[i]);
      if span == None {
        return None;
      }
      found := found + [span.value];
    }
    assert found == SpansOf(t, v, ops);
    return Some(found);
  }

  method CheckOrder(t: string, spans: seq<Span>, ghost unsorted: seq<Span>) returns (ok: bool)
    requires spans == SortSpans(unsorted)
    requires forall i :: 0 <= i < |unsorted| ==> unsorted[i].start < unsorted[i].end <= |t|
    ensures ok == Ordered(spans, 0, |t|) && |spans| == |unsorted|
  {
    SortIncreasing(unsorted);
    forall i | 0 <= i < |spans| ensures spans[i].start < spans[i].end <= |t| {
      assert spans[i] in multiset(spans);
      assert spans[i] in unsorted;
    }
    OrderedByNeighbours(spans, 0, |t|);
    var i := 1;
    while i < |spans|
      invariant forall j :: 0 < j < i && j < |spans| ==> spans[j - 1].end <= spans[j].start
    {
      if spans[i].start < spans[i - 1].end {
        return false;
      }
      i := i + 1;
    }
    return true;
  }

  method Splice(t: string, spans: seq<Span>) returns (r: string)
    requires Ordered(spans, 0, |t|)
    ensures r == Build(t, spans, 0)
  {
    var out, pos, i := "", 0, 0;
    while i < |spans|
      invariant 0 <= i <= |spans| && 0 <= pos <= |t|
      invariant Ordered(spans[i..], pos, |t|)
      invariant out + Build(t, spans[i..], pos) == Build(t, spans, 0)
    {
      var s := spans[i];
      assert spans[i..][1..] == spans[i + 1..];
      assert Build(t, spans[i..], pos) == t[pos..s.start] + s.replace + Build(t, spans[i + 1..], s.end);
      assert out + (t[pos..s.start] + s.replace + Build(t, spans[i + 1..], s.end))
          == out + t[pos..s.start] + s.replace + Build(t, spans[i + 1..], s.end);
      out := out + t[pos..s.start] + s.replace;
      pos := s.end;
      i := i + 1;
    }
    return out + t[pos..];
  }
}
