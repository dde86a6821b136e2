/**
 When the section structure of a prompt survives its edits.

 `apply_edits` promises that it does.  It does if and only if every edited stretch between
 two headings still begins and ends with a line break and holds no heading of its own.
 */
module CavemanStructure {
  import opened Common
  import opened CavemanEdits
  import opened CavemanConfinement
  import opened HeadingLines

  // ---- The stretches of an edited prompt -------------------------------------

  predicate AvoidHeadings(hs: seq<Heading>, spans: seq<Span>) {
    forall i :: 0 <= i < |hs| ==> AllAvoid(spans, hs[i].start, hs[i].end)
  }

  /** How many of the ordered spans end by `q`. */
  function Cut(spans: seq<Span>, q: nat): (k: nat)
    ensures k <= |spans|
  {
    if spans == [] || spans[0].end > q then 0 else 1 + Cut(spans[1..], q)
  }

  /** The text from `pos` to `end` as edited. */
  function Stretch(t: string, spans: seq<Span>, pos: nat, end: nat): string
    requires end <= |t|
  {
    var mine := spans[..Cut(spans, end)];
    if Ordered(mine, pos, end) then Build(t[..end], mine, pos) else ""
  }

  /**
   Every stretch between two of the headings `hs`, as edited, is whole lines.  `before` is what
   precedes the first stretch: a line break where the text starts, for its two ends count as breaks.
   */
  predicate StretchesAreLines(read: Reader, t: string, spans: seq<Span>, hs: seq<Heading>, pos: nat, before: string)
    requires Laid(read, t, hs, pos)
    decreases |hs|
  {
    if hs == [] then WholeLines(read, before + (Stretch(t, spans, pos, |t|) + ['\n']))
    else
      && WholeLines(read, before + Stretch(t, spans, pos, hs[0].start))
      && StretchesAreLines(read, t, spans[Cut(spans, hs[0].start)..], hs[1..], hs[0].end, "")
  }

  /** Where a place at `p` is, counted from `pos`, after the edits behind `pos`. */
  function Placed(spans: seq<Span>, pos: nat, p: nat): nat {
    if p - pos + Shift(spans, p) >= 0 then p - pos + Shift(spans, p) else 0
  }

  function MovedFrom(hs: seq<Heading>, spans: seq<Span>, pos: nat): (r: seq<Heading>)
    ensures |r| == |hs|
  {
    seq(|hs|, i requires 0 <= i < |hs| =>
      Heading(Placed(spans, pos, hs[i].start), Placed(spans, pos, hs[i].end), hs[i].level, hs[i].title))
  }

  lemma {:induction false} CutSplits(t: string, spans: seq<Span>, pos: nat, a: nat, b: nat)
    requires Ordered(spans, pos, |t|) && pos <= a < b <= |t| && AllAvoid(spans, a, b)
    ensures var k := Cut(spans, a);
            && Ordered(spans[..k], pos, a) && Ordered(spans[k..], b, |t|)
            && Build(t, spans, pos) == Build(t[..a], spans[..k], pos) + (t[a..b] + Build(t, spans[k..], b))
  {
    var k := Cut(spans, a);
    if k == 0 {
      NoneCut(t, spans, pos, a, b);
    } else {
      var s, rest := spans[0], spans[1..];
      CutSplits(t, rest, s.end, a, b);
      assert spans[..k] == [s] + rest[..k - 1] && spans[k..] == rest[k - 1..];
      FirstCut(t, s, rest[..k - 1], Build(t, rest, s.end), pos, a, t[a..b] + Build(t, spans[k..], b));
    }
  }

  lemma NoneCut(t: string, spans: seq<Span>, pos: nat, a: nat, b: nat)
    requires Ordered(spans, pos, |t|) && pos <= a < b <= |t| && AllAvoid(spans, a, b) && Cut(spans, a) == 0
    ensures Ordered(spans[..0], pos, a) && Ordered(spans[0..], b, |t|) && spans[..0] == [] && spans[0..] == spans
    ensures Build(t, spans, pos) == Build(t[..a], [], pos) + (t[a..b] + Build(t, spans, b))
  {
    assert t[..a][pos..] == t[pos..a];
    if spans == [] {
      assert t[pos..] == t[pos..a] + (t[a..b] + t[b..]);
    } else {
      var s := spans[0];
      assert t[pos..s.start] == t[pos..a] + (t[a..b] + t[b..s.start]);
      JoinThree(t[pos..a], t[a..b], t[b..s.start], s.replace, Build(t, spans[1..], s.end));
    }
  }

  lemma JoinThree(a: string, b: string, c: string, d: string, e: string)
    ensures a + (b + c) + d + e == a + (b + (c + d + e))
  {
  }

  lemma FirstCut(t: string, s: Span, mine: seq<Span>, all: string, pos: nat, a: nat, rest: string)
    requires pos <= s.start < s.end <= a <= |t| && Ordered(mine, s.end, a)
    requires all == Build(t[..a], mine, s.end) + rest
    ensures Ordered([s] + mine, pos, a)
    ensures t[pos..s.start] + s.replace + all == Build(t[..a], [s] + mine, pos) + rest
  {
    assert ([s] + mine)[1..] == mine && t[..a][pos..s.start] == t[pos..s.start];
    ConcatAssoc(t[pos..s.start] + s.replace, Build(t[..a], mine, s.end), rest);
  }

  lemma {:induction false} CutAll(spans: seq<Span>, pos: nat, len: nat)
    requires Ordered(spans, pos, len)
    ensures Cut(spans, len) == |spans|
  {
    if spans != [] {
      CutAll(spans[1..], spans[0].end, len);
    }
  }

  lemma LastStretch(t: string, spans: seq<Span>, pos: nat)
    requires Ordered(spans, pos, |t|)
    ensures Stretch(t, spans, pos, |t|) == Build(t, spans, pos)
  {
    CutAll(spans, pos, |t|);
    assert spans[..|spans|] == spans && t[..|t|] == t;
  }

  // ---- Moved headings, step by step ------------------------------------------

  lemma {:induction false} ShiftSplits(spans: seq<Span>, k: nat, p: nat)
    requires k <= |spans|
    ensures Shift(spans, p) == Shift(spans[..k], p) + Shift(spans[k..], p)
  {
    if k > 0 {
      ShiftSplits(spans[1..], k - 1, p);
      assert spans[1..][..k - 1] == spans[..k][1..] && spans[1..][k - 1..] == spans[k..];
    } else {
      assert spans[..0] == [] && spans[0..] == spans;
    }
  }

  lemma {:induction false} ShiftIsWhole(spans: seq<Span>, pos: nat, a: nat, p: nat)
    requires Ordered(spans, pos, a) && a <= p
    ensures Shift(spans, p) == Shift(spans, a)
  {
    if spans != [] {
      OrderedMembers(spans, pos, a);
      ShiftIsWhole(spans[1..], spans[0].end, a, p);
    }
  }

  lemma PlacedIsExact(spans: seq<Span>, pos: nat, len: nat, p: nat)
    requires Ordered(spans, pos, len) && pos <= p <= len
    requires forall s :: s in spans ==> s.end <= p || p <= s.start
    ensures Placed(spans, pos, p) == p - pos + Shift(spans, p)
  {
    NoShiftBefore(spans, pos, len, pos);
    OrderedMembers(spans, pos, len);
    ShiftKeepsOrder(spans, pos, len, pos, p);
  }

  lemma {:induction false} AvoidMembers(spans: seq<Span>, a: nat, b: nat)
    requires AllAvoid(spans, a, b)
    ensures forall s :: s in spans ==> Apart(s.start, s.end, a, b)
  {
    if spans != [] {
      AvoidMembers(spans[1..], a, b);
    }
  }

  lemma AvoidLater(hs: seq<Heading>, spans: seq<Span>, k: nat)
    requires hs != [] && k <= |spans| && AvoidHeadings(hs, spans)
    ensures AvoidHeadings(hs[1..], spans[k..])
  {
    forall i | 0 <= i < |hs[1..]| ensures AllAvoid(spans[k..], hs[1..][i].start, hs[1..][i].end) {
      assert hs[1..][i] == hs[i + 1];
      AvoidMembers(spans, hs[i + 1].start, hs[i + 1].end);
      AvoidEach(spans[k..], hs[i + 1].start, hs[i + 1].end);
    }
  }

  /** The place of a protected boundary, from the heading at `a` on. */
  lemma PlacedStep(t: string, spans: seq<Span>, pos: nat, a: nat, b: nat, p: nat)
    requires Ordered(spans, pos, |t|) && pos <= a < b <= p <= |t| && AllAvoid(spans, a, b)
    requires forall s :: s in spans ==> s.end <= p || p <= s.start
    ensures Placed(spans, pos, p) == Placed(spans[Cut(spans, a)..], b, p) + (b - a) + |Stretch(t, spans, pos, a)|
  {
    var k := Cut(spans, a);
    CutSplits(t, spans, pos, a, b);
    PlacedIsExact(spans, pos, |t|, p);
    PlacedIsExact(spans[k..], b, |t|, p);
    ShiftSplits(spans, k, p);
    ShiftIsWhole(spans[..k], pos, a, p);
    BuildLength(t[..a], spans[..k], pos);
  }

  lemma PlacedAtHeading(t: string, spans: seq<Span>, pos: nat, a: nat, b: nat)
    requires Ordered(spans, pos, |t|) && pos <= a < b <= |t| && AllAvoid(spans, a, b)
    ensures Placed(spans, pos, a) == |Stretch(t, spans, pos, a)|
    ensures Placed(spans, pos, b) == |Stretch(t, spans, pos, a)| + (b - a)
  {
    var k := Cut(spans, a);
    AvoidMembers(spans, a, b);
    OrderedMembers(spans, pos, |t|);
    CutSplits(t, spans, pos, a, b);
    PlacedStep(t, spans, pos, a, b, b);
    NoShiftBefore(spans[k..], b, |t|, b);
    PlacedIsExact(spans, pos, |t|, a);
    ShiftSplits(spans, k, a);
    NoShiftBefore(spans[k..], b, |t|, a);
    BuildLength(t[..a], spans[..k], pos);
  }

  /** The first heading and those behind it, seen from the start of the first. */
  function Expected(h: Heading, later: seq<Heading>): seq<Heading>
    requires h.start <= h.end
  {
    [Heading(0, h.end - h.start, h.level, h.title)] + Translate(later, h.end - h.start)
  }

  lemma MovedLater(read: Reader, t: string, spans: seq<Span>, hs: seq<Heading>, pos: nat, i: nat)
    requires hs != [] && Ordered(spans, pos, |t|) && Laid(read, t, hs, pos) && AvoidHeadings(hs, spans) && 0 < i < |hs|
    ensures var n := hs[0].end - hs[0].start + |Stretch(t, spans, pos, hs[0].start)|;
            var later := spans[Cut(spans, hs[0].start)..];
            && Placed(spans, pos, hs[i].start) == Placed(later, hs[0].end, hs[i].start) + n
            && Placed(spans, pos, hs[i].end) == Placed(later, hs[0].end, hs[i].end) + n
  {
    LaidInside(read, t, hs[1..], hs[0].end, i - 1);
    AvoidMembers(spans, hs[i].start, hs[i].end);
    OrderedMembers(spans, pos, |t|);
    PlacedStep(t, spans, pos, hs[0].start, hs[0].end, hs[i].start);
    PlacedStep(t, spans, pos, hs[0].start, hs[0].end, hs[i].end);
  }

  lemma ExpectedAt(h: Heading, later: seq<Heading>, n: nat, i: nat)
    requires h.start <= h.end && i <= |later|
    ensures |Translate(Expected(h, later), n)| == 1 + |later|
    ensures i == 0 ==> Translate(Expected(h, later), n)[i] == Heading(n, h.end - h.start + n, h.level, h.title)
    ensures i > 0 ==>
              var m, d := later[i - 1], h.end - h.start + n;
              Translate(Expected(h, later), n)[i] == Heading(m.start + d, m.end + d, m.level, m.title)
  {
    if i > 0 {
      assert Expected(h, later)[i] == Translate(later, h.end - h.start)[i - 1];
    }
  }

  lemma MovedAt(read: Reader, t: string, spans: seq<Span>, hs: seq<Heading>, pos: nat, i: nat,
                later: seq<Heading>, n: nat)
    requires hs != [] && Ordered(spans, pos, |t|) && Laid(read, t, hs, pos) && AvoidHeadings(hs, spans) && i < |hs|
    requires later == MovedFrom(hs[1..], spans[Cut(spans, hs[0].start)..], hs[0].end)
    requires n == |Stretch(t, spans, pos, hs[0].start)|
    ensures hs[0].start <= hs[0].end && MovedFrom(hs, spans, pos)[i] == Translate(Expected(hs[0], later), n)[i]
  {
    ExpectedAt(hs[0], later, n, i);
    if i > 0 {
      MovedLater(read, t, spans, hs, pos, i);
      assert hs[1..][i - 1] == hs[i];
    } else {
      PlacedAtHeading(t, spans, pos, hs[0].start, hs[0].end);
    }
  }

  lemma MovedStep(read: Reader, t: string, spans: seq<Span>, hs: seq<Heading>, pos: nat)
    requires hs != [] && Ordered(spans, pos, |t|) && Laid(read, t, hs, pos) && AvoidHeadings(hs, spans)
    ensures var later := MovedFrom(hs[1..], spans[Cut(spans, hs[0].start)..], hs[0].end);
            MovedFrom(hs, spans, pos) == Translate(Expected(hs[0], later), |Stretch(t, spans, pos, hs[0].start)|)
  {
    var n := |Stretch(t, spans, pos, hs[0].start)|;
    var later := MovedFrom(hs[1..], spans[Cut(spans, hs[0].start)..], hs[0].end);
    var moved, expected := MovedFrom(hs, spans, pos), Translate(Expected(hs[0], later), n);
    ExpectedAt(hs[0], later, n, 0);
    forall i | 0 <= i < |hs| ensures moved[i] == expected[i] {
      MovedAt(read, t, spans, hs, pos, i, later, n);
    }
    SameElements(moved, expected);
  }

  lemma SameElements<T>(a: seq<T>, b: seq<T>)
    requires |a| == |b| && forall i :: 0 <= i < |a| ==> a[i] == b[i]
    ensures a == b
  {
  }

  // ---- The exact condition ---------------------------------------------------

  /** The rest of an edited prompt from `pos` on, closed by a line break. */
  function Rest(t: string, spans: seq<Span>, pos: nat): string
    requires Ordered(spans, pos, |t|)
  {
    Build(t, spans, pos) + ['\n']
  }

  /** `before` opens the stretch behind `line`: it is a line break exactly when there is no line. */
  predicate Opens(read: Reader, line: string, before: string) {
    if line == "" then before == "\n" else before == "" && '\n' !in line && read(line).Some?
  }

  /** The headings of the rest behind `line` are where the edits put those of the prompt. */
  predicate HeadingsMoved(read: Reader, t: string, spans: seq<Span>, hs: seq<Heading>,
                          pos: nat, line: string, before: string)
    requires Ordered(spans, pos, |t|)
  {
    Follows(read, line, before + Rest(t, spans, pos), Translate(MovedFrom(hs, spans, pos), |before|))
  }

  lemma WholeStretchFollows(read: Reader, line: string, g: string)
    requires Leads(read, line, g) && EndsInBreak(g)
    ensures Follows(read, line, g, []) <==> WholeLines(read, g)
  {
    StretchKeepsHeading(read, line, g);
    assert HeadingsIn(read, line) + Translate([], |line|) == HeadingsIn(read, line);
  }

  lemma LastStretchDecides(read: Reader, t: string, spans: seq<Span>, pos: nat, line: string, before: string)
    requires Ordered(spans, pos, |t|) && Opens(read, line, before)
    ensures HeadingsMoved(read, t, spans, [], pos, line, before) <==> StretchesAreLines(read, t, spans, [], pos, before)
  {
    LastStretch(t, spans, pos);
    WholeStretchFollows(read, line, before + Rest(t, spans, pos));
    assert Translate(MovedFrom([], spans, pos), |before|) == [];
  }

  lemma RestSplits(t: string, spans: seq<Span>, pos: nat, a: nat, b: nat, before: string)
    requires Ordered(spans, pos, |t|) && pos <= a < b <= |t| && AllAvoid(spans, a, b)
    ensures Ordered(spans[Cut(spans, a)..], b, |t|)
    ensures before + Rest(t, spans, pos)
         == (before + Stretch(t, spans, pos, a)) + (t[a..b] + Rest(t, spans[Cut(spans, a)..], b))
  {
    CutSplits(t, spans, pos, a, b);
    JoinFive(before, Stretch(t, spans, pos, a), t[a..b], Build(t, spans[Cut(spans, a)..], b), ['\n']);
  }

  lemma JoinFive(a: string, b: string, c: string, d: string, e: string)
    ensures a + (b + (c + d) + e) == (a + b) + (c + (d + e))
  {
  }

  lemma {:induction false} MovedExactly(read: Reader, t: string, spans: seq<Span>, hs: seq<Heading>,
                                        pos: nat, line: string, before: string)
    requires Ordered(spans, pos, |t|) && Laid(read, t, hs, pos) && AvoidHeadings(hs, spans) && Opens(read, line, before)
    ensures HeadingsMoved(read, t, spans, hs, pos, line, before) <==> StretchesAreLines(read, t, spans, hs, pos, before)
    decreases |hs|
  {
    if hs == [] {
      LastStretchDecides(read, t, spans, pos, line, before);
    } else {
      var h := hs[0];
      RestSplits(t, spans, pos, h.start, h.end, before);
      AvoidLater(hs, spans, Cut(spans, h.start));
      MovedExactly(read, t, spans[Cut(spans, h.start)..], hs[1..], h.end, t[h.start..h.end], "");
      FirstStretchDecides(read, t, spans, hs, pos, line, before);
    }
  }

  lemma BehindHeading(read: Reader, line: string, behind: string, moved: seq<Heading>)
    requires '\n' !in line && read(line).Some?
    ensures Follows(read, line, behind, moved)
            <==> HeadingsIn(read, line + behind)
                 == [LineHeading(read, line)] + Translate(moved, |line|)
  {
    HeadingsOfLine(read, line);
  }

  lemma TranslateByNothing(hs: seq<Heading>)
    ensures Translate(hs, 0) == hs
  {
  }

  lemma ExpectedOf(read: Reader, line: string, h: Heading, moved: seq<Heading>)
    requires read(line).Some? && h.start + |line| == h.end
    requires h.level == read(line).value.level && h.title == read(line).value.text
    ensures Expected(h, moved) == [LineHeading(read, line)] + Translate(moved, |line|)
  {
  }

  lemma ExpectedBehind(read: Reader, line: string, behind: string, h: Heading, moved: seq<Heading>)
    requires '\n' !in line && read(line).Some?
    requires h.start + |line| == h.end && h.level == read(line).value.level && h.title == read(line).value.text
    ensures Follows(read, line, "" + behind, Translate(moved, |""|))
            <==> HeadingsIn(read, line + behind) == Expected(h, moved)
  {
    NothingBefore(behind);
    TranslateByNothing(moved);
    ExpectedOf(read, line, h, moved);
    BehindHeading(read, line, behind, moved);
  }

  lemma MovedBehindHeading(read: Reader, t: string, later: seq<Span>, h: Heading, hs: seq<Heading>)
    requires IsLine(read, t, h) && Ordered(later, h.end, |t|)
    ensures HeadingsMoved(read, t, later, hs, h.end, t[h.start..h.end], "")
            <==> HeadingsIn(read, t[h.start..h.end] + Rest(t, later, h.end)) == Expected(h, MovedFrom(hs, later, h.end))
  {
    ExpectedBehind(read, t[h.start..h.end], Rest(t, later, h.end), h, MovedFrom(hs, later, h.end));
  }

  lemma FirstStretchMoved(read: Reader, t: string, spans: seq<Span>, hs: seq<Heading>,
                          pos: nat, line: string, before: string,
                          g: string, rest: string, expected: seq<Heading>)
    requires Ordered(spans, pos, |t|) && Laid(read, t, hs, pos) && AvoidHeadings(hs, spans)
    requires hs != [] && Ordered(spans[Cut(spans, hs[0].start)..], hs[0].end, |t|)
    requires g == before + Stretch(t, spans, pos, hs[0].start)
    requires rest == t[hs[0].start..hs[0].end] + Rest(t, spans[Cut(spans, hs[0].start)..], hs[0].end)
    requires expected == Expected(hs[0], MovedFrom(hs[1..], spans[Cut(spans, hs[0].start)..], hs[0].end))
    ensures HeadingsMoved(read, t, spans, hs, pos, line, before)
            <==> Follows(read, line, g + rest, Translate(expected, |g|))
  {
    RestSplits(t, spans, pos, hs[0].start, hs[0].end, before);
    MovedStep(read, t, spans, hs, pos);
    TranslateTwice(expected, |Stretch(t, spans, pos, hs[0].start)|, |before|, |g|);
  }

  lemma FirstStretchDecides(read: Reader, t: string, spans: seq<Span>, hs: seq<Heading>,
                            pos: nat, line: string, before: string)
    requires Ordered(spans, pos, |t|) && Laid(read, t, hs, pos) && AvoidHeadings(hs, spans) && Opens(read, line, before)
    requires hs != [] && Ordered(spans[Cut(spans, hs[0].start)..], hs[0].end, |t|)
    ensures HeadingsMoved(read, t, spans, hs, pos, line, before)
            <==> WholeLines(read, before + Stretch(t, spans, pos, hs[0].start))
                 && HeadingsMoved(read, t, spans[Cut(spans, hs[0].start)..], hs[1..], hs[0].end,
                                  t[hs[0].start..hs[0].end], "")
  {
    var h, later := hs[0], spans[Cut(spans, hs[0].start)..];
    var g, rest := before + Stretch(t, spans, pos, h.start), t[h.start..h.end] + Rest(t, later, h.end);
    var expected := Expected(h, MovedFrom(hs[1..], later, h.end));
    FirstStretchMoved(read, t, spans, hs, pos, line, before, g, rest, expected);
    StretchAndRest(read, line, g, rest, expected);
    MovedBehindHeading(read, t, later, h, hs[1..]);
  }

  lemma SortedAvoidHeadings(t: string, v: Vocabulary, ops: seq<Op>)
    requires AllValid(t, v, ops)
    ensures AvoidHeadings(Headings(t), SortSpans(SpansOf(t, v, ops)))
  {
    var spans, hs := SpansOf(t, v, ops), Headings(t);
    SortIncreasing(spans);
    forall i | 0 <= i < |hs| ensures AllAvoid(SortSpans(spans), hs[i].start, hs[i].end) {
      forall s | s in SortSpans(spans) ensures Apart(s.start, s.end, hs[i].start, hs[i].end) {
        assert s in multiset(spans);
        var k :| 0 <= k < |ops| && spans[k] == s;
        assert ApartFromHeadings(hs, s.start, s.end);
      }
      AvoidEach(SortSpans(spans), hs[i].start, hs[i].end);
    }
  }

  /** The headings of a prompt, each moved by the length changes of the edits before it. */
  function Moved(hs: seq<Heading>, spans: seq<Span>): seq<Heading> {
    MovedFrom(hs, spans, 0)
  }

  lemma MovedSorted(hs: seq<Heading>, spans: seq<Span>)
    ensures Moved(hs, SortSpans(spans)) == Moved(hs, spans)
  {
    forall i | 0 <= i < |hs| ensures Moved(hs, SortSpans(spans))[i] == Moved(hs, spans)[i] {
      ShiftSort(spans, hs[i].start);
      ShiftSort(spans, hs[i].end);
    }
  }

  lemma BehindOneBreak(read: Reader, s: string)
    ensures HeadingsIn(read, "\n" + s) == Translate(HeadingsIn(read, s), 1)
  {
    NoHeadingInNothing(read);
    HeadingsAround(read, "\n" + s, "", s, 0, 1);
    NothingBefore(Translate(HeadingsIn(read, s), 1));
  }

  lemma BetweenBreaks(read: Reader, r: string)
    ensures HeadingsIn(read, "\n" + (r + ['\n'])) == Translate(HeadingsIn(read, r), 1)
  {
    BehindOneBreak(read, r + ['\n']);
    LastBreakAddsNothing(read, r);
  }

  lemma FollowsNothing(read: Reader, r: string, moved: seq<Heading>)
    ensures Follows(read, "", "\n" + (r + ['\n']), Translate(moved, 1)) <==> HeadingsIn(read, r) == moved
  {
    NoHeadingInNothing(read);
    BetweenBreaks(read, r);
    NothingBefore("\n" + (r + ['\n']));
    TranslateByNothing(Translate(moved, 1));
    NothingBefore(Translate(moved, 1));
    TranslateInjective(HeadingsIn(read, r), moved, 1);
  }

  lemma MovedFromStart(read: Reader, t: string, spans: seq<Span>, hs: seq<Heading>)
    requires Ordered(spans, 0, |t|)
    ensures HeadingsMoved(read, t, spans, hs, 0, "", "\n") <==> HeadingsIn(read, Build(t, spans, 0)) == Moved(hs, spans)
  {
    FollowsNothing(read, Build(t, spans, 0), Moved(hs, spans));
  }

  // ---- Only edited stretches matter ------------------------------------------

  /** Every stretch that holds an edit is whole lines once edited. */
  predicate EditedStretchesAreLines(read: Reader, t: string, spans: seq<Span>, hs: seq<Heading>,
                                    pos: nat, before: string)
    requires Laid(read, t, hs, pos)
    decreases |hs|
  {
    if hs == [] then spans == [] || WholeLines(read, before + (Stretch(t, spans, pos, |t|) + ['\n']))
    else
      && (Cut(spans, hs[0].start) > 0 ==> WholeLines(read, before + Stretch(t, spans, pos, hs[0].start)))
      && EditedStretchesAreLines(read, t, spans[Cut(spans, hs[0].start)..], hs[1..], hs[0].end, "")
  }

  lemma UneditedStretch(t: string, spans: seq<Span>, pos: nat, end: nat)
    requires end <= |t| && Cut(spans, end) == 0
    ensures Stretch(t, spans, pos, end) == Stretch(t, [], pos, end)
  {
    var none: seq<Span> := [];
    assert spans[..0] == none[..Cut(none, end)];
  }

  lemma {:induction false} OnlyEditedMatter(read: Reader, t: string, spans: seq<Span>, hs: seq<Heading>,
                                            pos: nat, before: string)
    requires Laid(read, t, hs, pos) && StretchesAreLines(read, t, [], hs, pos, before)
    ensures StretchesAreLines(read, t, spans, hs, pos, before)
            <==> EditedStretchesAreLines(read, t, spans, hs, pos, before)
    decreases |hs|
  {
    var none: seq<Span> := [];
    if hs != [] {
      var k := Cut(spans, hs[0].start);
      assert none[Cut(none, hs[0].start)..] == none;
      OnlyEditedMatter(read, t, spans[k..], hs[1..], hs[0].end, "");
      if k == 0 {
        UneditedStretch(t, spans, pos, hs[0].start);
      }
    }
  }

  lemma MovedByNothing(hs: seq<Heading>)
    ensures Moved(hs, []) == hs
  {
  }

  lemma UneditedIsLines(t: string)
    ensures Laid(READER, t, Headings(t), 0)
    ensures StretchesAreLines(READER, t, [], Headings(t), 0, "\n")
  {
    HeadingsAreLaid(READER, t, 0);
    MovedExactly(READER, t, [], Headings(t), 0, "", "\n");
    MovedFromStart(READER, t, [], Headings(t));
    MovedByNothing(Headings(t));
    assert t[0..] == t;
  }

  /**
   Every stretch between two headings that is edited begins and ends with a line break once
   edited, the ends of the text counting as breaks, and holds no line that reads as a heading.
   */
  predicate StructureKept(t: string, spans: seq<Span>)
    requires Laid(READER, t, Headings(t), 0)
  {
    EditedStretchesAreLines(READER, t, spans, Headings(t), 0, "\n")
  }

  /**
   An accepted set of edits keeps the headings, each moved by the length changes before it, if
   and only if every edited stretch between two headings still begins and ends with a line
   break and holds no heading.
   */
  lemma StructureSurvives(t: string, v: Vocabulary, ops: seq<Op>)
    requires Edited(t, v, ops).Some?
    ensures Laid(READER, t, Headings(t), 0)
    ensures Headings(Edited(t, v, ops).value.0) == Moved(Headings(t), SpansOf(t, v, ops))
            <==> StructureKept(t, SortSpans(SpansOf(t, v, ops)))
  {
    var sorted := SortSpans(SpansOf(t, v, ops));
    UneditedIsLines(t);
    SortedAvoidHeadings(t, v, ops);
    MovedExactly(READER, t, sorted, Headings(t), 0, "", "\n");
    MovedFromStart(READER, t, sorted, Headings(t));
    MovedSorted(Headings(t), SpansOf(t, v, ops));
    OnlyEditedMatter(READER, t, sorted, Headings(t), 0, "\n");
  }

  // ---- The sections move with the headings -----------------------------------

  function MovedSections(sections: seq<Section>, spans: seq<Span>): (r: seq<Section>)
    ensures |r| == |sections|
  {
    seq(|sections|, i requires 0 <= i < |sections| =>
      Section(Placed(spans, 0, sections[i].start), Placed(spans, 0, sections[i].end)))
  }

  lemma {:induction false} SectionEndMoves(t: string, r: string, hs: seq<Heading>, spans: seq<Span>, level: nat)
    requires |r| == Placed(spans, 0, |t|)
    ensures SectionEnd(r, Moved(hs, spans), level) == Placed(spans, 0, SectionEnd(t, hs, level))
  {
    if hs != [] {
      SectionEndMoves(t, r, hs[1..], spans, level);
      assert Moved(hs, spans)[1..] == Moved(hs[1..], spans);
    }
  }

  /** Headings open sections in the edited prompt exactly when they did. */
  predicate OpensAlike(hs: seq<Heading>, spans: seq<Span>, opens: Heading -> bool, opens': Heading -> bool) {
    forall i :: 0 <= i < |hs| ==> opens'(Moved(hs, spans)[i]) == opens(hs[i])
  }

  lemma OpensAlikeLater(hs: seq<Heading>, spans: seq<Span>, opens: Heading -> bool, opens': Heading -> bool)
    requires hs != [] && OpensAlike(hs, spans, opens, opens')
    ensures OpensAlike(hs[1..], spans, opens, opens')
  {
    forall i | 0 <= i < |hs[1..]| ensures opens'(Moved(hs[1..], spans)[i]) == opens(hs[1..][i]) {
      assert Moved(hs[1..], spans)[i] == Moved(hs, spans)[i + 1];
    }
  }

  lemma MovedSectionsJoin(one: seq<Section>, rest: seq<Section>, spans: seq<Span>)
    ensures MovedSections(one + rest, spans) == MovedSections(one, spans) + MovedSections(rest, spans)
  {
  }

  lemma {:induction false} SectionsMove(t: string, r: string, hs: seq<Heading>, spans: seq<Span>,
                                        opens: Heading -> bool, opens': Heading -> bool)
    requires |r| == Placed(spans, 0, |t|) && OpensAlike(hs, spans, opens, opens')
    ensures SectionsOf(r, Moved(hs, spans), opens') == MovedSections(SectionsOf(t, hs, opens), spans)
  {
    if hs != [] {
      var one := if opens(hs[0]) then [Section(hs[0].start, SectionEnd(t, hs[1..], hs[0].level))] else [];
      OpensAlikeLater(hs, spans, opens, opens');
      SectionsMove(t, r, hs[1..], spans, opens, opens');
      SectionEndMoves(t, r, hs[1..], spans, hs[0].level);
      MovedSectionsJoin(one, SectionsOf(t, hs[1..], opens), spans);
      assert Moved(hs, spans)[1..] == Moved(hs[1..], spans);
      assert opens'(Moved(hs, spans)[0]) == opens(hs[0]);
    }
  }

  /** A heading's start, or the end of the text: where sections start and end. */
  predicate IsPlace(t: string, hs: seq<Heading>, p: nat) {
    p == |t| || exists i :: 0 <= i < |hs| && hs[i].start == p
  }

  lemma {:induction false} SectionEndIsPlace(t: string, hs: seq<Heading>, level: nat)
    ensures IsPlace(t, hs, SectionEnd(t, hs, level))
  {
    if hs != [] && hs[0].level > level {
      SectionEndIsPlace(t, hs[1..], level);
      PlaceOfLater(t, hs, SectionEnd(t, hs[1..], level));
    }
  }

  lemma PlaceOfLater(t: string, hs: seq<Heading>, p: nat)
    requires hs != [] && IsPlace(t, hs[1..], p)
    ensures IsPlace(t, hs, p)
  {
    if p != |t| {
      var i :| 0 <= i < |hs[1..]| && hs[1..][i].start == p;
      assert hs[i + 1].start == p;
    }
  }

  lemma {:induction false} SectionsArePlaces(t: string, hs: seq<Heading>, opens: Heading -> bool, s: Section)
    requires s in SectionsOf(t, hs, opens)
    ensures IsPlace(t, hs, s.start) && IsPlace(t, hs, s.end)
  {
    var first := Section(hs[0].start, SectionEnd(t, hs[1..], hs[0].level));
    if opens(hs[0]) && s == first {
      SectionEndIsPlace(t, hs[1..], hs[0].level);
      PlaceOfLater(t, hs, s.end);
    } else {
      SectionsArePlaces(t, hs[1..], opens, s);
      PlaceOfLater(t, hs, s.start);
      PlaceOfLater(t, hs, s.end);
    }
  }

  lemma PlaceIsClear(t: string, spans: seq<Span>, hs: seq<Heading>, p: nat)
    requires Ordered(spans, 0, |t|) && AvoidHeadings(hs, spans) && Laid(READER, t, hs, 0) && IsPlace(t, hs, p)
    ensures p <= |t| && forall s :: s in spans ==> s.end <= p || p <= s.start
  {
    OrderedMembers(spans, 0, |t|);
    if p != |t| {
      var i :| 0 <= i < |hs| && hs[i].start == p;
      LaidInside(READER, t, hs, 0, i);
      AvoidMembers(spans, hs[i].start, hs[i].end);
    }
  }

  /** A place stays where it is, or moves, in front of every later one. */
  lemma PlacesKeepOrder(t: string, spans: seq<Span>, hs: seq<Heading>, p: nat, q: nat)
    requires Ordered(spans, 0, |t|) && AvoidHeadings(hs, spans) && Laid(READER, t, hs, 0)
    requires IsPlace(t, hs, p) && IsPlace(t, hs, q) && p < q
    ensures Placed(spans, 0, p) < Placed(spans, 0, q)
  {
    PlaceIsClear(t, spans, hs, p);
    PlaceIsClear(t, spans, hs, q);
    var i :| 0 <= i < |hs| && hs[i].start == p;
    LaidInside(READER, t, hs, 0, i);
    var h := hs[i];
    AvoidMembers(spans, h.start, h.end);
    PlacedAtHeading(t, spans, 0, h.start, h.end);
    HeadingEndsBefore(t, hs, 0, i, q);
    PlacedIsExact(spans, 0, |t|, h.end);
    PlacedIsExact(spans, 0, |t|, q);
    OrderedMembers(spans, 0, |t|);
    ShiftKeepsOrder(spans, 0, |t|, h.end, q);
  }

  lemma {:induction false} HeadingEndsBefore(t: string, hs: seq<Heading>, pos: nat, i: nat, q: nat)
    requires Laid(READER, t, hs, pos) && i < |hs| && IsPlace(t, hs, q) && hs[i].start < q
    ensures hs[i].end <= q
  {
    LaidInside(READER, t, hs, pos, i);
    if q != |t| {
      var j :| 0 <= j < |hs| && hs[j].start == q;
      LaidInOrder(t, hs, pos, i, j);
    }
  }

  lemma {:induction false} LaidInOrder(t: string, hs: seq<Heading>, pos: nat, i: nat, j: nat)
    requires Laid(READER, t, hs, pos) && i < |hs| && j < |hs| && hs[i].start < hs[j].start
    ensures hs[i].end <= hs[j].start
  {
    if i == 0 {
      LaidInside(READER, t, hs[1..], hs[0].end, j - 1);
    } else if j == 0 {
      LaidInside(READER, t, hs[1..], hs[0].end, i - 1);
      assert false;
    } else {
      LaidInOrder(t, hs[1..], hs[0].end, i - 1, j - 1);
    }
  }

  /** A heading lies in a section exactly when it does after both have moved. */
  lemma InSectionsMoves(t: string, spans: seq<Span>, sections: seq<Section>, p: nat)
    requires Ordered(spans, 0, |t|) && AvoidHeadings(Headings(t), spans) && Laid(READER, t, Headings(t), 0)
    requires IsPlace(t, Headings(t), p)
    requires forall s :: s in sections ==> IsPlace(t, Headings(t), s.start) && IsPlace(t, Headings(t), s.end)
    ensures InSections(MovedSections(sections, spans), Placed(spans, 0, p)) <==> InSections(sections, p)
  {
    forall i | 0 <= i < |sections|
      ensures sections[i].start <= p < sections[i].end
              <==> Placed(spans, 0, sections[i].start) <= Placed(spans, 0, p) < Placed(spans, 0, sections[i].end)
    {
      assert sections[i] in sections;
      ComparePlaces(t, spans, Headings(t), sections[i].start, p);
      ComparePlaces(t, spans, Headings(t), sections[i].end, p);
    }
    SameSections(sections, spans, p);
  }

  lemma ComparePlaces(t: string, spans: seq<Span>, hs: seq<Heading>, p: nat, q: nat)
    requires Ordered(spans, 0, |t|) && AvoidHeadings(hs, spans) && Laid(READER, t, hs, 0)
    requires IsPlace(t, hs, p) && IsPlace(t, hs, q)
    ensures p <= q <==> Placed(spans, 0, p) <= Placed(spans, 0, q)
  {
    if p < q {
      PlacesKeepOrder(t, spans, hs, p, q);
    } else if q < p {
      PlacesKeepOrder(t, spans, hs, q, p);
    }
  }

  lemma SameSections(sections: seq<Section>, spans: seq<Span>, p: nat)
    requires forall i :: 0 <= i < |sections| ==>
               (sections[i].start <= p < sections[i].end
                <==> Placed(spans, 0, sections[i].start) <= Placed(spans, 0, p) < Placed(spans, 0, sections[i].end))
    ensures InSections(MovedSections(sections, spans), Placed(spans, 0, p)) <==> InSections(sections, p)
  {
    var moved := MovedSections(sections, spans);
    if i :| 0 <= i < |sections| && sections[i].start <= p < sections[i].end {
      assert moved[i].start <= Placed(spans, 0, p) < moved[i].end;
    }
    if i :| 0 <= i < |moved| && moved[i].start <= Placed(spans, 0, p) < moved[i].end {
      assert sections[i].start <= p < sections[i].end;
    }
  }

  lemma RulesetOpensAlike(v: Vocabulary, hs: seq<Heading>, spans: seq<Span>)
    ensures OpensAlike(hs, spans, OpensRuleset(v), OpensRuleset(v))
  {
  }

  lemma CommOpensAlike(t: string, v: Vocabulary, spans: seq<Span>)
    requires Ordered(spans, 0, |t|) && AvoidHeadings(Headings(t), spans)
    ensures var ruleset := RulesetSections(t, v);
            OpensAlike(Headings(t), spans, OpensComm(v, ruleset), OpensComm(v, MovedSections(ruleset, spans)))
  {
    var hs, ruleset := Headings(t), RulesetSections(t, v);
    HeadingsAreLaid(READER, t, 0);
    forall s | s in ruleset ensures IsPlace(t, hs, s.start) && IsPlace(t, hs, s.end) {
      SectionsArePlaces(t, hs, OpensRuleset(v), s);
    }
    forall i | 0 <= i < |hs|
      ensures OpensComm(v, MovedSections(ruleset, spans))(Moved(hs, spans)[i]) == OpensComm(v, ruleset)(hs[i])
    {
      InSectionsMoves(t, spans, ruleset, hs[i].start);
    }
  }

  lemma SortedSectionsMove(t: string, v: Vocabulary, spans: seq<Span>, r: string)
    requires Ordered(spans, 0, |t|) && AvoidHeadings(Headings(t), spans)
    requires Headings(r) == Moved(Headings(t), spans) && |r| == Placed(spans, 0, |t|)
    ensures RulesetSections(r, v) == MovedSections(RulesetSections(t, v), spans)
    ensures CommSections(r, v) == MovedSections(CommSections(t, v), spans)
  {
    RulesetOpensAlike(v, Headings(t), spans);
    SectionsMove(t, r, Headings(t), spans, OpensRuleset(v), OpensRuleset(v));
    CommOpensAlike(t, v, spans);
    SectionsMove(t, r, Headings(t), spans, OpensComm(v, RulesetSections(t, v)), OpensComm(v, RulesetSections(r, v)));
  }

  lemma MovedSectionsSorted(sections: seq<Section>, spans: seq<Span>)
    ensures MovedSections(sections, SortSpans(spans)) == MovedSections(sections, spans)
  {
    forall i | 0 <= i < |sections|
      ensures MovedSections(sections, SortSpans(spans))[i] == MovedSections(sections, spans)[i]
    {
      ShiftSort(spans, sections[i].start);
      ShiftSort(spans, sections[i].end);
    }
  }

  /** When the headings are kept, so is every section: ruleset and communication sections move with them. */
  lemma SectionsSurvive(t: string, v: Vocabulary, ops: seq<Op>)
    requires Edited(t, v, ops).Some?
    requires Laid(READER, t, Headings(t), 0) && StructureKept(t, SortSpans(SpansOf(t, v, ops)))
    ensures var spans := SpansOf(t, v, ops);
            var r := Edited(t, v, ops).value.0;
            && RulesetSections(r, v) == MovedSections(RulesetSections(t, v), spans)
            && CommSections(r, v) == MovedSections(CommSections(t, v), spans)
  {
    var spans := SpansOf(t, v, ops);
    var sorted, r := SortSpans(spans), Edited(t, v, ops).value.0;
    StructureSurvives(t, v, ops);
    SortedAvoidHeadings(t, v, ops);
    MovedSorted(Headings(t), spans);
    BuildLength(t, sorted, 0);
    OrderedMembers(sorted, 0, |t|);
    SortedSectionsMove(t, v, sorted, r);
    MovedSectionsSorted(RulesetSections(t, v), spans);
    MovedSectionsSorted(CommSections(t, v), spans);
  }

  // ---- The promise fails, and holds, for edits across lines ------------------

  /** A prompt made of one communication heading `h` and one line `x` of text. */
  ghost predicate SmallPrompt(v: Vocabulary, h: string, x: string) {
    && '\n' !in h && IsHeading(h) && v.comm(TitleOf(h)) && !v.ruleset(TitleOf(h))
    && '\n' !in x && !IsHeading(x) && x != ""
  }

  function OnlyHeading(h: string): Heading
    requires IsHeading(h)
  {
    Heading(0, |h|, Hashes(h), TitleOf(h))
  }

  lemma TwoLines(h: string, x: string)
    requires '\n' !in h && IsHeading(h) && '\n' !in x
    ensures Headings(h + ("\n" + x)) == [OnlyHeading(h)] + Translate(Headings(x), |h| + 1)
    ensures Headings(x) == if IsHeading(x) then [OnlyHeading(x)] else []
  {
    HeadingsAround(READER, h + ("\n" + x), h, x, 0, |h| + 1);
    HeadingsOfLine(READER, h);
    HeadingsOfLine(READER, x);
  }

  lemma SmallHeadings(h: string, x: string)
    requires '\n' !in h && IsHeading(h) && '\n' !in x && !IsHeading(x)
    ensures Headings(h + ("\n" + x)) == [OnlyHeading(h)]
  {
    TwoLines(h, x);
    TranslateOfNone(Headings(x), |h| + 1);
    assert [OnlyHeading(h)] + [] == [OnlyHeading(h)];
  }

  lemma NoSections(t: string, opens: Heading -> bool)
    ensures SectionsOf(t, [], opens) == []
  {
  }

  lemma SectionsOfOne(t: string, h: Heading, opens: Heading -> bool)
    ensures SectionsOf(t, [h], opens) == if opens(h) then [Section(h.start, |t|)] else []
  {
    assert [h][1..] == [];
    NoSections(t, opens);
  }

  lemma SmallSections(v: Vocabulary, h: string, x: string)
    requires SmallPrompt(v, h, x)
    ensures var t := h + ("\n" + x);
            && CommSections(t, v) == [Section(0, |t|)]
            && RulesetSections(t, v) == []
  {
    var t := h + ("\n" + x);
    SmallHeadings(h, x);
    SectionsOfOne(t, OnlyHeading(h), OpensRuleset(v));
    SectionsOfOne(t, OnlyHeading(h), OpensComm(v, []));
  }

  lemma FindOnly(t: string, f: string, p: nat)
    requires OccursAt(t, f, p) && forall q: nat :: q != p ==> !OccursAt(t, f, q)
    ensures FindFrom(t, f, 0) == p && FindFrom(t, f, p + 1) == -1
  {
  }

  lemma EditOnce(t: string, v: Vocabulary, op: Op)
    requires SpanOf(t, v, op).Some?
    ensures var s := SpanOf(t, v, op).value;
            && AllValid(t, v, [op]) && SpansOf(t, v, [op]) == [s]
            && Edited(t, v, [op]) == Some((t[0..s.start] + s.replace + t[s.end..], 1))
  {
    var s := SpanOf(t, v, op).value;
    assert SpansOf(t, v, [op]) == [s];
    assert [s][1..] == [];
    assert SortSpans([s]) == [s];
    assert Ordered([], s.end, |t|);
    assert Build(t, [s], 0) == t[0..s.start] + s.replace + Build(t, [], s.end);
  }

  lemma BreakOccursOnce(h: string, x: string)
    requires '\n' !in h
    ensures OccursAt(h + ("\n" + x), "\n" + x, |h|)
    ensures forall q: nat :: q != |h| ==> !OccursAt(h + ("\n" + x), "\n" + x, q)
  {
    var t, f := h + ("\n" + x), "\n" + x;
    assert t[|h|..|h| + |f|] == f;
    forall q: nat | q != |h| ensures !OccursAt(t, f, q) {
      if q + |f| <= |t| {
        assert t[q] == h[q];
        assert t[q..q + |f|][0] == t[q];
      }
    }
  }

  lemma SmallSpanAllowed(v: Vocabulary, h: string, x: string)
    requires SmallPrompt(v, h, x)
    ensures var t := h + ("\n" + x);
            && InSomeSection(CommSections(t, v), |h|, |t|) && ApartFromSections(RulesetSections(t, v), |h|, |t|)
            && ApartFromHeadings(Headings(t), |h|, |t|)
  {
    var t := h + ("\n" + x);
    SmallHeadings(h, x);
    SmallSections(v, h, x);
    assert InSomeSection([Section(0, |t|)], |h|, |t|) by {
      assert [Section(0, |t|)][0] == Section(0, |t|);
    }
    assert ApartFromHeadings([OnlyHeading(h)], |h|, |t|);
  }

  lemma SpanWhen(t: string, v: Vocabulary, op: Op, start: nat)
    requires op.Op? && op.find != "" && start + |op.find| <= |t|
    requires FindFrom(t, op.find, 0) == start && FindFrom(t, op.find, start + 1) == -1
    requires InSomeSection(CommSections(t, v), start, start + |op.find|)
    requires ApartFromSections(RulesetSections(t, v), start, start + |op.find|)
    requires ApartFromHeadings(Headings(t), start, start + |op.find|)
    ensures SpanOf(t, v, op) == Some(Span(start, start + |op.find|, op.replace))
  {
  }

  lemma SmallSpan(v: Vocabulary, h: string, x: string, y: string)
    requires SmallPrompt(v, h, x)
    ensures SpanOf(h + ("\n" + x), v, Op("\n" + x, y)) == Some(Span(|h|, |h| + 1 + |x|, y))
  {
    BreakOccursOnce(h, x);
    FindOnly(h + ("\n" + x), "\n" + x, |h|);
    SmallSpanAllowed(v, h, x);
    SpanWhen(h + ("\n" + x), v, Op("\n" + x, y), |h|);
  }

  lemma OneSpanBehind(s: Span, p: nat)
    requires p < s.end
    ensures Shift([s], p) == 0
  {
    assert [s][1..] == [] && Shift([], p) == 0;
  }

  lemma OneHeadingStays(h: string, s: Span)
    requires IsHeading(h) && |h| < s.end
    ensures Moved([OnlyHeading(h)], [s]) == [OnlyHeading(h)]
  {
    OneSpanBehind(s, 0);
    OneSpanBehind(s, |h|);
  }

  /** Replacing everything behind the heading of a small prompt. */
  lemma SmallEdit(v: Vocabulary, h: string, x: string, y: string)
    requires SmallPrompt(v, h, x)
    ensures var t, op := h + ("\n" + x), Op("\n" + x, y);
            && Edited(t, v, [op]) == Some((h + y, 1)) && AllValid(t, v, [op])
            && Moved(Headings(t), SpansOf(t, v, [op])) == [OnlyHeading(h)]
  {
    var t, op := h + ("\n" + x), Op("\n" + x, y);
    var s := Span(|h|, |h| + 1 + |x|, y);
    SmallSpan(v, h, x, y);
    EditOnce(t, v, op);
    assert t[0..|h|] == h && t[|t|..] == "" && h + y + "" == h + y;
    SmallHeadings(h, x);
    OneHeadingStays(h, s);
  }

  /** An accepted edit after which the headings are not where the edits put them. */
  ghost predicate LosesHeadings(v: Vocabulary, t: string, op: Op) {
    && Edited(t, v, [op]).Some? && AllValid(t, v, [op])
    && Headings(Edited(t, v, [op]).value.0) != Moved(Headings(t), SpansOf(t, v, [op]))
  }

  lemma ResultLosesHeadings(v: Vocabulary, t: string, op: Op, r: string)
    requires Edited(t, v, [op]) == Some((r, 1)) && AllValid(t, v, [op])
    requires Headings(r) != Moved(Headings(t), SpansOf(t, v, [op]))
    ensures LosesHeadings(v, t, op)
  {
  }

  /** An edit that takes the line break after a heading changes that heading. */
  lemma RemovedBreakChangesHeading(v: Vocabulary, h: string, x: string, y: string)
    requires SmallPrompt(v, h, x) && '\n' !in y && y != ""
    ensures Edited(h + ("\n" + x), v, [Op("\n" + x, y)]) == Some((h + y, 1))
    ensures LosesHeadings(v, h + ("\n" + x), Op("\n" + x, y))
  {
    SmallEdit(v, h, x, y);
    HeadingsOfLine(READER, h + y);
    if IsHeading(h + y) {
      assert Headings(h + y)[0].end == |h + y|;
    }
    ResultLosesHeadings(v, h + ("\n" + x), Op("\n" + x, y), h + y);
  }

  /** An edit that replaces the line behind a heading, break and all, keeps it unless the new line is a heading. */
  lemma ReplacedBreakKeepsHeading(v: Vocabulary, h: string, x: string, y: string)
    requires SmallPrompt(v, h, x) && '\n' !in y
    ensures var t, op := h + ("\n" + x), Op("\n" + x, "\n" + y);
            && Edited(t, v, [op]) == Some((h + ("\n" + y), 1)) && AllValid(t, v, [op])
            && (Headings(h + ("\n" + y)) == Moved(Headings(t), SpansOf(t, v, [op])) <==> !IsHeading(y))
  {
    SmallEdit(v, h, x, "\n" + y);
    TwoLines(h, y);
    AppendingNothing([OnlyHeading(h)], Translate(Headings(y), |h| + 1));
    TranslateOfNone(Headings(y), |h| + 1);
  }

  /** One hash, a blank and a title make a heading with that title. */
  lemma SimpleHeading(title: string)
    requires title != "" && !IsBlankChar(title[0]) && !IsBlankChar(title[|title| - 1])
    ensures IsHeading(['#', ' '] + title) && TitleOf(['#', ' '] + title) == title
  {
    var h, rest := ['#', ' '] + title, [' '] + title;
    assert HashesEnd(h, 1) == 1;
    assert h[1..] == rest && rest[1..] == title;
    assert SkipBlanks(rest) == title;
  }

  /** Such prompts exist: the promise that the structure survives is false of the code. */
  lemma StructureIsNotAlwaysKept(v: Vocabulary)
    requires v.comm("Tone") && !v.ruleset("Tone")
    ensures exists t, op :: LosesHeadings(v, t, op)
  {
    SimpleHeading("Tone");
    SomeRemovedBreak(v, ['#', ' '] + "Tone", "x", "y");
  }

  lemma SomeRemovedBreak(v: Vocabulary, h: string, x: string, y: string)
    requires SmallPrompt(v, h, x) && '\n' !in y && y != ""
    ensures exists t, op :: LosesHeadings(v, t, op)
  {
    RemovedBreakChangesHeading(v, h, x, y);
  }
}
