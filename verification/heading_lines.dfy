/**
 The headings of a text put together from parts (`anthrouter/caveman_rewrite.py` finds them
 with one regular expression).  What a line reads as when it is a heading is left open here.
 */
module HeadingLines {
  import opened Common
  import opened CavemanEdits

  function HeadingsIn(read: Reader, t: string): seq<Heading> {
    HeadingsFrom(read, t, 0)
  }

  // ---- Headings of joined texts ----------------------------------------------

  function Translate(hs: seq<Heading>, n: nat): (r: seq<Heading>)
    ensures |r| == |hs|
  {
    seq(|hs|, i requires 0 <= i < |hs| => Heading(hs[i].start + n, hs[i].end + n, hs[i].level, hs[i].title))
  }

  lemma TranslateJoins(a: seq<Heading>, b: seq<Heading>, n: nat)
    ensures Translate(a + b, n) == Translate(a, n) + Translate(b, n)
  {
  }

  lemma TranslateTwice(hs: seq<Heading>, m: nat, n: nat, both: nat)
    requires both == m + n
    ensures Translate(Translate(hs, m), n) == Translate(hs, both)
  {
  }

  lemma TranslateInjective(a: seq<Heading>, b: seq<Heading>, n: nat)
    ensures Translate(a, n) == Translate(b, n) <==> a == b
  {
    if Translate(a, n) == Translate(b, n) {
      assert |a| == |b|;
      forall i | 0 <= i < |a| ensures a[i] == b[i] {
        assert Translate(a, n)[i] == Translate(b, n)[i];
      }
    }
  }

  /** `full` ends in `b`, which starts at `n`. */
  predicate HasTail(full: string, n: nat, b: string) {
    |full| == n + |b| && full[n..] == b
  }

  lemma {:induction false} LineEndShifted(full: string, n: nat, b: string, p: nat, at: nat)
    requires HasTail(full, n, b) && p <= |b| && at == n + p
    ensures LineEnd(full, at) == n + LineEnd(b, p)
    decreases |b| - p
  {
    if p < |b| {
      assert full[at] == full[n..][p];
      if b[p] != '\n' {
        LineEndShifted(full, n, b, p + 1, at + 1);
      }
    }
  }

  /** Equality by name: a known one is found again without comparing the lists. */
  predicate Same(a: seq<Heading>, b: seq<Heading>) {
    a == b
  }

  lemma HeadingOnShifted(read: Reader, full: string, n: nat, b: string, p: nat, e: nat, at: nat)
    requires HasTail(full, n, b) && p <= e <= |b| && at == n + p
    ensures Same(HeadingOn(read, full, at, n + e), Translate(HeadingOn(read, b, p, e), n))
  {
    SliceOfSlice(full, n, |full|, at, n + e);
    assert full[n..|full|] == full[n..];
  }

  lemma HeadingsUnfold(read: Reader, t: string, p: nat, e: nat)
    requires p <= |t| && e == LineEnd(t, p)
    ensures HeadingsFrom(read, t, p) == HeadingOn(read, t, p, e) + HeadingsBehind(read, t, e)
  {
  }

  lemma ShiftedFrom(read: Reader, full: string, n: nat, b: string, p: nat, e: nat, at: nat)
    requires p <= |b| && |full| == n + |b| && e == LineEnd(b, p) && at == n + p && LineEnd(full, at) == n + e
    requires Same(HeadingOn(read, full, at, n + e), Translate(HeadingOn(read, b, p, e), n))
    requires Same(HeadingsBehind(read, full, n + e), Translate(HeadingsBehind(read, b, e), n))
    ensures Same(HeadingsFrom(read, full, at), Translate(HeadingsFrom(read, b, p), n))
  {
    TranslateJoins(HeadingOn(read, b, p, e), HeadingsBehind(read, b, e), n);
    HeadingsUnfold(read, b, p, e);
    HeadingsUnfold(read, full, at, n + e);
  }

  /** The headings of the tail are its own, moved on; `at` is where its position `p` is. */
  lemma {:induction false} HeadingsShifted(read: Reader, full: string, n: nat, b: string, p: nat, at: nat)
    requires HasTail(full, n, b) && p <= |b| && at == n + p
    ensures Same(HeadingsFrom(read, full, at), Translate(HeadingsFrom(read, b, p), n))
    decreases |b| - p, 2
  {
    ShiftedToEnd(read, full, n, b, p, LineEnd(b, p), at);
  }

  lemma ShiftedToEnd(read: Reader, full: string, n: nat, b: string, p: nat, e: nat, at: nat)
    requires HasTail(full, n, b) && p <= e <= |b| && e == LineEnd(b, p) && at == n + p
    ensures Same(HeadingsFrom(read, full, at), Translate(HeadingsFrom(read, b, p), n))
    decreases |b| - p, 1
  {
    LineEndShifted(full, n, b, p, at);
    HeadingOnShifted(read, full, n, b, p, e, at);
    BehindShifted(read, full, n, b, e, n + e);
    ShiftedFrom(read, full, n, b, p, e, at);
  }

  lemma BehindMoves(read: Reader, full: string, n: nat, b: string, e: nat, at: nat)
    requires at < |full| && e < |b|
    requires Same(HeadingsFrom(read, full, at + 1), Translate(HeadingsFrom(read, b, e + 1), n))
    ensures Same(HeadingsBehind(read, full, at), Translate(HeadingsBehind(read, b, e), n))
  {
  }

  lemma NothingMoves(read: Reader, full: string, n: nat, b: string, e: nat, at: nat)
    requires |full| == at && |b| == e
    ensures Same(HeadingsBehind(read, full, at), Translate(HeadingsBehind(read, b, e), n))
  {
  }

  lemma BehindShifted(read: Reader, full: string, n: nat, b: string, e: nat, at: nat)
    requires HasTail(full, n, b) && e <= |b| && at == n + e
    ensures Same(HeadingsBehind(read, full, at), Translate(HeadingsBehind(read, b, e), n))
    decreases |b| - e, 0
  {
    if e < |b| {
      NextLineShifted(read, full, n, b, e, at);
    } else {
      NothingMoves(read, full, n, b, e, at);
    }
  }

  lemma NextLineShifted(read: Reader, full: string, n: nat, b: string, e: nat, at: nat)
    requires HasTail(full, n, b) && e < |b| && at == n + e
    ensures Same(HeadingsBehind(read, full, at), Translate(HeadingsBehind(read, b, e), n))
    decreases |b| - e - 1, 3
  {
    HeadingsShifted(read, full, n, b, e + 1, at + 1);
    BehindMoves(read, full, n, b, e, at);
  }

  /** `full` is `a`, a line break and `b`. */
  predicate Broken(full: string, a: string, b: string) {
    HasTail(full, |a| + 1, b) && full[..|a|] == a && full[|a|] == '\n'
  }

  lemma {:induction false} LineEndBefore(full: string, a: string, b: string, p: nat)
    requires Broken(full, a, b) && p <= |a|
    ensures LineEnd(full, p) == LineEnd(a, p)
    decreases |a| - p
  {
    if p < |a| {
      assert full[p] == full[..|a|][p];
      if a[p] != '\n' {
        LineEndBefore(full, a, b, p + 1);
      }
    }
  }

  lemma HeadingOnBefore(read: Reader, full: string, a: string, b: string, p: nat, e: nat)
    requires Broken(full, a, b) && p <= e <= |a|
    ensures HeadingOn(read, full, p, e) == HeadingOn(read, a, p, e)
  {
    SliceOfPrefix(full, |a|, p, e);
  }

  lemma AroundFrom(read: Reader, full: string, a: string, p: nat, e: nat, more: seq<Heading>)
    requires p <= |a| <= |full| && e == LineEnd(a, p) == LineEnd(full, p)
    requires HeadingOn(read, full, p, e) == HeadingOn(read, a, p, e)
    requires Same(HeadingsBehind(read, full, e), HeadingsBehind(read, a, e) + more)
    ensures Same(HeadingsFrom(read, full, p), HeadingsFrom(read, a, p) + more)
  {
    HeadingsUnfold(read, a, p, e);
    HeadingsUnfold(read, full, p, e);
    ConcatAssoc(HeadingOn(read, a, p, e), HeadingsBehind(read, a, e), more);
  }

  /** A line break separates the headings before it from those behind it, which start at `n`. */
  lemma {:induction false} HeadingsAround(read: Reader, full: string, a: string, b: string, p: nat, n: nat)
    requires Broken(full, a, b) && p <= |a| && n == |a| + 1
    ensures Same(HeadingsFrom(read, full, p), HeadingsFrom(read, a, p) + Translate(HeadingsIn(read, b), n))
    decreases |a| - p, 1
  {
    var e := LineEnd(a, p);
    LineEndBefore(full, a, b, p);
    HeadingOnBefore(read, full, a, b, p, e);
    BehindAround(read, full, a, b, e, n);
    AroundFrom(read, full, a, p, e, Translate(HeadingsIn(read, b), n));
  }

  lemma BehindAround(read: Reader, full: string, a: string, b: string, e: nat, n: nat)
    requires Broken(full, a, b) && e <= |a| && n == |a| + 1
    ensures Same(HeadingsBehind(read, full, e), HeadingsBehind(read, a, e) + Translate(HeadingsIn(read, b), n))
    decreases |a| - e, 0
  {
    if e < |a| {
      HeadingsAround(read, full, a, b, e + 1, n);
    } else {
      BehindTheBreak(read, full, a, b, e, n);
    }
  }

  lemma BehindTheBreak(read: Reader, full: string, a: string, b: string, e: nat, n: nat)
    requires Broken(full, a, b) && n == |a| + 1 && e == |a|
    ensures Same(HeadingsBehind(read, full, e), HeadingsBehind(read, a, e) + Translate(HeadingsIn(read, b), n))
  {
    HeadingsShifted(read, full, n, b, 0, n);
    assert HeadingsBehind(read, a, e) == [];
    NothingBefore(Translate(HeadingsIn(read, b), n));
  }

  lemma NothingBefore<T>(s: seq<T>)
    ensures [] + s == s
  {
  }

  predicate EndsInBreak(s: string) {
    s != "" && s[|s| - 1] == '\n'
  }

  lemma NoHeadingInNothing(read: Reader)
    ensures HeadingsIn(read, "") == []
  {
  }

  lemma HeadingsBehindBreak(read: Reader, a: string, b: string)
    requires EndsInBreak(a)
    ensures HeadingsIn(read, a + b) == HeadingsIn(read, a) + Translate(HeadingsIn(read, b), |a|)
  {
    var line := a[..|a| - 1];
    NoHeadingInNothing(read);
    HeadingsAround(read, a + b, line, b, 0, |a|);
    HeadingsAround(read, a, line, "", 0, |a|);
    assert HeadingsIn(read, line) + [] == HeadingsIn(read, line);
  }

  lemma LastBreakAddsNothing(read: Reader, s: string)
    ensures HeadingsIn(read, s + ['\n']) == HeadingsIn(read, s)
  {
    NoHeadingInNothing(read);
    HeadingsAround(read, s + ['\n'], s, "", 0, |s| + 1);
    assert HeadingsIn(read, s) + [] == HeadingsIn(read, s);
  }

  // ---- Each heading is a line ------------------------------------------------

  predicate IsLine(read: Reader, t: string, h: Heading) {
    && h.start < h.end <= |t| && '\n' !in t[h.start..h.end] && read(t[h.start..h.end]).Some?
    && h == Heading(h.start, h.end, read(t[h.start..h.end]).value.level, read(t[h.start..h.end]).value.text)
    && StartsLine(t, h.start) && h.end == LineEnd(t, h.start)
  }

  predicate StartsLine(t: string, p: nat)
    requires p <= |t|
  {
    p == 0 || t[p - 1] == '\n'
  }

  /** `hs` are heading lines of `t` from `pos` on, in order. */
  predicate Laid(read: Reader, t: string, hs: seq<Heading>, pos: nat) {
    hs == [] || (pos <= hs[0].start && IsLine(read, t, hs[0]) && Laid(read, t, hs[1..], hs[0].end))
  }

  lemma LaidEarlier(read: Reader, t: string, hs: seq<Heading>, pos: nat, earlier: nat)
    requires Laid(read, t, hs, pos) && earlier <= pos
    ensures Laid(read, t, hs, earlier)
  {
  }

  lemma {:induction false} LineHasNoBreak(t: string, p: nat)
    requires p <= |t|
    ensures '\n' !in t[p..LineEnd(t, p)]
    decreases |t| - p
  {
    if p < |t| && t[p] != '\n' {
      LineHasNoBreak(t, p + 1);
      assert t[p..LineEnd(t, p)] == [t[p]] + t[p + 1..LineEnd(t, p + 1)];
    }
  }

  lemma LaidJoin(read: Reader, t: string, rest: seq<Heading>, p: nat, e: nat)
    requires p <= e <= |t| && StartsLine(t, p) && e == LineEnd(t, p) && '\n' !in t[p..e] && Laid(read, t, rest, e)
    ensures Laid(read, t, HeadingOn(read, t, p, e) + rest, p)
  {
    var one := HeadingOn(read, t, p, e);
    if one == [] {
      assert one + rest == rest;
      LaidEarlier(read, t, rest, e, p);
    } else {
      assert one[0].start == p && one[0].end == e && read(t[p..e]).Some?;
      assert p < e;
      assert (one + rest)[1..] == rest;
    }
  }

  lemma {:induction false} HeadingsAreLaid(read: Reader, t: string, p: nat)
    requires p <= |t| && StartsLine(t, p)
    ensures Laid(read, t, HeadingsFrom(read, t, p), p)
    decreases |t| - p, 1
  {
    var e := LineEnd(t, p);
    LineHasNoBreak(t, p);
    BehindAreLaid(read, t, e);
    LaidJoin(read, t, HeadingsBehind(read, t, e), p, e);
    HeadingsUnfold(read, t, p, e);
  }

  lemma BehindAreLaid(read: Reader, t: string, e: nat)
    requires e <= |t| && (e < |t| ==> t[e] == '\n')
    ensures Laid(read, t, HeadingsBehind(read, t, e), e)
    decreases |t| - e, 0
  {
    if e < |t| {
      HeadingsAreLaid(read, t, e + 1);
      LaidEarlier(read, t, HeadingsFrom(read, t, e + 1), e + 1, e);
    }
  }

  lemma {:induction false} LaidMember(read: Reader, t: string, hs: seq<Heading>, pos: nat, h: Heading)
    requires Laid(read, t, hs, pos) && h in hs
    ensures IsLine(read, t, h)
  {
    if h != hs[0] {
      LaidMember(read, t, hs[1..], hs[0].end, h);
    }
  }

  lemma {:induction false} LaidInside(read: Reader, t: string, hs: seq<Heading>, pos: nat, i: nat)
    requires Laid(read, t, hs, pos) && i < |hs|
    ensures pos <= hs[i].start < hs[i].end <= |t|
  {
    if i > 0 {
      LaidInside(read, t, hs[1..], hs[0].end, i - 1);
    }
  }

  /** A heading starts at the start of a line and ends with it. */
  lemma HeadingIsLine(read: Reader, t: string, h: Heading)
    requires h in HeadingsIn(read, t)
    ensures IsLine(read, t, h)
  {
    HeadingsAreLaid(read, t, 0);
    LaidMember(read, t, HeadingsIn(read, t), 0, h);
  }

  // ---- One stretch between headings ------------------------------------------

  /** Text that begins and ends with a line break and holds no heading. */
  predicate WholeLines(read: Reader, g: string) {
    EndsInBreak(g) && g[0] == '\n' && HeadingsIn(read, g) == []
  }

  /** What a stretch can follow: a heading line, or nothing when it begins with a line break. */
  predicate Leads(read: Reader, line: string, g: string) {
    if line == "" then g != "" && g[0] == '\n' else '\n' !in line && read(line).Some?
  }

  lemma {:induction false} LineEndAcross(t: string, p: nat, q: nat)
    requires p <= q <= |t| && '\n' !in t[p..q]
    ensures LineEnd(t, p) == LineEnd(t, q) && q <= LineEnd(t, p)
    decreases q - p
  {
    if p < q {
      assert t[p] == t[p..q][0];
      assert t[p + 1..q] == t[p..q][1..];
      LineEndAcross(t, p + 1, q);
    }
  }

  /** The heading a line is, by itself. */
  function LineHeading(read: Reader, line: string): Heading
    requires read(line).Some?
  {
    Heading(0, |line|, read(line).value.level, read(line).value.text)
  }

  lemma HeadingsOfLine(read: Reader, line: string)
    requires '\n' !in line
    ensures HeadingsIn(read, line) == if read(line).Some? then [LineHeading(read, line)] else []
  {
    assert line[0..|line|] == line;
    LineEndAcross(line, 0, |line|);
    HeadingsUnfold(read, line, 0, |line|);
    assert HeadingsBehind(read, line, |line|) == [];
  }

  lemma LineEndsAtBreak(line: string, g: string)
    requires '\n' !in line && g != ""
    ensures LineEnd(line + g, 0) == |line| <==> g[0] == '\n'
  {
    assert (line + g)[0..|line|] == line;
    LineEndAcross(line + g, 0, |line|);
  }

  lemma StretchHeadings(read: Reader, line: string, g: string, n: nat)
    requires g != "" && g[0] == '\n' && n == |line| + 1
    ensures HeadingsIn(read, line + g) == HeadingsIn(read, line) + Translate(HeadingsIn(read, g[1..]), n)
  {
    HeadingsAround(read, line + g, line, g[1..], 0, n);
  }

  lemma TranslateOfNone(hs: seq<Heading>, n: nat)
    ensures Translate(hs, n) == [] <==> hs == []
  {
    assert |Translate(hs, n)| == |hs|;
  }

  /** A stretch leaves the heading before it alone, and adds none, exactly when it is whole lines. */
  lemma StretchKeepsHeading(read: Reader, line: string, g: string)
    requires Leads(read, line, g) && EndsInBreak(g)
    ensures HeadingsIn(read, line + g) == HeadingsIn(read, line) <==> WholeLines(read, g)
  {
    HeadingsOfLine(read, line);
    if g[0] == '\n' {
      BreakFirst(read, line, g);
    } else if HeadingsIn(read, line + g) == HeadingsIn(read, line) {
      LineEndsAtBreak(line, g);
      HeadingIsLine(read, line + g, HeadingsIn(read, line)[0]);
      assert false;
    }
  }

  lemma BreakFirst(read: Reader, line: string, g: string)
    requires g != "" && g[0] == '\n'
    ensures HeadingsIn(read, line + g) == HeadingsIn(read, line) <==> HeadingsIn(read, g) == []
  {
    var inner := HeadingsIn(read, g[1..]);
    StretchHeadings(read, line, g, |line| + 1);
    StretchHeadings(read, "", g, 1);
    NoHeadingInNothing(read);
    assert "" + g == g && [] + Translate(inner, 1) == Translate(inner, 1);
    TranslateOfNone(inner, 1);
    TranslateOfNone(inner, |line| + 1);
    AppendingNothing(HeadingsIn(read, line), Translate(inner, |line| + 1));
  }

  lemma AppendingNothing<T>(a: seq<T>, b: seq<T>)
    ensures a + b == a <==> b == []
  {
    if a + b == a {
      assert |a + b| == |a| + |b|;
    }
  }

  lemma LaterPartStartsLate(a: seq<Heading>, b: seq<Heading>, n: nat)
    requires b != [] && forall h :: h in b ==> n <= h.start
    ensures n <= (a + b)[|a|].start
  {
    assert b[0] in b;
  }

  lemma CutNoLater(a: seq<Heading>, b: seq<Heading>, c: seq<Heading>, d: seq<Heading>, n: nat)
    requires a + b == c + d
    requires forall h :: h in c ==> h.start < n
    requires forall h :: h in b ==> n <= h.start
    ensures |c| <= |a|
  {
    if |a| < |c| {
      LaterPartStartsLate(a, b, n);
      assert false;
    }
  }

  lemma SplitByStart(a: seq<Heading>, b: seq<Heading>, c: seq<Heading>, d: seq<Heading>, n: nat)
    requires forall h :: h in a || h in c ==> h.start < n
    requires forall h :: h in b || h in d ==> n <= h.start
    ensures a + b == c + d <==> a == c && b == d
  {
    if a + b == c + d {
      CutNoLater(a, b, c, d, n);
      CutNoLater(c, d, a, b, n);
      assert a == (a + b)[..|a|] == c && b == (a + b)[|a|..] == d;
    }
  }

  /** The headings of `line` and the text behind it are its own and `moved`, moved on. */
  predicate Follows(read: Reader, line: string, behind: string, moved: seq<Heading>) {
    HeadingsIn(read, line + behind) == HeadingsIn(read, line) + Translate(moved, |line|)
  }

  /** A heading line, a stretch, and what follows: the headings are as expected piece by piece. */
  lemma StretchAndRest(read: Reader, line: string, g: string, rest: string, expected: seq<Heading>)
    requires Leads(read, line, g) && expected != [] && expected[0].start == 0
    ensures Follows(read, line, g + rest, Translate(expected, |g|))
            <==> WholeLines(read, g) && HeadingsIn(read, rest) == expected
  {
    if EndsInBreak(g) {
      StretchThenRest(read, line, g, rest, expected);
    } else {
      StretchOpenAtEnd(read, line, g, rest, expected);
    }
  }

  lemma StretchOpenAtEnd(read: Reader, line: string, g: string, rest: string, expected: seq<Heading>)
    requires Leads(read, line, g) && !EndsInBreak(g) && expected != [] && expected[0].start == 0
    ensures !Follows(read, line, g + rest, Translate(expected, |g|))
  {
    var first := Translate(expected, |line + g|)[0];
    TranslateTwice(expected, |g|, |line|, |line + g|);
    FirstTranslated(HeadingsIn(read, line), expected, |line + g|);
    NoBreakBefore(read, line, g, rest, first);
  }

  lemma FirstTranslated(a: seq<Heading>, b: seq<Heading>, n: nat)
    requires b != []
    ensures Translate(b, n)[0] in a + Translate(b, n)
  {
    assert (a + Translate(b, n))[|a|] == Translate(b, n)[0];
  }

  lemma NoBreakBefore(read: Reader, line: string, g: string, rest: string, h: Heading)
    requires Leads(read, line, g) && !EndsInBreak(g) && h.start == |line + g|
    ensures h !in HeadingsIn(read, line + (g + rest))
  {
    assert (line + (g + rest))[h.start - 1] == if g == "" then line[|line| - 1] else g[|g| - 1];
    if h in HeadingsIn(read, line + (g + rest)) {
      HeadingIsLine(read, line + (g + rest), h);
      assert false;
    }
  }

  lemma HeadingsInside(read: Reader, t: string)
    ensures forall h :: h in HeadingsIn(read, t) ==> h.start < |t|
  {
    forall h | h in HeadingsIn(read, t) ensures h.start < |t| {
      HeadingIsLine(read, t, h);
    }
  }

  /** Lists of headings before and behind a place agree together when each does. */
  lemma AgreeInParts(all: seq<Heading>, a: seq<Heading>, b: seq<Heading>, c: seq<Heading>, d: seq<Heading>, n: nat)
    requires all == a + Translate(b, n)
    requires forall h :: h in a || h in c ==> h.start < n
    ensures all == c + Translate(d, n) <==> a == c && b == d
  {
    TranslateInjective(b, d, n);
    SplitByStart(a, Translate(b, n), c, Translate(d, n), n);
  }

  lemma StretchThenRest(read: Reader, line: string, g: string, rest: string, expected: seq<Heading>)
    requires Leads(read, line, g) && EndsInBreak(g)
    ensures Follows(read, line, g + rest, Translate(expected, |g|))
            <==> WholeLines(read, g) && HeadingsIn(read, rest) == expected
  {
    TranslateTwice(expected, |g|, |line|, |line + g|);
    ConcatAssoc(line, g, rest);
    HeadingsBehindBreak(read, line + g, rest);
    StretchKeepsHeading(read, line, g);
    HeadingsInside(read, line);
    HeadingsInside(read, line + g);
    AgreeInParts(HeadingsIn(read, line + g + rest), HeadingsIn(read, line + g), HeadingsIn(read, rest),
                 HeadingsIn(read, line), expected, |line + g|);
  }
}
