/**
 What an accepted set of edits does to a prompt: a simultaneous substitution, independent
 of the order of the ops, that leaves every byte outside communication sections, every
 ruleset section and every heading's own bytes in place.
 */
module CavemanConfinement {
  import opened Common
  import opened CavemanEdits

  // ---- Acceptance and result, independent of order ---------------------------

  predicate SpansApart(a: Span, b: Span) {
    Apart(a.start, a.end, b.start, b.end)
  }

  /** Pairwise disjoint: equal spans count as overlapping, so each occurs once. */
  ghost predicate Disjoint(ms: multiset<Span>) {
    && (forall a :: a in ms ==> ms[a] == 1)
    && (forall a, b :: a in ms && b in ms && a != b ==> SpansApart(a, b))
  }

  /** The text read from `pos` on, with the span that starts at a position replaced there. */
  ghost function Substitute(t: string, spans: multiset<Span>, pos: nat): string
    decreases |t| - pos
  {
    if pos >= |t| then ""
    else if exists s :: s in spans && s.start == pos && pos < s.end <= |t| then
      var s :| s in spans && s.start == pos && pos < s.end <= |t|;
      s.replace + Substitute(t, spans, s.end)
    else [t[pos]] + Substitute(t, spans, pos + 1)
  }

  lemma {:induction false} OrderedMembers(s: seq<Span>, from: nat, len: nat)
    requires Ordered(s, from, len)
    ensures from <= len
    ensures forall x :: x in s ==> from <= x.start < x.end <= len
    ensures forall x :: x in s && s[0] != x ==> s[0].end <= x.start
    ensures s != [] ==> s[0] !in s[1..]
  {
    if s != [] {
      OrderedMembers(s[1..], s[0].end, len);
    }
  }

  lemma {:induction false} OrderedIsDisjoint(s: seq<Span>, from: nat, len: nat)
    requires Ordered(s, from, len)
    ensures Disjoint(multiset(s))
  {
    if s != [] {
      OrderedMembers(s, from, len);
      OrderedIsDisjoint(s[1..], s[0].end, len);
      assert s == [s[0]] + s[1..];
      assert multiset(s) == multiset{s[0]} + multiset(s[1..]);
      assert forall x :: x in multiset(s[1..]) <==> x in s[1..];
    }
  }

  lemma {:induction false} DisjointIsOrdered(s: seq<Span>, from: nat, len: nat)
    requires Disjoint(multiset(s)) && Increasing(s) && from <= len
    requires forall x :: x in s ==> x.start < x.end <= len
    requires s != [] ==> from <= s[0].start
    ensures Ordered(s, from, len)
  {
    if s != [] {
      var rest := s[1..];
      assert s == [s[0]] + rest;
      assert multiset(s) == multiset{s[0]} + multiset(rest);
      forall a | a in multiset(rest) ensures multiset(rest)[a] == 1 {
        assert a in multiset(s);
      }
      if rest != [] {
        assert rest[0] in multiset(rest) && s[0] in multiset(s);
        assert multiset(s)[s[0]] == 1 && multiset(rest)[s[0]] == 0;
        assert SpansApart(s[0], rest[0]);
      }
      DisjointIsOrdered(rest, s[0].end, len);
    }
  }

  lemma SubstituteAt(t: string, all: multiset<Span>, x: Span)
    requires x in all && x.start < x.end <= |t|
    requires forall s :: s in all && s.start == x.start ==> s == x
    ensures Substitute(t, all, x.start) == x.replace + Substitute(t, all, x.end)
  {
  }

  lemma SubstituteKeeps(t: string, all: multiset<Span>, pos: nat)
    requires pos < |t| && forall s :: s in all ==> s.start != pos
    ensures Substitute(t, all, pos) == [t[pos]] + Substitute(t, all, pos + 1)
  {
  }

  lemma {:induction false} SubstituteUntil(t: string, all: multiset<Span>, pos: nat, end: nat)
    requires pos <= end <= |t|
    requires forall s :: s in all ==> s.start < pos || end <= s.start
    ensures Substitute(t, all, pos) == t[pos..end] + Substitute(t, all, end)
    decreases end - pos
  {
    if pos < end {
      SubstituteUntil(t, all, pos + 1, end);
      SubstituteKeeps(t, all, pos);
      assert t[pos..end] == [t[pos]] + t[pos + 1..end];
    }
  }

  /** Splicing ordered spans is the simultaneous substitution. */
  lemma {:induction false} BuildIsSubstitution(t: string, spans: seq<Span>, all: multiset<Span>, pos: nat)
    requires Ordered(spans, pos, |t|)
    requires forall s :: s in spans ==> s in all
    requires forall s :: s in all ==> s in spans || s.start < pos
    ensures Build(t, spans, pos) == Substitute(t, all, pos)
    decreases |spans|
  {
    OrderedMembers(spans, pos, |t|);
    if spans == [] {
      SubstituteUntil(t, all, pos, |t|);
    } else {
      var x := spans[0];
      forall s | s in all ensures s in spans[1..] || s == x || s.start < pos {
      }
      SubstituteUntil(t, all, pos, x.start);
      SubstituteAt(t, all, x);
      BuildIsSubstitution(t, spans[1..], all, x.end);
      ConcatAssoc(t[pos..x.start], x.replace, Build(t, spans[1..], x.end));
    }
  }

  /**
   Edits are accepted exactly when every op lands and no two spans overlap; the result is
   then the simultaneous substitution of the spans.
   */
  lemma EditsAreSubstitution(t: string, v: Vocabulary, ops: seq<Op>)
    ensures Edited(t, v, ops).Some? <==> AllValid(t, v, ops) && Disjoint(multiset(SpansOf(t, v, ops)))
    ensures Edited(t, v, ops).Some? ==>
              Edited(t, v, ops).value == (Substitute(t, multiset(SpansOf(t, v, ops)), 0), |ops|)
  {
    if AllValid(t, v, ops) {
      var spans := SpansOf(t, v, ops);
      var sorted := SortSpans(spans);
      SortIncreasing(spans);
      assert forall x :: x in sorted <==> x in multiset(sorted);
      assert forall x :: x in spans <==> x in multiset(spans);
      if Ordered(sorted, 0, |t|) {
        OrderedIsDisjoint(sorted, 0, |t|);
        BuildIsSubstitution(t, sorted, multiset(spans), 0);
      } else if Disjoint(multiset(spans)) {
        DisjointIsOrdered(sorted, 0, |t|);
      }
    }
  }

  /** A total form of `SpanOf`, for bags of spans. */
  function SpanOr(t: string, v: Vocabulary, op: Op): Span {
    var s := SpanOf(t, v, op);
    if s.Some? then s.value else Span(0, 0, "")
  }

  lemma SpansCons(t: string, v: Vocabulary, ops: seq<Op>)
    requires ops != [] && AllValid(t, v, ops)
    ensures AllValid(t, v, ops[1..])
    ensures SpansOf(t, v, ops) == [SpanOr(t, v, ops[0])] + SpansOf(t, v, ops[1..])
  {
  }

  lemma {:induction false} SpansAsBag(t: string, v: Vocabulary, ops: seq<Op>)
    requires AllValid(t, v, ops)
    ensures multiset(SpansOf(t, v, ops)) == Bag((o: Op) => SpanOr(t, v, o), ops)
  {
    if ops != [] {
      SpansCons(t, v, ops);
      SpansAsBag(t, v, ops[1..]);
    }
  }

  lemma SpansPermute(t: string, v: Vocabulary, a: seq<Op>, b: seq<Op>)
    requires multiset(a) == multiset(b)
    requires AllValid(t, v, a) && AllValid(t, v, b)
    ensures multiset(SpansOf(t, v, a)) == multiset(SpansOf(t, v, b))
  {
    SpansAsBag(t, v, a);
    SpansAsBag(t, v, b);
    BagPermute((o: Op) => SpanOr(t, v, o), a, b);
  }

  lemma ValidPermute(t: string, v: Vocabulary, a: seq<Op>, b: seq<Op>)
    requires multiset(a) == multiset(b) && AllValid(t, v, a)
    ensures AllValid(t, v, b)
  {
    forall i | 0 <= i < |b| ensures SpanOf(t, v, b[i]).Some? {
      assert b[i] in multiset(a);
    }
  }

  /** The order in which the model lists its ops changes neither acceptance nor result. */
  lemma OrderOfOpsIsIrrelevant(t: string, v: Vocabulary, a: seq<Op>, b: seq<Op>)
    requires multiset(a) == multiset(b)
    ensures Edited(t, v, a) == Edited(t, v, b)
  {
    EditsAreSubstitution(t, v, a);
    EditsAreSubstitution(t, v, b);
    assert |a| == |multiset(a)| == |multiset(b)| == |b|;
    if AllValid(t, v, a) {
      ValidPermute(t, v, a, b);
      SpansPermute(t, v, a, b);
    }
    if AllValid(t, v, b) {
      ValidPermute(t, v, b, a);
    }
  }

  // ---- Preservation ----------------------------------------------------------

  /** How far the bytes at `p` move: the length changes of the spans that end before it. */
  function Shift(spans: seq<Span>, p: nat): int {
    if spans == [] then 0
    else (if spans[0].end <= p then Delta(spans[0]) else 0) + Shift(spans[1..], p)
  }

  lemma {:induction false} ShiftInsert(x: Span, s: seq<Span>, p: nat)
    ensures Shift(InsertSpan(x, s), p) == Shift([x] + s, p)
  {
    if s != [] && x.start > s[0].start {
      ShiftInsert(x, s[1..], p);
      assert ([s[0]] + InsertSpan(x, s[1..]))[1..] == InsertSpan(x, s[1..]);
      assert ([x] + s)[1..] == s && ([x] + s[1..])[1..] == s[1..];
    }
  }

  lemma {:induction false} ShiftSort(s: seq<Span>, p: nat)
    ensures Shift(SortSpans(s), p) == Shift(s, p)
  {
    if s != [] {
      ShiftSort(s[1..], p);
      ShiftInsert(s[0], SortSpans(s[1..]), p);
      assert ([s[0]] + SortSpans(s[1..]))[1..] == SortSpans(s[1..]);
    }
  }

  lemma {:induction false} NoShiftBefore(s: seq<Span>, from: nat, len: nat, p: nat)
    requires Ordered(s, from, len) && p <= from
    ensures Shift(s, p) == 0
  {
    if s != [] {
      NoShiftBefore(s[1..], s[0].end, len, p);
    }
  }

  /** `n` characters of `r` from `at` on, or nothing when they are not all there. */
  function Slice(r: string, at: int, n: nat): string {
    if 0 <= at && at + n <= |r| then r[at..at + n] else ""
  }

  lemma SurvivesUnedited(t: string, pos: nat, a: nat, b: nat)
    requires pos <= a < b <= |t|
    ensures Slice(t[pos..], a - pos, b - a) == t[a..b]
  {
    SliceOfSlice(t, pos, |t|, a, b);
  }

  lemma SurvivesBefore(t: string, spans: seq<Span>, pos: nat, a: nat, b: nat)
    requires spans != [] && Ordered(spans, pos, |t|) && pos <= a < b <= spans[0].start
    ensures Slice(Build(t, spans, pos), a - pos, b - a) == t[a..b]
  {
    var s, rest := spans[0], Build(t, spans[1..], spans[0].end);
    ConcatAssoc(t[pos..s.start], s.replace, rest);
    SliceOfHead(t[pos..s.start], s.replace + rest, a - pos, b - pos);
    SliceOfSlice(t, pos, s.start, a, b);
  }

  lemma SurvivesAfter(t: string, spans: seq<Span>, pos: nat, at: int, a: nat, b: nat)
    requires spans != [] && Ordered(spans, pos, |t|) && a < b <= |t|
    requires Slice(Build(t, spans[1..], spans[0].end), at, b - a) == t[a..b]
    ensures Slice(Build(t, spans, pos), at + spans[0].end - pos + Delta(spans[0]), b - a) == t[a..b]
  {
    var s := spans[0];
    SliceOfTail(t[pos..s.start] + s.replace, Build(t, spans[1..], s.end), at, at + (b - a));
  }

  predicate AllAvoid(spans: seq<Span>, a: nat, b: nat) {
    spans == [] || (Apart(spans[0].start, spans[0].end, a, b) && AllAvoid(spans[1..], a, b))
  }

  lemma {:induction false} AvoidEach(spans: seq<Span>, a: nat, b: nat)
    requires forall s :: s in spans ==> Apart(s.start, s.end, a, b)
    ensures AllAvoid(spans, a, b)
  {
    if spans != [] {
      assert spans[0] in spans;
      AvoidEach(spans[1..], a, b);
    }
  }

  /** An interval no span touches reappears whole, moved by its shift. */
  lemma {:induction false} IntervalSurvives(t: string, spans: seq<Span>, pos: nat, a: nat, b: nat)
    requires Ordered(spans, pos, |t|) && pos <= a < b <= |t|
    requires AllAvoid(spans, a, b)
    ensures Slice(Build(t, spans, pos), a - pos + Shift(spans, a), b - a) == t[a..b]
  {
    if spans == [] {
      SurvivesUnedited(t, pos, a, b);
    } else if b <= spans[0].start {
      NoShiftBefore(spans[1..], spans[0].end, |t|, a);
      SurvivesBefore(t, spans, pos, a, b);
      assert Shift(spans, a) == 0;
    } else {
      var s := spans[0];
      IntervalSurvives(t, spans[1..], s.end, a, b);
      var at := a - s.end + Shift(spans[1..], a);
      SurvivesAfter(t, spans, pos, at, a, b);
      assert at + s.end - pos + Delta(s) == a - pos + Shift(spans, a);
    }
  }

  lemma {:induction false} BuildLength(t: string, spans: seq<Span>, pos: nat)
    requires Ordered(spans, pos, |t|)
    ensures |Build(t, spans, pos)| == |t| - pos + Shift(spans, |t|)
  {
    if spans != [] {
      OrderedMembers(spans, pos, |t|);
      BuildLength(t, spans[1..], spans[0].end);
    }
  }

  /** Moved bytes keep their order: a span between two places takes no more than lies between them. */
  lemma {:induction false} ShiftKeepsOrder(spans: seq<Span>, pos: nat, len: nat, a: nat, b: nat)
    requires Ordered(spans, pos, len) && a <= b <= len
    requires forall s :: s in spans ==> s.end <= a || a <= s.start
    ensures a + Shift(spans, a) <= b + Shift(spans, b)
  {
    if spans != [] {
      var s := spans[0];
      OrderedMembers(spans, pos, len);
      if s.end <= a {
        ShiftKeepsOrder(spans[1..], s.end, len, a, b);
      } else if s.end <= b {
        NoShiftBefore(spans[1..], s.end, len, s.end);
        NoShiftBefore(spans[1..], s.end, len, a);
        ShiftKeepsOrder(spans[1..], s.end, len, s.end, b);
      } else {
        NoShiftBefore(spans[1..], s.end, len, a);
        NoShiftBefore(spans[1..], s.end, len, b);
      }
    }
  }

  /** Bytes that no edit may touch. */
  predicate Protected(t: string, v: Vocabulary, a: nat, b: nat) {
    && a < b <= |t|
    && (|| ApartFromSections(CommSections(t, v), a, b)
        || (exists i :: 0 <= i < |RulesetSections(t, v)|
              && RulesetSections(t, v)[i].start <= a && b <= RulesetSections(t, v)[i].end)
        || (exists i :: 0 <= i < |Headings(t)|
              && Headings(t)[i].start <= a && b <= Headings(t)[i].end))
  }

  lemma SpanAvoidsProtected(t: string, v: Vocabulary, op: Op, a: nat, b: nat)
    requires SpanOf(t, v, op).Some? && Protected(t, v, a, b)
    ensures Apart(SpanOf(t, v, op).value.start, SpanOf(t, v, op).value.end, a, b)
  {
    var s := SpanOf(t, v, op).value;
    if ApartFromSections(CommSections(t, v), a, b) {
      var i :| 0 <= i < |CommSections(t, v)|
               && CommSections(t, v)[i].start <= s.start && s.end <= CommSections(t, v)[i].end;
    } else if i :| 0 <= i < |RulesetSections(t, v)|
                   && RulesetSections(t, v)[i].start <= a && b <= RulesetSections(t, v)[i].end {
      assert ApartFromSections(RulesetSections(t, v), s.start, s.end);
    } else {
      var i :| 0 <= i < |Headings(t)| && Headings(t)[i].start <= a && b <= Headings(t)[i].end;
      assert ApartFromHeadings(Headings(t), s.start, s.end);
    }
  }

  lemma SortedSpansAvoid(t: string, v: Vocabulary, ops: seq<Op>, a: nat, b: nat)
    requires AllValid(t, v, ops) && Protected(t, v, a, b)
    ensures AllAvoid(SortSpans(SpansOf(t, v, ops)), a, b)
  {
    var spans := SpansOf(t, v, ops);
    SortIncreasing(spans);
    forall s | s in SortSpans(spans) ensures Apart(s.start, s.end, a, b) {
      assert s in multiset(spans);
      var i :| 0 <= i < |ops| && spans[i] == s;
      SpanAvoidsProtected(t, v, ops[i], a, b);
    }
    AvoidEach(SortSpans(spans), a, b);
  }

  /**
   Every protected interval survives byte for byte, moved by the length changes of the
   edits before it; the length of the result is the prompt's plus every length change.
   */
  lemma ProtectedBytesSurvive(t: string, v: Vocabulary, ops: seq<Op>, a: nat, b: nat)
    requires Edited(t, v, ops).Some?
    ensures |Edited(t, v, ops).value.0| == |t| + Shift(SpansOf(t, v, ops), |t|)
    ensures Protected(t, v, a, b) ==>
              Slice(Edited(t, v, ops).value.0, a + Shift(SpansOf(t, v, ops), a), b - a) == t[a..b]
  {
    var spans := SpansOf(t, v, ops);
    ShiftSort(spans, |t|);
    BuildLength(t, SortSpans(spans), 0);
    if Protected(t, v, a, b) {
      ProtectedInterval(t, v, ops, a, b);
    }
  }

  lemma ProtectedInterval(t: string, v: Vocabulary, ops: seq<Op>, a: nat, b: nat)
    requires AllValid(t, v, ops) && Ordered(SortSpans(SpansOf(t, v, ops)), 0, |t|) && Protected(t, v, a, b)
    ensures Slice(Build(t, SortSpans(SpansOf(t, v, ops)), 0), a + Shift(SpansOf(t, v, ops), a), b - a) == t[a..b]
  {
    SortedSpansAvoid(t, v, ops, a, b);
    ShiftSort(SpansOf(t, v, ops), a);
    AvoidedInterval(t, SortSpans(SpansOf(t, v, ops)), Shift(SpansOf(t, v, ops), a), a, b);
  }

  lemma AvoidedInterval(t: string, sorted: seq<Span>, shift: int, a: nat, b: nat)
    requires Ordered(sorted, 0, |t|) && a < b <= |t| && AllAvoid(sorted, a, b) && shift == Shift(sorted, a)
    ensures Slice(Build(t, sorted, 0), a + shift, b - a) == t[a..b]
  {
    IntervalSurvives(t, sorted, 0, a, b);
  }

  /** Two protected intervals keep their order and stay apart. */
  lemma ProtectedOrderSurvives(t: string, v: Vocabulary, ops: seq<Op>, a: nat, b: nat, c: nat, d: nat)
    requires Edited(t, v, ops).Some?
    requires Protected(t, v, a, b) && Protected(t, v, c, d) && b <= c
    ensures b + Shift(SpansOf(t, v, ops), a) <= c + Shift(SpansOf(t, v, ops), c)
  {
    var spans := SpansOf(t, v, ops);
    var sorted := SortSpans(spans);
    SortedSpansAvoid(t, v, ops, a, b);
    OrderedMembers(sorted, 0, |t|);
    ShiftAcross(sorted, a, b);
    ShiftSort(spans, a);
    ShiftSort(spans, c);
    AvoidBoundary(sorted, a, b);
    ShiftKeepsOrder(sorted, 0, |t|, b, c);
  }

  lemma {:induction false} AvoidBoundary(spans: seq<Span>, a: nat, b: nat)
    requires a < b && AllAvoid(spans, a, b)
    requires forall s :: s in spans ==> s.start < s.end
    ensures forall s :: s in spans ==> s.end <= b || b <= s.start
  {
    if spans != [] {
      assert spans[0] in spans;
      AvoidBoundary(spans[1..], a, b);
    }
  }

  lemma {:induction false} ShiftAcross(spans: seq<Span>, a: nat, b: nat)
    requires a < b && AllAvoid(spans, a, b)
    requires forall s :: s in spans ==> s.start < s.end
    ensures Shift(spans, a) == Shift(spans, b)
  {
    if spans != [] {
      assert spans[0] in spans;
      ShiftAcross(spans[1..], a, b);
    }
  }
}
