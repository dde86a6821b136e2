/**
 Headings, sections and accepted edits of a prompt (`anthrouter/caveman_rewrite.py`), said of
 the text itself: which lines are headings, where a section ends, and where an edit may land.
 */
module CavemanSections {
  import opened Common
  import opened CavemanConfinement
  import opened CavemanEdits
  import opened HeadingLines

  // ---- Heading lines ---------------------------------------------------------

  /** `n` hashes and a blank, and something behind them. */
  predicate OpensWith(line: string, n: nat) {
    n + 2 <= |line| && (forall i :: 0 <= i < n ==> line[i] == '#') && line[n] in {' ', '\t'}
  }

  lemma {:induction false} HashesCounted(line: string, i: nat, n: nat)
    requires i <= n <= |line| && forall k :: i <= k < n ==> line[k] == '#'
    requires n < |line| ==> line[n] != '#'
    ensures HashesEnd(line, i) == n
    decreases n - i
  {
    if i < n {
      HashesCounted(line, i + 1, n);
    }
  }

  lemma {:induction false} HashesAreHashes(line: string, i: nat)
    requires i <= |line|
    ensures forall k :: i <= k < HashesEnd(line, i) ==> line[k] == '#'
    decreases |line| - i
  {
    if i < |line| && line[i] == '#' {
      HashesAreHashes(line, i + 1);
    }
  }

  lemma {:induction false} SkippedAreBlank(s: string)
    ensures |SkipBlanks(s)| <= |s| && SkipBlanks(s) == s[|s| - |SkipBlanks(s)|..]
    ensures forall i :: 0 <= i < |s| - |SkipBlanks(s)| ==> IsBlankChar(s[i])
    ensures SkipBlanks(s) != "" ==> !IsBlankChar(SkipBlanks(s)[0])
  {
    if s != "" && IsBlankChar(s[0]) {
      SkippedAreBlank(s[1..]);
      assert forall i :: 0 < i < |s| ==> s[i] == s[1..][i - 1];
    }
  }

  lemma {:induction false} TrimmedAreBlank(s: string)
    ensures TrimBlanks(s) <= s
    ensures forall i :: |TrimBlanks(s)| <= i < |s| ==> IsBlankChar(s[i])
    ensures TrimBlanks(s) != "" ==> !IsBlankChar(TrimBlanks(s)[|TrimBlanks(s)| - 1])
    ensures s != "" && !IsBlankChar(s[0]) ==> TrimBlanks(s) != ""
  {
    if s != "" && IsBlankChar(s[|s| - 1]) {
      TrimmedAreBlank(s[..|s| - 1]);
    }
  }

  predicate AllBlankFrom(line: string, from: nat, to: nat)
    requires to <= |line|
  {
    forall i :: from <= i < to ==> line[i] in {' ', '\t'}
  }

  /** The title of a line behind `n` hashes: `line[a..b]`, with blanks only around it. */
  predicate IsTitle(line: string, n: nat, title: string, a: nat, b: nat) {
    && n < a < b <= |line| && title == line[a..b]
    && AllBlankFrom(line, n, a) && AllBlankFrom(line, b, |line|)
    && (if AllBlankFrom(line, n, |line|) then a == |line| - 1
        else line[a] !in {' ', '\t'} && line[b - 1] !in {' ', '\t'})
  }

  /** A blank title, of which only the last blank is left. */
  lemma BlankTitle(line: string, n: nat)
    requires n + 2 <= |line| && AllBlankFrom(line, n, |line|)
    ensures IsTitle(line, n, line[|line| - 1..], |line| - 1, |line|)
  {
  }

  lemma TrimmedTitle(line: string, n: nat, a: nat, rest: string)
    requires n < a < |line| && rest == line[a..] && AllBlankFrom(line, n, a) && !IsBlankChar(line[a])
    ensures IsTitle(line, n, TrimBlanks(rest), a, a + |TrimBlanks(rest)|)
  {
    TrimmedAreBlank(rest);
    var b := a + |TrimBlanks(rest)|;
    assert forall i :: a <= i < |line| ==> line[i] == rest[i - a];
    assert TrimBlanks(rest) == rest[..b - a] == line[a..b];
  }

  lemma TitleIsTitle(line: string)
    requires IsHeading(line)
    ensures exists a, b :: IsTitle(line, Hashes(line), TitleOf(line), a, b)
  {
    var n := Hashes(line);
    var rest := SkipBlanks(line[n..]);
    var a := |line| - |rest|;
    SkippedAreBlank(line[n..]);
    assert AllBlankFrom(line, n, a) by {
      assert forall i :: n <= i < a ==> line[i] == line[n..][i - n];
    }
    if rest == "" {
      BlankTitle(line, n);
      assert TitleOf(line) == line[|line| - 1..];
    } else {
      assert rest == line[a..];
      TrimmedTitle(line, n, a, rest);
      assert TitleOf(line) == TrimBlanks(rest);
    }
  }

  /** A line is a heading of this level and title. */
  ghost predicate ReadsAs(line: string, level: nat, title: string) {
    1 <= level <= 6 && OpensWith(line, level) && exists a, b :: IsTitle(line, level, title, a, b)
  }

  lemma OneTitle(line: string, n: nat, s: string, a: nat, b: nat, s': string, a': nat, b': nat)
    requires IsTitle(line, n, s, a, b) && IsTitle(line, n, s', a', b')
    ensures s == s'
  {
    if !AllBlankFrom(line, n, |line|) {
      assert a == a' && b == b';
    } else {
      assert b == |line| == b';
    }
  }

  /** A line reads as a heading exactly when it opens with one to six hashes and a blank and goes on. */
  lemma ReadingMeans(line: string, level: nat, title: string)
    ensures ReadHeading(line) == Some(Title(level, title)) <==> ReadsAs(line, level, title)
  {
    HashesAreHashes(line, 0);
    if IsHeading(line) {
      TitleIsTitle(line);
    }
    if ReadsAs(line, level, title) {
      HashesCounted(line, 0, level);
      TitleIsTitle(line);
      var a, b :| IsTitle(line, level, title, a, b);
      var a', b' :| IsTitle(line, level, TitleOf(line), a', b');
      OneTitle(line, level, title, a, b, TitleOf(line), a', b');
    }
  }

  /** `h` is a whole line of `t` that reads as a heading. */
  ghost predicate IsHeadingLine(t: string, h: Heading) {
    && h.start <= h.end <= |t|
    && (h.start == 0 || t[h.start - 1] == '\n') && (h.end == |t| || t[h.end] == '\n')
    && '\n' !in t[h.start..h.end]
    && ReadsAs(t[h.start..h.end], h.level, h.title)
  }

  lemma LineEndIs(t: string, p: nat, e: nat)
    requires p <= e <= |t| && '\n' !in t[p..e] && (e == |t| || t[e] == '\n')
    ensures LineEnd(t, p) == e
  {
    LineEndAcross(t, p, e);
  }

  lemma HeadingLineIsLine(t: string, h: Heading)
    ensures IsLine(READER, t, h) <==> IsHeadingLine(t, h)
  {
    if h.start <= h.end <= |t| {
      ReadingMeans(t[h.start..h.end], h.level, h.title);
      if '\n' !in t[h.start..h.end] && (h.end == |t| || t[h.end] == '\n') {
        LineEndIs(t, h.start, h.end);
      }
    }
  }

  lemma BreakEndsLine(t: string, p: nat, q: nat)
    requires p <= q < |t| && t[q] == '\n'
    ensures LineEnd(t, p) <= q
  {
    if q < LineEnd(t, p) {
      assert t[p..LineEnd(t, p)][q - p] == '\n';
    }
    LineHasNoBreak(t, p);
  }

  lemma {:induction false} LineIsFound(read: Reader, t: string, p: nat, h: Heading)
    requires p <= h.start && IsLine(read, t, h)
    ensures h in HeadingsFrom(read, t, p)
    decreases |t| - p
  {
    var e := LineEnd(t, p);
    if h.start == p {
      assert h in HeadingOn(read, t, p, e);
    } else {
      BreakEndsLine(t, p, h.start - 1);
      LineIsFound(read, t, e + 1, h);
    }
  }

  /** The headings of a prompt are exactly its lines that read as one, in order. */
  lemma HeadingsAreTheLines(t: string, h: Heading)
    ensures h in Headings(t) <==> IsHeadingLine(t, h)
    ensures forall i, j :: 0 <= i < j < |Headings(t)| ==> Headings(t)[i].end <= Headings(t)[j].start
  {
    HeadingLineIsLine(t, h);
    HeadingsAreLaid(READER, t, 0);
    if h in Headings(t) {
      HeadingIsLine(READER, t, h);
    }
    if IsHeadingLine(t, h) {
      LineIsFound(READER, t, 0, h);
    }
    forall i, j | 0 <= i < j < |Headings(t)| ensures Headings(t)[i].end <= Headings(t)[j].start {
      LaidApart(t, Headings(t), 0, i, j);
    }
  }

  lemma {:induction false} LaidApart(t: string, hs: seq<Heading>, pos: nat, i: nat, j: nat)
    requires Laid(READER, t, hs, pos) && i < j < |hs|
    ensures hs[i].end <= hs[j].start
  {
    if i == 0 {
      LaidInside(READER, t, hs[1..], hs[0].end, j - 1);
    } else {
      LaidApart(t, hs[1..], hs[0].end, i - 1, j - 1);
    }
  }

  // ---- Where sections end ----------------------------------------------------

  /** A heading that ends the section of `h`: behind it, and of the same or a higher level. */
  ghost predicate Ends(t: string, h: Heading, later: Heading) {
    IsHeadingLine(t, later) && h.start < later.start && later.level <= h.level
  }

  /** The section of `h` runs to the first heading that ends it, or to the end of the text. */
  ghost predicate RunsTo(t: string, h: Heading, end: nat) {
    && (end == |t| || exists later :: Ends(t, h, later) && later.start == end)
    && (forall later :: Ends(t, h, later) ==> end <= later.start)
  }

  lemma OneEnd(t: string, h: Heading, a: nat, b: nat)
    requires RunsTo(t, h, a) && RunsTo(t, h, b)
    ensures a == b
  {
  }

  lemma {:induction false} SectionEndIsFirst(t: string, hs: seq<Heading>, pos: nat, level: nat)
    requires Laid(READER, t, hs, pos) && pos <= |t|
    ensures var end := SectionEnd(t, hs, level);
            && pos <= end <= |t|
            && (end == |t| || exists i :: 0 <= i < |hs| && hs[i].level <= level && hs[i].start == end)
            && (forall i :: 0 <= i < |hs| && hs[i].level <= level ==> end <= hs[i].start)
  {
    if hs != [] {
      LaidInside(READER, t, hs, pos, 0);
      SectionEndIsFirst(t, hs[1..], hs[0].end, level);
      if hs[0].level <= level {
        forall i | 0 <= i < |hs| ensures hs[0].start <= hs[i].start {
          if i > 0 {
            LaidApart(t, hs, pos, 0, i);
          }
        }
      } else {
        var end := SectionEnd(t, hs[1..], level);
        assert forall i :: 0 < i < |hs| ==> hs[i] == hs[1..][i - 1];
        if end != |t| {
          var k :| 0 <= k < |hs[1..]| && hs[1..][k].level <= level && hs[1..][k].start == end;
          assert hs[k + 1].start == end;
        }
      }
    }
  }

  lemma {:induction false} LaidTail(t: string, hs: seq<Heading>, pos: nat, i: nat)
    requires Laid(READER, t, hs, pos) && i < |hs|
    ensures Laid(READER, t, hs[i + 1..], hs[i].end)
  {
    if i > 0 {
      LaidTail(t, hs[1..], hs[0].end, i - 1);
      assert hs[1..][i..] == hs[i + 1..];
    }
  }

  /** The headings behind heading `i` are those that start behind it. */
  lemma LaterHeading(t: string, hs: seq<Heading>, i: nat, h: Heading)
    requires hs == Headings(t) && i < |hs|
    ensures h in hs[i + 1..] <==> IsHeadingLine(t, h) && hs[i].start < h.start
  {
    HeadingsAreTheLines(t, h);
    HeadingsAreLaid(READER, t, 0);
    if h in hs {
      var j :| 0 <= j < |hs| && hs[j] == h;
      LaidInside(READER, t, hs, 0, j);
      LaidInside(READER, t, hs, 0, i);
      if i < j {
        assert hs[i + 1..][j - i - 1] == h;
      }
    }
  }

  lemma SectionRunsToEnd(t: string, hs: seq<Heading>, i: nat)
    requires hs == Headings(t) && i < |hs|
    ensures RunsTo(t, hs[i], SectionEnd(t, hs[i + 1..], hs[i].level))
  {
    var h, rest := hs[i], hs[i + 1..];
    HeadingsAreLaid(READER, t, 0);
    LaidTail(t, hs, 0, i);
    LaidInside(READER, t, hs, 0, i);
    SectionEndIsFirst(t, rest, h.end, h.level);
    forall later ensures Ends(t, h, later) <==> later in rest && later.level <= h.level {
      LaterHeading(t, hs, i, later);
    }
    EndsAmong(t, h, rest, SectionEnd(t, rest, h.level));
  }

  lemma EndsAmong(t: string, h: Heading, rest: seq<Heading>, end: nat)
    requires forall later :: Ends(t, h, later) <==> later in rest && later.level <= h.level
    requires end == |t| || exists i :: 0 <= i < |rest| && rest[i].level <= h.level && rest[i].start == end
    requires forall i :: 0 <= i < |rest| && rest[i].level <= h.level ==> end <= rest[i].start
    ensures RunsTo(t, h, end)
  {
    if end != |t| {
      var i :| 0 <= i < |rest| && rest[i].level <= h.level && rest[i].start == end;
      assert Ends(t, h, rest[i]);
    }
  }

  lemma {:induction false} SectionsAreOfHeadings(t: string, hs: seq<Heading>, opens: Heading -> bool, s: Section)
    ensures s in SectionsOf(t, hs, opens) <==>
              exists i :: 0 <= i < |hs| && opens(hs[i])
                          && s == Section(hs[i].start, SectionEnd(t, hs[i + 1..], hs[i].level))
  {
    if hs != [] {
      var rest := hs[1..];
      SectionsAreOfHeadings(t, rest, opens, s);
      forall i | 0 <= i < |rest| ensures rest[i] == hs[i + 1] && rest[i + 1..] == hs[i + 2..] {
      }
      if s in SectionsOf(t, rest, opens) {
        var i :| 0 <= i < |rest| && opens(rest[i])
                 && s == Section(rest[i].start, SectionEnd(t, rest[i + 1..], rest[i].level));
        assert opens(hs[i + 1]) && s == Section(hs[i + 1].start, SectionEnd(t, hs[i + 1 + 1..], hs[i + 1].level));
      }
      if i: nat :| i < |hs| && opens(hs[i]) && s == Section(hs[i].start, SectionEnd(t, hs[i + 1..], hs[i].level)) {
        if i > 0 {
          assert opens(rest[i - 1]);
          assert s == Section(rest[i - 1].start, SectionEnd(t, rest[i - 1 + 1..], rest[i - 1].level));
        }
      }
    }
  }

  /** `s` is the section of a heading that `opens` one. */
  ghost predicate IsSectionOf(t: string, opens: Heading -> bool, s: Section) {
    exists h :: IsHeadingLine(t, h) && opens(h) && s.start == h.start && RunsTo(t, h, s.end)
  }

  lemma SectionsAreExact(t: string, opens: Heading -> bool, s: Section)
    ensures s in SectionsOf(t, Headings(t), opens) <==> IsSectionOf(t, opens, s)
  {
    var hs := Headings(t);
    SectionsAreOfHeadings(t, hs, opens, s);
    if s in SectionsOf(t, hs, opens) {
      var i :| 0 <= i < |hs| && opens(hs[i]) && s == Section(hs[i].start, SectionEnd(t, hs[i + 1..], hs[i].level));
      HeadingsAreTheLines(t, hs[i]);
      SectionRunsToEnd(t, hs, i);
    }
    if IsSectionOf(t, opens, s) {
      var h :| IsHeadingLine(t, h) && opens(h) && s.start == h.start && RunsTo(t, h, s.end);
      HeadingsAreTheLines(t, h);
      var i :| 0 <= i < |hs| && hs[i] == h;
      SectionRunsToEnd(t, hs, i);
      OneEnd(t, h, s.end, SectionEnd(t, hs[i + 1..], h.level));
    }
  }

  // ---- Ruleset and communication sections ------------------------------------

  ghost predicate IsRulesetSection(t: string, v: Vocabulary, s: Section) {
    exists h :: IsHeadingLine(t, h) && v.ruleset(h.title) && s.start == h.start && RunsTo(t, h, s.end)
  }

  ghost predicate IsCommSection(t: string, v: Vocabulary, s: Section) {
    && (exists h :: IsHeadingLine(t, h) && v.comm(h.title) && s.start == h.start && RunsTo(t, h, s.end))
    && forall r :: IsRulesetSection(t, v, r) ==> !(r.start <= s.start < r.end)
  }

  /**
   The sections of a prompt: each runs from its heading line to the next one of the same or a
   higher level, or to the end of the text; a communication section does not start inside a
   ruleset section.
   */
  lemma SectionsAreDelimited(t: string, v: Vocabulary, s: Section)
    ensures s in RulesetSections(t, v) <==> IsRulesetSection(t, v, s)
    ensures s in CommSections(t, v) <==> IsCommSection(t, v, s)
  {
    RulesetsAreDelimited(t, v, s);
    var ruleset := RulesetSections(t, v);
    var opens := OpensComm(v, ruleset);
    SectionsAreExact(t, opens, s);
    forall r ensures r in ruleset <==> IsRulesetSection(t, v, r) {
      RulesetsAreDelimited(t, v, r);
    }
    InSomeRuleset(t, v, s.start);
  }

  lemma RulesetsAreDelimited(t: string, v: Vocabulary, s: Section)
    ensures s in RulesetSections(t, v) <==> IsRulesetSection(t, v, s)
  {
    SectionsAreExact(t, OpensRuleset(v), s);
  }

  lemma InSomeRuleset(t: string, v: Vocabulary, p: nat)
    ensures InSections(RulesetSections(t, v), p)
            <==> exists r :: IsRulesetSection(t, v, r) && r.start <= p < r.end
  {
    var ruleset := RulesetSections(t, v);
    if InSections(ruleset, p) {
      var i :| 0 <= i < |ruleset| && ruleset[i].start <= p < ruleset[i].end;
      RulesetsAreDelimited(t, v, ruleset[i]);
    }
    if r :| IsRulesetSection(t, v, r) && r.start <= p < r.end {
      RulesetsAreDelimited(t, v, r);
      var i :| 0 <= i < |ruleset| && ruleset[i] == r;
    }
  }

  // ---- Where an edit may land ------------------------------------------------

  /** `find` stands in `t` at `p`. */
  predicate IsAt(t: string, find: string, p: nat) {
    exists rest :: 0 <= rest <= |t| && p + |find| == rest && t[p..rest] == find
  }

  lemma OccursMeans(t: string, find: string, p: nat)
    ensures OccursAt(t, find, p) <==> IsAt(t, find, p)
  {
    if OccursAt(t, find, p) {
      var rest := p + |find|;
      assert 0 <= rest <= |t| && t[p..rest] == find;
    }
  }

  /** The only place where `find` occurs, inside a communication section and clear of all that is protected. */
  ghost predicate Lands(t: string, v: Vocabulary, find: string, start: nat, end: nat) {
    && find != "" && end == start + |find| && IsAt(t, find, start)
    && (forall p: nat :: IsAt(t, find, p) ==> p == start)
    && (exists s :: IsCommSection(t, v, s) && s.start <= start && end <= s.end)
    && (forall s :: IsRulesetSection(t, v, s) ==> end <= s.start || s.end <= start)
    && (forall h :: IsHeadingLine(t, h) ==> end <= h.start || h.end <= start)
  }

  lemma FoundOnce(t: string, find: string, start: nat)
    ensures FindFrom(t, find, 0) == start && FindFrom(t, find, start + 1) < 0
            <==> IsAt(t, find, start) && forall p: nat :: IsAt(t, find, p) ==> p == start
  {
    forall p: nat ensures OccursAt(t, find, p) <==> IsAt(t, find, p) {
      OccursMeans(t, find, p);
    }
  }

  lemma SectionsOnTheWay(t: string, v: Vocabulary, start: nat, end: nat)
    ensures InSomeSection(CommSections(t, v), start, end)
            <==> exists s :: IsCommSection(t, v, s) && s.start <= start && end <= s.end
    ensures ApartFromSections(RulesetSections(t, v), start, end)
            <==> forall s :: IsRulesetSection(t, v, s) ==> end <= s.start || s.end <= start
    ensures ApartFromHeadings(Headings(t), start, end)
            <==> forall h :: IsHeadingLine(t, h) ==> end <= h.start || h.end <= start
  {
    InSomeComm(t, v, start, end);
    ApartFromRulesets(t, v, start, end);
    var hs := Headings(t);
    forall h ensures h in hs <==> IsHeadingLine(t, h) {
      HeadingsAreTheLines(t, h);
    }
    if forall h :: IsHeadingLine(t, h) ==> end <= h.start || h.end <= start {
      forall i | 0 <= i < |hs| ensures Apart(start, end, hs[i].start, hs[i].end) {
        assert hs[i] in hs;
      }
    }
  }

  lemma InSomeComm(t: string, v: Vocabulary, start: nat, end: nat)
    ensures InSomeSection(CommSections(t, v), start, end)
            <==> exists s :: IsCommSection(t, v, s) && s.start <= start && end <= s.end
  {
    var sections := CommSections(t, v);
    if InSomeSection(sections, start, end) {
      var i :| 0 <= i < |sections| && sections[i].start <= start && end <= sections[i].end;
      SectionsAreDelimited(t, v, sections[i]);
    }
    if s :| IsCommSection(t, v, s) && s.start <= start && end <= s.end {
      SectionsAreDelimited(t, v, s);
      var i :| 0 <= i < |sections| && sections[i] == s;
    }
  }

  lemma ApartFromRulesets(t: string, v: Vocabulary, start: nat, end: nat)
    ensures ApartFromSections(RulesetSections(t, v), start, end)
            <==> forall s :: IsRulesetSection(t, v, s) ==> end <= s.start || s.end <= start
  {
    var sections := RulesetSections(t, v);
    forall s ensures s in sections <==> IsRulesetSection(t, v, s) {
      RulesetsAreDelimited(t, v, s);
    }
    if forall s :: IsRulesetSection(t, v, s) ==> end <= s.start || s.end <= start {
      forall i | 0 <= i < |sections| ensures Apart(start, end, sections[i].start, sections[i].end) {
        assert sections[i] in sections;
      }
    }
  }

  /** What the loop checks of a text that occurs only at `start`. */
  predicate Checked(t: string, v: Vocabulary, start: nat, end: nat) {
    && InSomeSection(CommSections(t, v), start, end)
    && ApartFromSections(RulesetSections(t, v), start, end) && ApartFromHeadings(Headings(t), start, end)
  }

  lemma SpanIsChecked(t: string, v: Vocabulary, op: Op, span: Span)
    ensures SpanOf(t, v, op) == Some(span) <==>
              && op.Op? && op.find != "" && span.end == span.start + |op.find| && span.replace == op.replace
              && FindFrom(t, op.find, 0) == span.start && FindFrom(t, op.find, span.start + 1) < 0
              && Checked(t, v, span.start, span.end)
  {
  }

  /** An op is valid exactly when its text lands, and stands for the interval it lands on. */
  lemma OpLands(t: string, v: Vocabulary, op: Op, span: Span)
    ensures SpanOf(t, v, op) == Some(span) <==>
              op.Op? && Lands(t, v, op.find, span.start, span.end) && span.replace == op.replace
  {
    SpanIsChecked(t, v, op, span);
    SectionsOnTheWay(t, v, span.start, span.end);
    if op.Op? {
      FoundOnce(t, op.find, span.start);
    }
  }

  /** Every op lands on the span beside it. */
  ghost predicate AllLand(t: string, v: Vocabulary, ops: seq<Op>, spans: seq<Span>) {
    |spans| == |ops| && forall i :: 0 <= i < |ops| ==>
      ops[i].Op? && Lands(t, v, ops[i].find, spans[i].start, spans[i].end) && spans[i].replace == ops[i].replace
  }

  lemma LandingsAreSpans(t: string, v: Vocabulary, ops: seq<Op>, spans: seq<Span>)
    ensures AllLand(t, v, ops, spans) <==> AllValid(t, v, ops) && spans == SpansOf(t, v, ops)
  {
    if |spans| == |ops| {
      forall i | 0 <= i < |ops|
        ensures SpanOf(t, v, ops[i]) == Some(spans[i]) <==>
                  && ops[i].Op? && Lands(t, v, ops[i].find, spans[i].start, spans[i].end)
                  && spans[i].replace == ops[i].replace
      {
        OpLands(t, v, ops[i], spans[i]);
      }
    }
  }

  /**
   The whole of `apply_edits`: a list of ops is accepted if and only if each of them lands, on
   spans no two of which overlap; the result is then the text with every span replaced.
   */
  lemma EditsAreAccepted(t: string, v: Vocabulary, ops: seq<Op>, spans: seq<Span>)
    ensures Edited(t, v, ops).Some? ==> exists landed :: AllLand(t, v, ops, landed)
    ensures AllLand(t, v, ops, spans) ==>
              Edited(t, v, ops)
              == if Disjoint(multiset(spans)) then Some((Substitute(t, multiset(spans), 0), |ops|)) else None
  {
    LandingsAreSpans(t, v, ops, spans);
    EditsAreSubstitution(t, v, ops);
    if AllValid(t, v, ops) {
      LandingsAreSpans(t, v, ops, SpansOf(t, v, ops));
    }
  }
}
