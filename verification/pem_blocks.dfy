/**
 What a PEM bundle is (section 3 of RFC 7468) beside the scan of `anthrouter/interception.py`:
 text and whole blocks in any order, at least one of them a certificate; and which sources end
 up in a bundle.
 */
module PemBlocks {
  import opened Common
  import opened PemBundle
  import opened Text

  // ---- Text and blocks -------------------------------------------------------

  datatype Item = Note(line: string) | Block(tag: string, body: seq<string>)

  function BeginLine(tag: string): string {
    "-----BEGIN " + tag + "-----"
  }

  function FinalLine(tag: string): string {
    "-----END " + tag + "-----"
  }

  /** Capital letters, digits and blanks. */
  predicate IsTag(tag: string) {
    tag != "" && forall c :: c in tag ==> 'A' <= c <= 'Z' || '0' <= c <= '9' || c == ' '
  }

  ghost predicate Opens(line: string) {
    exists tag :: IsTag(tag) && line == BeginLine(tag)
  }

  /** A note opens no block; a block goes on to its own end, and a certificate can be decoded. */
  ghost predicate ItemOk(check: Checker, item: Item) {
    match item
    case Note(line) => !Opens(line)
    case Block(tag, body) => IsTag(tag) && FinalLine(tag) !in body && (tag == "CERTIFICATE" ==> check(body) == None)
  }

  ghost predicate ItemsOk(check: Checker, items: seq<Item>) {
    items == [] || (ItemsOk(check, items[..|items| - 1]) && ItemOk(check, items[|items| - 1]))
  }

  function LinesOfItem(item: Item): seq<string> {
    match item
    case Note(line) => [line]
    case Block(tag, body) => [BeginLine(tag)] + body + [FinalLine(tag)]
  }

  function LinesOfItems(items: seq<Item>): seq<string> {
    if items == [] then [] else LinesOfItems(items[..|items| - 1]) + LinesOfItem(items[|items| - 1])
  }

  function Certificates(items: seq<Item>): nat {
    if items == [] then 0
    else
      var last := items[|items| - 1];
      Certificates(items[..|items| - 1]) + if last.Block? && last.tag == "CERTIFICATE" then 1 else 0
  }

  lemma OneMoreItem(check: Checker, items: seq<Item>, item: Item)
    requires ItemsOk(check, items) && ItemOk(check, item)
    ensures ItemsOk(check, items + [item])
    ensures LinesOfItems(items + [item]) == LinesOfItems(items) + LinesOfItem(item)
    ensures Certificates(items + [item])
         == Certificates(items) + if item.Block? && item.tag == "CERTIFICATE" then 1 else 0
  {
    assert (items + [item])[..|items|] == items;
  }

  lemma LabelMeans(line: string)
    ensures BeginLabel(line).Some? <==> Opens(line)
    ensures BeginLabel(line).Some? ==> IsTag(BeginLabel(line).value) && line == BeginLine(BeginLabel(line).value)
  {
    if BeginLabel(line).Some? {
      var tag := BeginLabel(line).value;
      assert line == line[..|BEGIN|] + tag + line[|line| - |DASHES|..];
      assert line == BeginLine(tag);
    }
    if tag :| IsTag(tag) && line == BeginLine(tag) {
      LabelOfBegin(tag);
    }
  }

  lemma LabelOfBegin(tag: string)
    requires IsTag(tag)
    ensures BeginLabel(BeginLine(tag)) == Some(tag)
  {
    var line := BeginLine(tag);
    assert line[..|BEGIN|] == BEGIN && line[|line| - |DASHES|..] == DASHES;
    assert line[|BEGIN|..|line| - |DASHES|] == tag;
    assert StartsWith(line, BEGIN) && EndsWith(line, DASHES);
    forall i | 0 <= i < |tag| ensures 'A' <= tag[i] <= 'Z' || '0' <= tag[i] <= '9' || tag[i] == ' ' {
      assert tag[i] in tag;
    }
  }

  // ---- The scan as a reading of the lines ------------------------------------

  /** The lines read so far as whole items, and what is open or failed behind them. */
  ghost predicate Reads(check: Checker, lines: seq<string>, state: Scan) {
    match state
    case Closed(certs) => exists items :: WholeItems(check, lines, items, certs)
    case Open(tag, body, certs) =>
      IsTag(tag) && FinalLine(tag) !in body
      && exists items, before :: WholeItems(check, before, items, certs) && lines == before + ([BeginLine(tag)] + body)
    case Failed(fault) =>
      exists items, before, body, rest, certs ::
        WholeItems(check, before, items, certs) && FinalLine("CERTIFICATE") !in body && check(body) == Some(fault)
        && lines == before + LinesOfItem(Block("CERTIFICATE", body)) + rest
  }

  ghost predicate WholeItems(check: Checker, lines: seq<string>, items: seq<Item>, certs: nat) {
    ItemsOk(check, items) && lines == LinesOfItems(items) && certs == Certificates(items)
  }

  function ScanOver(check: Checker, state: Scan, lines: seq<string>): Scan {
    if lines == [] then state else Advance(check, ScanOver(check, state, lines[..|lines| - 1]), lines[|lines| - 1])
  }

  lemma ReadsClosed(check: Checker, lines: seq<string>, line: string, certs: nat)
    requires Reads(check, lines, Closed(certs))
    ensures Reads(check, lines + [line], Advance(check, Closed(certs), line))
  {
    var items :| WholeItems(check, lines, items, certs);
    LabelMeans(line);
    if BeginLabel(line) == None {
      OneMoreItem(check, items, Note(line));
      assert WholeItems(check, lines + [line], items + [Note(line)], certs);
    } else {
      assert [BeginLine(BeginLabel(line).value)] + [] == [line];
    }
  }

  lemma ReadsMoreBody(check: Checker, lines: seq<string>, line: string, tag: string, body: seq<string>, certs: nat)
    requires Reads(check, lines, Open(tag, body, certs)) && line != FinalLine(tag)
    ensures Reads(check, lines + [line], Open(tag, body + [line], certs))
  {
    var items, before :| WholeItems(check, before, items, certs) && lines == before + ([BeginLine(tag)] + body);
    assert lines + [line] == before + ([BeginLine(tag)] + (body + [line]));
  }

  lemma BlockEnds(before: seq<string>, tag: string, body: seq<string>)
    ensures before + ([BeginLine(tag)] + body) + [FinalLine(tag)] == before + LinesOfItem(Block(tag, body))
    ensures FinalLine(tag) == EndLine(tag)
  {
  }

  lemma ReadsBadBlock(check: Checker, lines: seq<string>, body: seq<string>, certs: nat)
    requires Reads(check, lines, Open("CERTIFICATE", body, certs)) && check(body).Some?
    ensures Reads(check, lines + [FinalLine("CERTIFICATE")], Failed(check(body).value))
  {
    var items, before :|
      WholeItems(check, before, items, certs) && lines == before + ([BeginLine("CERTIFICATE")] + body);
    BlockEnds(before, "CERTIFICATE", body);
    var all := before + LinesOfItem(Block("CERTIFICATE", body));
    assert all == all + [];
  }

  lemma OneMoreBlock(check: Checker, before: seq<string>, items: seq<Item>, block: Item, certs: nat, after: nat)
    requires WholeItems(check, before, items, certs) && ItemOk(check, block) && block.Block?
    requires after == certs + if block.tag == "CERTIFICATE" then 1 else 0
    ensures WholeItems(check, before + LinesOfItem(block), items + [block], after)
  {
    OneMoreItem(check, items, block);
  }

  lemma ReadsWholeBlock(check: Checker, lines: seq<string>, tag: string, body: seq<string>, certs: nat, after: nat)
    requires Reads(check, lines, Open(tag, body, certs)) && ItemOk(check, Block(tag, body))
    requires after == certs + if tag == "CERTIFICATE" then 1 else 0
    ensures Reads(check, lines + [FinalLine(tag)], Closed(after))
  {
    var items, before :| WholeItems(check, before, items, certs) && lines == before + ([BeginLine(tag)] + body);
    BlockEnds(before, tag, body);
    OneMoreBlock(check, before, items, Block(tag, body), certs, after);
  }

  lemma AdvancesToEnd(check: Checker, tag: string, body: seq<string>, certs: nat)
    ensures Advance(check, Open(tag, body, certs), FinalLine(tag))
         == if tag == "CERTIFICATE" && check(body).Some? then Failed(check(body).value)
            else Closed(certs + if tag == "CERTIFICATE" then 1 else 0)
  {
    assert FinalLine(tag) == EndLine(tag);
  }

  lemma ReadsEnd(check: Checker, lines: seq<string>, tag: string, body: seq<string>, certs: nat, state: Scan)
    requires Reads(check, lines, Open(tag, body, certs))
    requires state == if tag == "CERTIFICATE" && check(body).Some? then Failed(check(body).value)
                      else Closed(certs + if tag == "CERTIFICATE" then 1 else 0)
    ensures Reads(check, lines + [FinalLine(tag)], state)
  {
    if state.Failed? {
      ReadsBadBlock(check, lines, body, certs);
    } else {
      BlockIsWhole(check, lines, tag, body, certs);
      ReadsWholeBlock(check, lines, tag, body, certs, state.certs);
    }
  }

  lemma BlockIsWhole(check: Checker, lines: seq<string>, tag: string, body: seq<string>, certs: nat)
    requires Reads(check, lines, Open(tag, body, certs)) && (tag == "CERTIFICATE" ==> check(body) == None)
    ensures ItemOk(check, Block(tag, body))
  {
  }

  lemma ReadsFailed(check: Checker, lines: seq<string>, line: string, fault: BlockFault)
    requires Reads(check, lines, Failed(fault))
    ensures Reads(check, lines + [line], Failed(fault))
  {
    var items, before, body, rest, certs :|
      WholeItems(check, before, items, certs) && FinalLine("CERTIFICATE") !in body && check(body) == Some(fault)
      && lines == before + LinesOfItem(Block("CERTIFICATE", body)) + rest;
    ConcatAssoc(before + LinesOfItem(Block("CERTIFICATE", body)), rest, [line]);
  }

  lemma OneMoreRead(check: Checker, lines: seq<string>, line: string, state: Scan)
    requires Reads(check, lines, state)
    ensures Reads(check, lines + [line], Advance(check, state, line))
  {
    match state
    case Closed(certs) => ReadsClosed(check, lines, line, certs);
    case Failed(fault) => ReadsFailed(check, lines, line, fault);
    case Open(tag, body, certs) =>
      assert FinalLine(tag) == EndLine(tag);
      if line == FinalLine(tag) {
        AdvancesToEnd(check, tag, body, certs);
        ReadsEnd(check, lines, tag, body, certs, Advance(check, state, line));
      } else {
        ReadsMoreBody(check, lines, line, tag, body, certs);
      }
  }

  lemma {:induction false} ScanReads(check: Checker, lines: seq<string>)
    ensures Reads(check, lines, ScanOver(check, Closed(0), lines))
  {
    if lines == [] {
      assert WholeItems(check, [], [], 0);
    } else {
      var init := lines[..|lines| - 1];
      ScanReads(check, init);
      OneMoreRead(check, init, lines[|lines| - 1], ScanOver(check, Closed(0), init));
      SplitLast(lines);
    }
  }

  // ---- Every reading is the scan's -------------------------------------------

  lemma {:induction false} ScanOverJoins(check: Checker, state: Scan, a: seq<string>, b: seq<string>)
    ensures ScanOver(check, state, a + b) == ScanOver(check, ScanOver(check, state, a), b)
  {
    if b == [] {
      assert a + b == a;
    } else {
      InitOfConcat(a, b);
      ScanOverJoins(check, state, a, b[..|b| - 1]);
    }
  }

  lemma ScanOverOne(check: Checker, state: Scan, line: string)
    ensures ScanOver(check, state, [line]) == Advance(check, state, line)
  {
    assert [line][..0] == [];
  }

  lemma {:induction false} BodyIsRead(check: Checker, tag: string, body: seq<string>, certs: nat)
    requires FinalLine(tag) !in body
    ensures ScanOver(check, Open(tag, [], certs), body) == Open(tag, body, certs)
  {
    if body != [] {
      BodyIsRead(check, tag, body[..|body| - 1], certs);
      assert body[|body| - 1] != EndLine(tag);
      SplitLast(body);
    }
  }

  lemma OpenedAndRead(check: Checker, tag: string, body: seq<string>, certs: nat)
    requires IsTag(tag) && FinalLine(tag) !in body
    ensures ScanOver(check, Closed(certs), [BeginLine(tag)] + body) == Open(tag, body, certs)
  {
    LabelOfBegin(tag);
    ScanOverOne(check, Closed(certs), BeginLine(tag));
    ScanOverJoins(check, Closed(certs), [BeginLine(tag)], body);
    BodyIsRead(check, tag, body, certs);
  }

  lemma BlockIsRead(check: Checker, tag: string, body: seq<string>, certs: nat)
    requires IsTag(tag) && FinalLine(tag) !in body
    ensures ScanOver(check, Closed(certs), LinesOfItem(Block(tag, body)))
         == if tag != "CERTIFICATE" then Closed(certs)
            else if check(body) == None then Closed(certs + 1) else Failed(check(body).value)
  {
    OpenedAndRead(check, tag, body, certs);
    ScanOverJoins(check, Closed(certs), [BeginLine(tag)] + body, [FinalLine(tag)]);
    ScanOverOne(check, Open(tag, body, certs), FinalLine(tag));
    assert FinalLine(tag) == EndLine(tag);
  }

  lemma {:induction false} ItemsAreRead(check: Checker, items: seq<Item>)
    requires ItemsOk(check, items)
    ensures ScanOver(check, Closed(0), LinesOfItems(items)) == Closed(Certificates(items))
  {
    if items != [] {
      var init, last := items[..|items| - 1], items[|items| - 1];
      ItemsAreRead(check, init);
      ScanOverJoins(check, Closed(0), LinesOfItems(init), LinesOfItem(last));
      match last
      case Note(line) =>
        LabelMeans(line);
        ScanOverOne(check, Closed(Certificates(init)), line);
      case Block(tag, body) => BlockIsRead(check, tag, body, Certificates(init));
    }
  }

  lemma {:induction false} FailureIsFinal(check: Checker, fault: BlockFault, lines: seq<string>)
    ensures ScanOver(check, Failed(fault), lines) == Failed(fault)
  {
    if lines != [] {
      FailureIsFinal(check, fault, lines[..|lines| - 1]);
    }
  }

  lemma OpenIsScan(check: Checker, before: seq<string>, items: seq<Item>, tag: string, body: seq<string>, certs: nat)
    requires WholeItems(check, before, items, certs) && IsTag(tag) && FinalLine(tag) !in body
    ensures ScanOver(check, Closed(0), before + ([BeginLine(tag)] + body)) == Open(tag, body, certs)
  {
    ItemsAreRead(check, items);
    OpenedAndRead(check, tag, body, certs);
    ScanOverJoins(check, Closed(0), before, [BeginLine(tag)] + body);
  }

  lemma FailureIsScan(check: Checker, before: seq<string>, items: seq<Item>, body: seq<string>,
                      fault: BlockFault, rest: seq<string>, certs: nat)
    requires WholeItems(check, before, items, certs)
    requires FinalLine("CERTIFICATE") !in body && check(body) == Some(fault)
    ensures ScanOver(check, Closed(0), before + LinesOfItem(Block("CERTIFICATE", body)) + rest) == Failed(fault)
  {
    var block := LinesOfItem(Block("CERTIFICATE", body));
    ItemsAreRead(check, items);
    BlockIsRead(check, "CERTIFICATE", body, certs);
    FailureIsFinal(check, fault, rest);
    ScanOverJoins(check, Closed(0), before, block);
    ScanOverJoins(check, Closed(0), before + block, rest);
  }

  lemma ReadingIsScan(check: Checker, lines: seq<string>, state: Scan)
    requires Reads(check, lines, state)
    ensures ScanOver(check, Closed(0), lines) == state
  {
    match state
    case Closed(certs) =>
      var items :| WholeItems(check, lines, items, certs);
      ItemsAreRead(check, items);
    case Open(tag, body, certs) =>
      var items, before :| WholeItems(check, before, items, certs) && lines == before + ([BeginLine(tag)] + body);
      OpenIsScan(check, before, items, tag, body, certs);
    case Failed(fault) =>
      var items, before, body, rest, certs :|
        WholeItems(check, before, items, certs) && FinalLine("CERTIFICATE") !in body && check(body) == Some(fault)
        && lines == before + LinesOfItem(Block("CERTIFICATE", body)) + rest;
      FailureIsScan(check, before, items, body, fault, rest, certs);
  }

  // ---- The verdict on a file -------------------------------------------------

  function StripAll(lines: seq<string>): (r: seq<string>)
    ensures |r| == |lines|
  {
    seq(|lines|, i requires 0 <= i < |lines| => Strip(lines[i]))
  }

  lemma {:induction false} ScansAgree(check: Checker, state: Scan, lines: seq<string>)
    ensures ScanAll(check, state, lines) == ScanOver(check, state, StripAll(lines))
    decreases |lines|
  {
    if lines != [] {
      var rest := StripAll(lines[1..]);
      ScansAgree(check, Step(check, state, lines[0]), lines[1..]);
      assert StripAll(lines) == [Strip(lines[0])] + rest;
      ScanOverJoins(check, state, [Strip(lines[0])], rest);
      ScanOverOne(check, state, Strip(lines[0]));
    }
  }

  /** What each verdict says of the lines of a file. */
  ghost predicate Explains(check: Checker, lines: seq<string>, problem: Option<Problem>) {
    match problem
    case None => exists certs :: certs > 0 && Reads(check, lines, Closed(certs))
    case Some(NoCertificate) => Reads(check, lines, Closed(0))
    case Some(EndsInside(tag)) => exists body, certs :: Reads(check, lines, Open(tag, body, certs))
    case Some(BadBlock(fault)) => Reads(check, lines, Failed(fault))
  }

  /**
   A file is accepted if and only if its lines, stripped, are text and whole blocks with at least
   one certificate among them, each of which decodes; and each problem is found exactly on the
   files that have it.
   */
  lemma VerdictIsExact(check: Checker, data: string, problem: Option<Problem>)
    ensures PemProblem(check, data) == problem <==> Explains(check, StripAll(Lines(data, "")), problem)
  {
    var lines := StripAll(Lines(data, ""));
    var state := ScanOver(check, Closed(0), lines);
    ScansAgree(check, Closed(0), Lines(data, ""));
    ScanReads(check, lines);
    if Explains(check, lines, problem) {
      match problem
      case None =>
        var certs :| certs > 0 && Reads(check, lines, Closed(certs));
        ReadingIsScan(check, lines, Closed(certs));
      case Some(NoCertificate) => ReadingIsScan(check, lines, Closed(0));
      case Some(EndsInside(tag)) =>
        var body, certs :| Reads(check, lines, Open(tag, body, certs));
        ReadingIsScan(check, lines, Open(tag, body, certs));
      case Some(BadBlock(fault)) => ReadingIsScan(check, lines, Failed(fault));
    }
  }

  // ---- Lines -----------------------------------------------------------------

  /** None of the characters at which `str.splitlines` splits Latin-1 text. */
  predicate IsOneLine(s: string) {
    forall i :: 0 <= i < |s| ==> s[i] !in {'\n', '\r', '\U{0B}', '\U{0C}', '\U{1C}', '\U{1D}', '\U{1E}', '\U{85}'}
  }

  lemma {:induction false} LineIsRead(line: string, end: string, rest: string, word: string)
    requires IsOneLine(line) && end in {"\n", "\r\n"}
    ensures Lines(line + end + rest, word) == [word + line] + Lines(rest, "")
    decreases |line|
  {
    var s := line + end + rest;
    if line == "" {
      assert s[|end|..] == rest && word + line == word;
    } else {
      assert s[0] == line[0] && line[0] in line;
      assert s[1..] == line[1..] + end + rest;
      LineIsRead(line[1..], end, rest, word + [line[0]]);
      assert word + [line[0]] + line[1..] == word + line;
    }
  }

  /** A line ends at its line feed, or at the carriage return in front of it; the last one needs neither. */
  lemma LinesAreSplit(line: string, end: string, rest: string)
    requires IsOneLine(line) && end in {"\n", "\r\n"}
    ensures Lines(line + end + rest, "") == [line] + Lines(rest, "")
    ensures Lines(line, "") == if line == "" then [] else [line]
  {
    LineIsRead(line, end, rest, "");
    assert "" + line == line;
    LastLineIsRead(line, "");
  }

  lemma {:induction false} LastLineIsRead(line: string, word: string)
    requires IsOneLine(line)
    ensures Lines(line, word) == if word + line == "" then [] else [word + line]
    decreases |line|
  {
    if line == "" {
      assert word + line == word;
    } else {
      LastLineIsRead(line[1..], word + [line[0]]);
      assert word + [line[0]] + line[1..] == word + line;
    }
  }

  // ---- Which sources are in the bundle ---------------------------------------

  function Indices(n: nat): (r: seq<int>)
    ensures |r| == n
  {
    seq(n, (i: int) => i)
  }

  /** The first source with its path, which is neither that of the bundle nor that of ca.pem. */
  predicate IsFirst(sources: seq<Source>, skip: set<string>, i: int) {
    0 <= i < |sources| && sources[i].path !in skip && forall j :: 0 <= j < i ==> sources[j].path != sources[i].path
  }

  function FirstAndUsable(check: Checker, sources: seq<Source>, skip: set<string>): int -> bool {
    (i: int) => IsFirst(sources, skip, i) && sources[i].data.Some? && PemProblem(check, sources[i].data.value) == None
  }

  function FirstAndNot(check: Checker, sources: seq<Source>, skip: set<string>): int -> bool {
    (i: int) => IsFirst(sources, skip, i) && !FirstAndUsable(check, sources, skip)(i)
  }

  function DataOf(sources: seq<Source>): int -> string {
    (i: int) => if 0 <= i < |sources| && sources[i].data.Some? then sources[i].data.value else ""
  }

  predicate Seen(sources: seq<Source>, skip: set<string>, path: string) {
    path in skip || exists j :: 0 <= j < |sources| && sources[j].path == path
  }

  lemma SeenLater(first: Source, rest: seq<Source>, skip: set<string>, path: string)
    ensures Seen([first] + rest, skip, path) <==> Seen(rest, skip + {first.path}, path)
  {
    var all := [first] + rest;
    if first.path == path {
      assert all[0].path == path;
    }
    if j :| 0 <= j < |rest| && rest[j].path == path {
      assert all[j + 1].path == path;
    }
    if j :| 0 < j < |all| && all[j].path == path {
      assert rest[j - 1].path == path;
    }
  }

  lemma {:induction false} OneMoreSource(check: Checker, sources: seq<Source>, skip: set<string>, s: Source)
    ensures Parts(check, sources + [s], skip)
         == Parts(check, sources, skip)
            + if Seen(sources, skip, s.path) || Usable(check, s) == None then [] else [Usable(check, s).value]
    ensures Unreadable(check, sources + [s], skip)
         == Unreadable(check, sources, skip) + if Seen(sources, skip, s.path) || Usable(check, s).Some? then 0 else 1
    decreases |sources|
  {
    if sources == [] {
      assert sources + [s] == [s] && [s][1..] == [];
    } else {
      var first, rest := sources[0], sources[1..];
      assert (sources + [s])[1..] == rest + [s] && [first] + rest == sources;
      if first.path in skip {
        OneMoreSource(check, rest, skip, s);
        assert skip + {first.path} == skip;
        SeenLater(first, rest, skip, s.path);
      } else {
        OneMoreSource(check, rest, skip + {first.path}, s);
        SeenLater(first, rest, skip, s.path);
      }
    }
  }

  lemma OneMoreIndex(n: nat)
    ensures Indices(n + 1) == Indices(n) + [n]
  {
  }

  lemma {:induction false} PartsOfPrefix(check: Checker, sources: seq<Source>, skip: set<string>, n: nat)
    requires n <= |sources|
    ensures Picks(Indices(n), Parts(check, sources[..n], skip), FirstAndUsable(check, sources, skip), DataOf(sources))
    ensures Unreadable(check, sources[..n], skip) == CountKept(Indices(n), FirstAndNot(check, sources, skip))
  {
    if n == 0 {
      PicksNothing(FirstAndUsable(check, sources, skip), DataOf(sources));
    } else {
      var init := sources[..n - 1];
      PartsOfPrefix(check, sources, skip, n - 1);
      assert sources[..n] == init + [sources[n - 1]];
      OneMoreSource(check, init, skip, sources[n - 1]);
      FirstUnlessSeen(sources, skip, n - 1);
      OneMoreIndex(n - 1);
      PicksLast(Indices(n - 1), Parts(check, init, skip), FirstAndUsable(check, sources, skip), DataOf(sources), n - 1);
      OneMoreCounted(Indices(n - 1), n - 1, FirstAndNot(check, sources, skip));
      assert Parts(check, init, skip) + [] == Parts(check, init, skip);
    }
  }

  lemma OneMoreCounted(s: seq<int>, x: int, keep: int -> bool)
    ensures CountKept(s + [x], keep) == CountKept(s, keep) + if keep(x) then 1 else 0
  {
    assert (s + [x])[..|s|] == s;
  }

  lemma FirstUnlessSeen(sources: seq<Source>, skip: set<string>, i: nat)
    requires i < |sources|
    ensures IsFirst(sources, skip, i) <==> !Seen(sources[..i], skip, sources[i].path)
  {
    forall j | 0 <= j < i ensures sources[..i][j] == sources[j] {
    }
  }

  /**
   A bundle holds, in order, exactly the sources that are usable and the first of their path,
   the bundle and ca.pem apart; and every other first one counts as unreadable.
   */
  lemma SourcesAreInBundle(check: Checker, sources: seq<Source>, skip: set<string>)
    ensures Picks(Indices(|sources|), Parts(check, sources, skip),
                  FirstAndUsable(check, sources, skip), DataOf(sources))
    ensures Unreadable(check, sources, skip) == CountKept(Indices(|sources|), FirstAndNot(check, sources, skip))
  {
    PartsOfPrefix(check, sources, skip, |sources|);
    assert sources[..|sources|] == sources;
  }
}
