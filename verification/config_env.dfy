/**
 The config.env file (`anthrouter/admin.py`): the writer that merges submitted settings into
 it and the reader that parses it.
 */
module ConfigEnv {
  import opened Common
  import opened Text

  /** One submitted setting, under the name it has in the file. */
  datatype Setting = Setting(key: string, value: string)

  // ---- Text and lines --------------------------------------------------------

  /** Text mode: every kind of line end reads as a newline. */
  function Universal(s: string): string {
    if s == "" then ""
    else if s[0] != '\r' then [s[0]] + Universal(s[1..])
    else ['\n'] + Universal(if |s| > 1 && s[1] == '\n' then s[2..] else s[1..])
  }

  /** The lines of translated text, without their newlines; `word` has been read already. */
  function Split(s: string, word: string): seq<string> {
    if s == "" then (if word == "" then [] else [word])
    else if s[0] == '\n' then [word] + Split(s[1..], "")
    else Split(s[1..], word + [s[0]])
  }

  /** What iterating over the open file gives; a missing file has no lines. */
  function LinesOf(file: Option<string>): seq<string> {
    if file == None then [] else Split(Universal(file.value), "")
  }

  function Content(lines: seq<string>): string {
    if JoinLines(lines) == "" then "" else JoinLines(lines) + ['\n']
  }

  predicate IsPlain(s: string) {
    '\n' !in s && '\r' !in s
  }

  predicate AllPlain(lines: seq<string>) {
    lines == [] || (IsPlain(lines[0]) && AllPlain(lines[1..]))
  }

  // ---- Entries ---------------------------------------------------------------

  function FirstEquals(s: string): Option<nat> {
    if s == "" then None
    else if s[0] == '=' then Some(0)
    else match FirstEquals(s[1..]) case None => None case Some(n) => Some(n + 1)
  }

  lemma {:induction false} FirstEqualsFits(s: string)
    ensures FirstEquals(s).Some? ==> FirstEquals(s).value < |s|
  {
    if s != "" && s[0] != '=' {
      FirstEqualsFits(s[1..]);
    }
  }

  /** The key a line sets; comments, blank lines and lines without `=` set none. */
  function KeyOf(line: string): Option<string> {
    var stripped := Strip(line);
    FirstEqualsFits(stripped);
    match FirstEquals(stripped)
    case None => None
    case Some(n) => if stripped[0] == '#' then None else Some(Strip(stripped[..n]))
  }

  function Unquote(value: string): string {
    if |value| >= 2 && value[0] == '"' && value[|value| - 1] == '"' then value[1..|value| - 1] else value
  }

  function ValueOf(line: string): string {
    var stripped := Strip(line);
    FirstEqualsFits(stripped);
    match FirstEquals(stripped)
    case None => ""
    case Some(n) => Unquote(Strip(stripped[n + 1..]))
  }

  /** `f'{key}="{value}"'` */
  function Line(key: string, value: string): string {
    key + (['=', '"'] + value + ['"'])
  }

  /** What the value of a key reads as: the last line that sets it decides. */
  function Reads(lines: seq<string>, key: string): Option<string> {
    if lines == [] then None
    else if Reads(lines[1..], key).Some? then Reads(lines[1..], key)
    else if KeyOf(lines[0]) == Some(key) then Some(ValueOf(lines[0]))
    else None
  }

  function Count(lines: seq<string>, key: string): nat {
    if lines == [] then 0 else (if KeyOf(lines[0]) == Some(key) then 1 else 0) + Count(lines[1..], key)
  }

  // ---- The reader ------------------------------------------------------------

  /** `_read_config_env` */
  method ReadConfigEnv(file: Option<string>) returns (result: map<string, string>)
    ensures forall key :: (if key in result then Some(result[key]) else None) == Reads(LinesOf(file), key)
  {
    result := map[];
    var lines := LinesOf(file);
    for i := 0 to |lines|
      invariant forall key :: (if key in result then Some(result[key]) else None) == Reads(lines[..i], key)
    {
      forall key ensures Reads(lines[..i + 1], key) ==
        if KeyOf(lines[i]) == Some(key) then Some(ValueOf(lines[i])) else Reads(lines[..i], key)
      {
        assert lines[..i + 1] == lines[..i] + [lines[i]];
        ReadsLast(lines[..i], lines[i], key);
      }
      var key := KeyOf(lines[i]);
      if key.Some? {
        result := result[key.value := ValueOf(lines[i])];
      }
    }
    assert lines[..|lines|] == lines;
  }

  lemma {:induction false} ReadsLast(lines: seq<string>, line: string, key: string)
    ensures Reads(lines + [line], key) == if KeyOf(line) == Some(key) then Some(ValueOf(line)) else Reads(lines, key)
  {
    if lines == [] {
      assert lines + [line] == [line] && [line][1..] == [];
    } else {
      assert (lines + [line])[1..] == lines[1..] + [line];
      ReadsLast(lines[1..], line, key);
    }
  }

  // ---- The writer ------------------------------------------------------------

  function Submitted(settings: seq<Setting>, key: string): Option<string> {
    if settings == [] then None
    else if settings[0].key == key then Some(settings[0].value)
    else Submitted(settings[1..], key)
  }

  /** `remaining.pop(key)` */
  function Popped(settings: seq<Setting>, key: string): seq<Setting> {
    if settings == [] then []
    else if settings[0].key == key then settings[1..]
    else [settings[0]] + Popped(settings[1..], key)
  }

  function Render(settings: seq<Setting>): seq<string> {
    if settings == [] then [] else [Line(settings[0].key, settings[0].value)] + Render(settings[1..])
  }

  /** The merged lines: each setting replaces the first line that sets its key, or goes to the end. */
  function Merge(lines: seq<string>, settings: seq<Setting>): seq<string>
    decreases |lines|
  {
    if lines == [] then Render(settings)
    else
      var key := KeyOf(lines[0]);
      if key.Some? && Submitted(settings, key.value).Some?
      then [Line(key.value, Submitted(settings, key.value).value)] + Merge(lines[1..], Popped(settings, key.value))
      else [lines[0]] + Merge(lines[1..], settings)
  }

  function Written(file: Option<string>, settings: seq<Setting>): string {
    Content(Merge(LinesOf(file), settings))
  }

  /** `_write_config_env`, up to the atomic replacement of the file. */
  method WriteConfigEnv(file: Option<string>, settings: seq<Setting>) returns (content: string)
    ensures content == Written(file, settings)
  {
    var remaining := settings;
    var lines: seq<string> := [];
    var given := LinesOf(file);
    for i := 0 to |given|
      invariant Merge(given, settings) == lines + Merge(given[i..], remaining)
    {
      assert given[i..][1..] == given[i + 1..];
      ghost var rest := given[i + 1..];
      var key := KeyOf(given[i]);
      if key.Some? && Submitted(remaining, key.value).Some? {
        var line := Line(key.value, Submitted(remaining, key.value).value);
        remaining := Popped(remaining, key.value);
        ConcatAssoc(lines, [line], Merge(rest, remaining));
        lines := lines + [line];
      } else {
        ConcatAssoc(lines, [given[i]], Merge(rest, remaining));
        lines := lines + [given[i]];
      }
    }
    assert given[|given|..] == [];
    var i := 0;
    while i < |remaining|
      invariant 0 <= i <= |remaining|
      invariant Merge(given, settings) == lines + Render(remaining[i..])
    {
      var line := Line(remaining[i].key, remaining[i].value);
      assert remaining[i..][1..] == remaining[i + 1..];
      ConcatAssoc(lines, [line], Render(remaining[i + 1..]));
      lines, i := lines + [line], i + 1;
    }
    assert remaining[i..] == [] && lines + [] == lines;
    content := JoinLines(lines);
    if content != "" {
      content := content + ['\n'];
    }
  }

  // ---- A written line reads back ---------------------------------------------

  /** A name the file can hold: `ANTHROUTER_` and a field name in capitals is one. */
  predicate IsKey(key: string) {
    && key != "" && key[0] != '#' && FirstEquals(key) == None && IsPlain(key)
    && !IsSpace(key[0]) && !IsSpace(key[|key| - 1])
  }

  predicate ValidSettings(settings: seq<Setting>) {
    settings == []
    || (IsKey(settings[0].key) && IsPlain(settings[0].value)
        && Submitted(settings[1..], settings[0].key) == None && ValidSettings(settings[1..]))
  }

  lemma StripKeeps(s: string)
    requires s != "" && !IsSpace(s[0]) && !IsSpace(s[|s| - 1])
    ensures Strip(s) == s
  {
  }

  lemma {:induction false} FirstEqualsBehind(a: string, b: string)
    requires FirstEquals(a) == None && b != "" && b[0] == '='
    ensures FirstEquals(a + b) == Some(|a|)
  {
    if a == "" {
      assert a + b == b;
    } else {
      assert (a + b)[1..] == a[1..] + b;
      FirstEqualsBehind(a[1..], b);
    }
  }

  function Quoted(value: string): string {
    ['"'] + value + ['"']
  }

  lemma UnquoteQuoted(value: string)
    ensures Strip(Quoted(value)) == Quoted(value) && Unquote(Quoted(value)) == value
  {
    StripKeeps(Quoted(value));
    assert Quoted(value)[1..|Quoted(value)| - 1] == value;
  }

  lemma LineSplits(key: string, value: string)
    requires IsKey(key)
    ensures var line := Line(key, value);
            && Strip(line) == line && FirstEquals(line) == Some(|key|)
            && line[..|key|] == key && line[|key| + 1..] == Quoted(value) && line[0] == key[0]
  {
    var tail := ['=', '"'] + value + ['"'];
    StripKeeps(Line(key, value));
    FirstEqualsBehind(key, tail);
    assert tail == ['='] + Quoted(value);
  }

  lemma LineReadsBack(key: string, value: string)
    requires IsKey(key)
    ensures KeyOf(Line(key, value)) == Some(key) && ValueOf(Line(key, value)) == value
  {
    LineSplits(key, value);
    StripKeeps(key);
    UnquoteQuoted(value);
  }

  // ---- Read after write ------------------------------------------------------

  lemma {:induction false} PoppedIsGone(settings: seq<Setting>, key: string, other: string)
    requires ValidSettings(settings)
    ensures ValidSettings(Popped(settings, key))
    ensures Submitted(Popped(settings, key), other) == if other == key then None else Submitted(settings, other)
  {
    if settings != [] && settings[0].key != key {
      PoppedIsGone(settings[1..], key, other);
      PoppedIsGone(settings[1..], key, settings[0].key);
      assert Popped(settings, key)[1..] == Popped(settings[1..], key);
    }
  }

  lemma {:induction false} RenderReads(settings: seq<Setting>, key: string)
    requires ValidSettings(settings)
    ensures Reads(Render(settings), key) == Submitted(settings, key)
  {
    if settings != [] {
      LineReadsBack(settings[0].key, settings[0].value);
      RenderReads(settings[1..], key);
      assert Render(settings)[1..] == Render(settings[1..]);
    }
  }

  lemma {:induction false} CountMeansReads(lines: seq<string>, key: string)
    ensures Count(lines, key) > 0 <==> Reads(lines, key).Some?
  {
    if lines != [] {
      CountMeansReads(lines[1..], key);
    }
  }

  lemma {:induction false} SubmittedIsKey(settings: seq<Setting>, key: string)
    requires ValidSettings(settings) && Submitted(settings, key).Some?
    ensures IsKey(key) && IsPlain(Submitted(settings, key).value)
  {
    if settings[0].key != key {
      SubmittedIsKey(settings[1..], key);
    }
  }

  /**
   What a key reads as in the merged lines: a submitted one as submitted, unless the file sets
   it more than once, for then the last of those lines, which is left alone, still decides.
   */
  lemma {:induction false} MergeReads(lines: seq<string>, settings: seq<Setting>, key: string)
    requires ValidSettings(settings)
    ensures Reads(Merge(lines, settings), key)
         == if Submitted(settings, key) == None || Count(lines, key) >= 2 then Reads(lines, key)
            else Submitted(settings, key)
    decreases |lines|
  {
    if lines == [] {
      RenderReads(settings, key);
    } else {
      var first := KeyOf(lines[0]);
      if first.Some? && Submitted(settings, first.value).Some? {
        var value, rest := Submitted(settings, first.value).value, Popped(settings, first.value);
        SubmittedIsKey(settings, first.value);
        PoppedIsGone(settings, first.value, key);
        MergeReads(lines[1..], rest, key);
        LineReadsBack(first.value, value);
        ReadsBefore(Line(first.value, value), Merge(lines[1..], rest), key);
      } else {
        MergeReads(lines[1..], settings, key);
        ReadsBefore(lines[0], Merge(lines[1..], settings), key);
      }
      CountMeansReads(lines[1..], key);
    }
  }

  lemma ReadsBefore(line: string, lines: seq<string>, key: string)
    ensures Reads([line] + lines, key)
         == if Reads(lines, key).Some? then Reads(lines, key)
            else if KeyOf(line) == Some(key) then Some(ValueOf(line)) else None
  {
    assert ([line] + lines)[1..] == lines;
  }

  // ---- Through the file ------------------------------------------------------

  lemma {:induction false} UniversalIsClean(s: string)
    ensures '\r' !in Universal(s)
    decreases |s|
  {
    if s != "" {
      UniversalIsClean(if s[0] != '\r' then s[1..] else if |s| > 1 && s[1] == '\n' then s[2..] else s[1..]);
    }
  }

  lemma {:induction false} CleanIsUniversal(s: string)
    requires '\r' !in s
    ensures Universal(s) == s
  {
    if s != "" {
      CleanIsUniversal(s[1..]);
      assert s == [s[0]] + s[1..];
    }
  }

  lemma {:induction false} SplitIsPlain(s: string, word: string)
    requires '\r' !in s && IsPlain(word)
    ensures AllPlain(Split(s, word))
    decreases |s|
  {
    if s == "" {
    } else if s[0] == '\n' {
      SplitIsPlain(s[1..], "");
      assert ([word] + Split(s[1..], ""))[1..] == Split(s[1..], "");
    } else {
      SplitIsPlain(s[1..], word + [s[0]]);
    }
  }

  lemma {:induction false} SplitLine(line: string, word: string, rest: string)
    requires IsPlain(line)
    ensures Split(line + ['\n'] + rest, word) == [word + line] + Split(rest, "")
    decreases |line|
  {
    var s := line + ['\n'] + rest;
    if line == "" {
      assert s[1..] == rest && word + line == word;
    } else {
      assert line[0] in line;
      assert s[1..] == line[1..] + ['\n'] + rest;
      SplitLine(line[1..], word + [line[0]], rest);
      assert word + [line[0]] + line[1..] == word + line;
    }
  }

  lemma {:induction false} SplitJoined(lines: seq<string>)
    requires AllPlain(lines) && lines != []
    ensures Split(JoinLines(lines) + ['\n'], "") == lines && '\r' !in JoinLines(lines)
  {
    var line := lines[0];
    assert "" + line == line;
    if |lines| == 1 {
      SplitLine(line, "", "");
      assert line + ['\n'] + "" == line + ['\n'];
      assert lines == [line];
    } else {
      SplitJoined(lines[1..]);
      var rest := JoinLines(lines[1..]) + ['\n'];
      assert JoinLines(lines) + ['\n'] == line + ['\n'] + rest;
      SplitLine(line, "", rest);
      assert lines == [line] + lines[1..];
    }
  }

  /** Written lines come back as they are, save that a lone empty line leaves an empty file. */
  lemma ContentSplits(lines: seq<string>)
    requires AllPlain(lines)
    ensures LinesOf(Some(Content(lines))) == if lines == [""] then [] else lines
  {
    if lines != [] {
      SplitJoined(lines);
      CleanIsUniversal(Content(lines));
      if JoinLines(lines) == "" {
        assert |lines| == 1;
        assert lines == [""];
      }
    }
  }

  lemma LinesArePlain(file: Option<string>)
    ensures AllPlain(LinesOf(file))
  {
    if file.Some? {
      UniversalIsClean(file.value);
      SplitIsPlain(Universal(file.value), "");
    }
  }

  lemma LineIsPlain(key: string, value: string)
    requires IsPlain(key) && IsPlain(value)
    ensures IsPlain(Line(key, value))
  {
  }

  lemma PlainBefore(line: string, lines: seq<string>)
    requires IsPlain(line) && AllPlain(lines)
    ensures AllPlain([line] + lines)
  {
    assert ([line] + lines)[1..] == lines;
  }

  lemma {:induction false} RenderIsPlain(settings: seq<Setting>)
    requires ValidSettings(settings)
    ensures AllPlain(Render(settings))
  {
    if settings != [] {
      RenderIsPlain(settings[1..]);
      LineIsPlain(settings[0].key, settings[0].value);
      PlainBefore(Line(settings[0].key, settings[0].value), Render(settings[1..]));
    }
  }

  lemma {:induction false} MergeIsPlain(lines: seq<string>, settings: seq<Setting>)
    requires AllPlain(lines) && ValidSettings(settings)
    ensures AllPlain(Merge(lines, settings))
    decreases |lines|
  {
    if lines == [] {
      RenderIsPlain(settings);
    } else {
      var key := KeyOf(lines[0]);
      if key.Some? && Submitted(settings, key.value).Some? {
        SubmittedIsKey(settings, key.value);
        PoppedIsGone(settings, key.value, key.value);
        var value, rest := Submitted(settings, key.value).value, Popped(settings, key.value);
        LineIsPlain(key.value, value);
        MergeIsPlain(lines[1..], rest);
        PlainBefore(Line(key.value, value), Merge(lines[1..], rest));
      } else {
        MergeIsPlain(lines[1..], settings);
        PlainBefore(lines[0], Merge(lines[1..], settings));
      }
    }
  }

  lemma WrittenLines(file: Option<string>, settings: seq<Setting>)
    requires ValidSettings(settings)
    ensures var merged := Merge(LinesOf(file), settings);
            LinesOf(Some(Written(file, settings))) == if merged == [""] then [] else merged
  {
    LinesArePlain(file);
    MergeIsPlain(LinesOf(file), settings);
    ContentSplits(Merge(LinesOf(file), settings));
  }

  lemma EmptyLineReadsNothing(key: string)
    ensures Reads([""], key) == None
  {
    assert KeyOf("") == None && [""][1..] == [];
  }

  /** What the written file reads as, key by key. */
  lemma WrittenReads(file: Option<string>, settings: seq<Setting>, key: string)
    requires ValidSettings(settings)
    ensures Reads(LinesOf(Some(Written(file, settings))), key)
         == if Submitted(settings, key) == None || Count(LinesOf(file), key) >= 2 then Reads(LinesOf(file), key)
            else Submitted(settings, key)
  {
    WrittenLines(file, settings);
    EmptyLineReadsNothing(key);
    MergeReads(LinesOf(file), settings, key);
  }

  /** A key reads from the written file as in the old reading overridden by what was submitted. */
  predicate ReadsOverridden(file: Option<string>, settings: seq<Setting>, key: string) {
    Reads(LinesOf(Some(Written(file, settings))), key)
    == if Submitted(settings, key).Some? then Submitted(settings, key) else Reads(LinesOf(file), key)
  }

  /** The file sets a submitted key at most once, or it reads there as submitted already. */
  predicate Unambiguous(file: Option<string>, settings: seq<Setting>, key: string) {
    Submitted(settings, key).Some? ==>
      Count(LinesOf(file), key) <= 1 || Reads(LinesOf(file), key) == Submitted(settings, key)
  }

  /** The file reads as the old one overridden by the submission if and only if no submitted key is ambiguous. */
  lemma ReadAfterWrite(file: Option<string>, settings: seq<Setting>)
    requires ValidSettings(settings)
    ensures (forall key :: ReadsOverridden(file, settings, key)) <==> (forall key :: Unambiguous(file, settings, key))
  {
    forall key ensures ReadsOverridden(file, settings, key) <==> Unambiguous(file, settings, key) {
      WrittenReads(file, settings, key);
    }
  }

  /** The failing input: a file that sets a key twice keeps reading as its last line, whatever is submitted. */
  lemma RepeatedKeyReadsStale(key: string, first: string, last: string, submitted: string)
    requires IsKey(key) && IsPlain(first) && IsPlain(last) && IsPlain(submitted)
    ensures var file, settings := Some(Content([Line(key, first), Line(key, last)])), [Setting(key, submitted)];
            && ValidSettings(settings) && Submitted(settings, key) == Some(submitted)
            && Reads(LinesOf(Some(Written(file, settings))), key) == Some(last)
  {
    var lines, settings := [Line(key, first), Line(key, last)], [Setting(key, submitted)];
    LineIsPlain(key, first);
    LineIsPlain(key, last);
    TwoLinesArePlain(lines);
    ContentSplits(lines);
    LineReadsBack(key, first);
    LineReadsBack(key, last);
    TwoLinesRead(lines, key);
    assert settings[1..] == [];
    WrittenReads(Some(Content(lines)), settings, key);
  }

  lemma TwoLinesArePlain(lines: seq<string>)
    requires |lines| == 2 && IsPlain(lines[0]) && IsPlain(lines[1])
    ensures AllPlain(lines)
  {
    assert lines[1..][1..] == [];
  }

  lemma TwoLinesRead(lines: seq<string>, key: string)
    requires |lines| == 2 && KeyOf(lines[0]) == KeyOf(lines[1]) == Some(key)
    ensures Count(lines, key) == 2 && Reads(lines, key) == Some(ValueOf(lines[1]))
  {
    assert lines[1..][1..] == [];
    assert Count(lines[1..], key) == 1 && Reads(lines[1..], key) == Some(ValueOf(lines[1]));
  }

  // ---- In place, and once is enough ------------------------------------------

  /** The line that takes the place of one whose key has or has not been set before. */
  function InPlace(line: string, settings: seq<Setting>, earlier: seq<string>): string {
    var key := KeyOf(line);
    if key.Some? && Submitted(settings, key.value).Some? && Count(earlier, key.value) == 0
    then Line(key.value, Submitted(settings, key.value).value) else line
  }

  /** A key that an earlier line has taken is no longer submitted. */
  lemma PoppedInPlace(line: string, settings: seq<Setting>, head: string, earlier: seq<string>)
    requires ValidSettings(settings) && KeyOf(head).Some? && Submitted(settings, KeyOf(head).value).Some?
    ensures InPlace(line, settings, [head] + earlier) == InPlace(line, Popped(settings, KeyOf(head).value), earlier)
  {
    assert ([head] + earlier)[1..] == earlier;
    if KeyOf(line).Some? {
      PoppedIsGone(settings, KeyOf(head).value, KeyOf(line).value);
    }
  }

  lemma KeptInPlace(line: string, settings: seq<Setting>, head: string, earlier: seq<string>)
    requires KeyOf(head) == None || Submitted(settings, KeyOf(head).value) == None
    ensures InPlace(line, settings, [head] + earlier) == InPlace(line, settings, earlier)
  {
    assert ([head] + earlier)[1..] == earlier;
  }

  /** What is left to submit once the first line of a file has been merged. */
  function LeftAfter(line: string, settings: seq<Setting>): seq<Setting> {
    var key := KeyOf(line);
    if key.Some? && Submitted(settings, key.value).Some? then Popped(settings, key.value) else settings
  }

  lemma MergeSteps(lines: seq<string>, settings: seq<Setting>)
    requires ValidSettings(settings) && lines != []
    ensures Merge(lines, settings)
         == [InPlace(lines[0], settings, [])] + Merge(lines[1..], LeftAfter(lines[0], settings))
    ensures ValidSettings(LeftAfter(lines[0], settings))
  {
    var key := KeyOf(lines[0]);
    if key.Some? {
      PoppedIsGone(settings, key.value, key.value);
    }
  }

  lemma LeftInPlace(line: string, settings: seq<Setting>, head: string, earlier: seq<string>)
    requires ValidSettings(settings)
    ensures InPlace(line, settings, [head] + earlier) == InPlace(line, LeftAfter(head, settings), earlier)
  {
    if KeyOf(head).Some? && Submitted(settings, KeyOf(head).value).Some? {
      PoppedInPlace(line, settings, head, earlier);
    } else {
      KeptInPlace(line, settings, head, earlier);
    }
  }

  /** Every line keeps its place: it is left as it is, or set to the value submitted for its key. */
  lemma {:induction false} MergeIsInPlace(lines: seq<string>, settings: seq<Setting>, i: nat)
    requires ValidSettings(settings) && i < |lines|
    ensures i < |Merge(lines, settings)|
    ensures Merge(lines, settings)[i] == InPlace(lines[i], settings, lines[..i])
    decreases |lines|
  {
    MergeSteps(lines, settings);
    if i > 0 {
      MergeIsInPlace(lines[1..], LeftAfter(lines[0], settings), i - 1);
      LeftInPlace(lines[i], settings, lines[0], lines[1..][..i - 1]);
      SplitFirst(lines, i);
    }
  }

  lemma {:induction false} RenderIsMerged(settings: seq<Setting>)
    requires ValidSettings(settings)
    ensures Merge(Render(settings), settings) == Render(settings)
  {
    if settings != [] {
      LineReadsBack(settings[0].key, settings[0].value);
      RenderIsMerged(settings[1..]);
      assert Render(settings)[1..] == Render(settings[1..]);
    }
  }

  lemma {:induction false} MergingTwiceIsMergingOnce(lines: seq<string>, settings: seq<Setting>)
    requires ValidSettings(settings)
    ensures Merge(Merge(lines, settings), settings) == Merge(lines, settings)
    decreases |lines|
  {
    if lines == [] {
      RenderIsMerged(settings);
    } else {
      var key := KeyOf(lines[0]);
      if key.Some? && Submitted(settings, key.value).Some? {
        SubmittedIsKey(settings, key.value);
        LineReadsBack(key.value, Submitted(settings, key.value).value);
        PoppedIsGone(settings, key.value, key.value);
        MergingTwiceIsMergingOnce(lines[1..], Popped(settings, key.value));
        assert Merge(lines, settings)[1..] == Merge(lines[1..], Popped(settings, key.value));
      } else {
        MergingTwiceIsMergingOnce(lines[1..], settings);
        assert Merge(lines, settings)[1..] == Merge(lines[1..], settings);
      }
    }
  }

  /** Writing the same settings twice leaves the file that writing them once did. */
  lemma WritingTwiceIsWritingOnce(file: Option<string>, settings: seq<Setting>)
    requires ValidSettings(settings)
    ensures Written(Some(Written(file, settings)), settings) == Written(file, settings)
  {
    WrittenLines(file, settings);
    var merged := Merge(LinesOf(file), settings);
    MergingTwiceIsMergingOnce(LinesOf(file), settings);
    if merged == [""] {
      assert Merge([], settings) == Render(settings);
      LoneEmptyLine(LinesOf(file), settings);
    }
  }

  lemma LineIsNotEmpty(key: string, value: string)
    ensures Line(key, value) != ""
  {
    assert |Line(key, value)| >= 3;
  }

  lemma LoneEmptyLine(lines: seq<string>, settings: seq<Setting>)
    requires ValidSettings(settings) && Merge(lines, settings) == [""]
    ensures settings == []
  {
    if lines == [] {
      if settings != [] {
        assert Render(settings)[0] == Line(settings[0].key, settings[0].value);
        LineIsNotEmpty(settings[0].key, settings[0].value);
      }
    } else {
      var key := KeyOf(lines[0]);
      if key.Some? && Submitted(settings, key.value).Some? {
        assert Merge(lines, settings)[0] == Line(key.value, Submitted(settings, key.value).value);
        LineIsNotEmpty(key.value, Submitted(settings, key.value).value);
      } else {
        assert Merge(lines, settings)[1..] == Merge(lines[1..], settings);
        EmptyMerge(lines[1..], settings);
      }
    }
  }

  lemma EmptyMerge(lines: seq<string>, settings: seq<Setting>)
    requires Merge(lines, settings) == []
    ensures lines == [] && settings == []
  {
  }

  // ---- What a line of the file sets ------------------------------------------

  lemma {:induction false} NoEqualsFound(s: string)
    ensures FirstEquals(s) == None <==> '=' !in s
  {
    if s != "" {
      NoEqualsFound(s[1..]);
    }
  }

  /** Quotes around a value are not part of it; one alone, or a quote on one side only, is. */
  lemma UnquoteMeans(value: string, inner: string)
    ensures value == Quoted(inner) ==> Unquote(value) == inner
    ensures (forall x :: value != Quoted(x)) ==> Unquote(value) == value
  {
    if value == Quoted(inner) {
      UnquoteQuoted(inner);
    }
    if |value| >= 2 && value[0] == '"' && value[|value| - 1] == '"' {
      assert value == Quoted(value[1..|value| - 1]);
    }
  }

  /**
   A line sets what stands before its first `=` to what stands behind it, unless it is a
   comment; a line without one sets nothing.
   */
  lemma LineMeans(line: string, key: string, value: string)
    ensures '=' !in Strip(line) ==> KeyOf(line) == None
    ensures Strip(line) == key + "=" + value && '=' !in key ==>
              && KeyOf(line) == (if key != "" && key[0] == '#' then None else Some(Strip(key)))
              && ValueOf(line) == Unquote(Strip(value))
  {
    NoEqualsFound(Strip(line));
    NoEqualsFound(key);
    if Strip(line) == key + "=" + value && '=' !in key {
      FirstEqualsBehind(key, "=" + value);
      assert key + "=" + value == key + ("=" + value);
      assert Strip(line)[..|key|] == key && Strip(line)[|key| + 1..] == value;
    }
  }

  lemma {:induction false} UniversalKeeps(line: string, tail: string)
    requires IsPlain(line)
    ensures Universal(line + tail) == line + Universal(tail)
  {
    if line == "" {
      assert line + tail == tail && line + Universal(tail) == Universal(tail);
    } else {
      assert line[0] in line && (line + tail)[1..] == line[1..] + tail;
      UniversalKeeps(line[1..], tail);
      assert [line[0]] + (line[1..] + Universal(tail)) == line + Universal(tail);
    }
  }

  lemma EndIsNewline(end: string, rest: string)
    requires end in {"\n", "\r", "\r\n"} && (end == "\r" && rest != "" ==> rest[0] != '\n')
    ensures Universal(end + rest) == "\n" + Universal(rest)
  {
    assert (end + rest)[|end|..] == rest;
  }

  lemma UniversalEnds(line: string, end: string, rest: string)
    requires IsPlain(line) && end in {"\n", "\r", "\r\n"} && (end == "\r" && rest != "" ==> rest[0] != '\n')
    ensures Universal(line + end + rest) == line + "\n" + Universal(rest)
    ensures Universal(line) == line
  {
    ConcatAssoc(line, end, rest);
    UniversalKeeps(line, end + rest);
    EndIsNewline(end, rest);
    ConcatAssoc(line, "\n", Universal(rest));
    UniversalKeeps(line, "");
    assert line + "" == line;
  }

  /** A line of the file ends at a newline, a carriage return or both; the last one needs neither. */
  lemma FileIsSplit(line: string, end: string, rest: string)
    requires IsPlain(line) && end in {"\n", "\r", "\r\n"} && (end == "\r" && rest != "" ==> rest[0] != '\n')
    ensures LinesOf(Some(line + end + rest)) == [line] + LinesOf(Some(rest))
    ensures LinesOf(Some(line)) == if line == "" then [] else [line]
    ensures LinesOf(None) == []
  {
    UniversalEnds(line, end, rest);
    SplitLine(line, "", Universal(rest));
    assert line + ['\n'] + Universal(rest) == line + "\n" + Universal(rest);
    assert "" + line == line;
    SplitOne(line, "");
  }

  lemma {:induction false} SplitOne(line: string, word: string)
    requires IsPlain(line)
    ensures Split(line, word) == if word + line == "" then [] else [word + line]
    decreases |line|
  {
    if line == "" {
      assert word + line == word;
    } else {
      assert line[0] in line;
      SplitOne(line[1..], word + [line[0]]);
      assert word + [line[0]] + line[1..] == word + line;
    }
  }

  // ---- What is added at the end ----------------------------------------------

  /** The settings whose key no line sets. */
  function NotSet(settings: seq<Setting>, lines: seq<string>): seq<Setting> {
    if settings == [] then []
    else (if Count(lines, settings[0].key) == 0 then [settings[0]] else []) + NotSet(settings[1..], lines)
  }

  lemma {:induction false} OtherKeysStay(settings: seq<Setting>, line: string, rest: seq<string>)
    requires KeyOf(line) == None || Submitted(settings, KeyOf(line).value) == None
    ensures NotSet(settings, [line] + rest) == NotSet(settings, rest)
  {
    assert ([line] + rest)[1..] == rest;
    if settings != [] {
      OtherKeysStay(settings[1..], line, rest);
    }
  }

  lemma {:induction false} OneKeyLess(settings: seq<Setting>, line: string, rest: seq<string>)
    requires ValidSettings(settings)
    ensures NotSet(settings, [line] + rest) == NotSet(LeftAfter(line, settings), rest)
  {
    assert ([line] + rest)[1..] == rest;
    if KeyOf(line) == None || Submitted(settings, KeyOf(line).value) == None {
      OtherKeysStay(settings, line, rest);
    } else if settings[0].key == KeyOf(line).value {
      OtherKeysStay(settings[1..], line, rest);
    } else {
      OneKeyLess(settings[1..], line, rest);
      assert Popped(settings, KeyOf(line).value)[1..] == Popped(settings[1..], KeyOf(line).value);
    }
  }

  lemma {:induction false} MergeEndsWith(lines: seq<string>, settings: seq<Setting>)
    requires ValidSettings(settings)
    ensures |lines| <= |Merge(lines, settings)|
    ensures Merge(lines, settings)[|lines|..] == Render(NotSet(settings, lines))
    decreases |lines|
  {
    if lines == [] {
      AllNotSet(settings);
    } else {
      var rest := Merge(lines[1..], LeftAfter(lines[0], settings));
      MergeSteps(lines, settings);
      MergeEndsWith(lines[1..], LeftAfter(lines[0], settings));
      OneKeyLess(settings, lines[0], lines[1..]);
      assert [lines[0]] + lines[1..] == lines;
      assert ([InPlace(lines[0], settings, [])] + rest)[|lines|..] == rest[|lines| - 1..];
    }
  }

  lemma {:induction false} AllNotSet(settings: seq<Setting>)
    ensures NotSet(settings, []) == settings
  {
    if settings != [] {
      AllNotSet(settings[1..]);
    }
  }

  function Unset(lines: seq<string>): Setting -> bool {
    (s: Setting) => forall i :: 0 <= i < |lines| ==> KeyOf(lines[i]) != Some(s.key)
  }

  function Rendered(s: Setting): string {
    s.key + "=\"" + s.value + "\""
  }

  lemma {:induction false} NotCounted(lines: seq<string>, key: string)
    ensures Count(lines, key) == 0 <==> forall i :: 0 <= i < |lines| ==> KeyOf(lines[i]) != Some(key)
  {
    if lines != [] {
      NotCounted(lines[1..], key);
      assert forall i :: 0 < i < |lines| ==> lines[i] == lines[1..][i - 1];
    }
  }

  lemma {:induction false} NotSetIsPicked(settings: seq<Setting>, lines: seq<string>)
    ensures Picks(settings, Render(NotSet(settings, lines)), Unset(lines), Rendered)
  {
    if settings == [] {
      PicksNothing(Unset(lines), Rendered);
    } else {
      var rest := NotSet(settings[1..], lines);
      NotSetIsPicked(settings[1..], lines);
      NotCounted(lines, settings[0].key);
      PicksFirst(settings[0], settings[1..], Render(rest), Unset(lines), Rendered);
      assert [settings[0]] + settings[1..] == settings;
      RenderedIsLine(settings[0]);
      assert ([settings[0]] + rest)[1..] == rest && [] + rest == rest;
    }
  }

  lemma RenderedIsLine(s: Setting)
    ensures Rendered(s) == Line(s.key, s.value)
  {
  }

  /** Behind the old lines come, in order, exactly the settings whose key none of them sets. */
  lemma NewKeysAreAppended(lines: seq<string>, settings: seq<Setting>)
    requires ValidSettings(settings)
    ensures |lines| <= |Merge(lines, settings)|
    ensures Picks(settings, Merge(lines, settings)[|lines|..], Unset(lines), Rendered)
  {
    MergeEndsWith(lines, settings);
    NotSetIsPicked(settings, lines);
  }
}
