/**
 PEM bundles (`anthrouter/interception.py`; section 3 of RFC 7468): when a file is a usable CA
 bundle, and why a bundle joined from usable files is one.
 */
module PemBundle {
  import opened Common
  import opened Text

  // ---- Lines, as `str.splitlines` splits text of the Latin-1 range -----------

  predicate IsBreak(c: char) {
    c in {'\n', '\r', '\U{0B}', '\U{0C}', '\U{1C}', '\U{1D}', '\U{1E}', '\U{85}'}
  }

  /** How long a line break `s` starts with, if any. */
  function BreakLength(s: string): (n: nat)
    requires s != ""
    ensures n <= |s|
  {
    if s[0] == '\r' && |s| > 1 && s[1] == '\n' then 2 else if IsBreak(s[0]) then 1 else 0
  }

  /** `word` is what has been read of the current line. */
  function Lines(s: string, word: string): seq<string> {
    if s == "" then (if word == "" then [] else [word])
    else
      var n := BreakLength(s);
      if n == 0 then Lines(s[1..], word + [s[0]]) else [word] + Lines(s[n..], "")
  }

  predicate EndsInNewline(s: string) {
    s != "" && s[|s| - 1] == '\n'
  }

  /** What `rebuild_ca_bundle` joins. */
  function Terminated(s: string): string {
    if EndsInNewline(s) then s else s + ['\n']
  }

  lemma SameBreak(a: string, b: string)
    requires EndsInNewline(a)
    ensures BreakLength(a + b) == BreakLength(a)
  {
  }

  lemma {:induction false} LinesJoin(a: string, b: string, word: string)
    requires EndsInNewline(a)
    ensures Lines(a + b, word) == Lines(a, word) + Lines(b, "")
    decreases |a|
  {
    SameBreak(a, b);
    var n := BreakLength(a);
    if n == 0 {
      assert (a + b)[1..] == a[1..] + b;
      LinesJoin(a[1..], b, word + [a[0]]);
    } else {
      assert (a + b)[n..] == a[n..] + b;
      if |a| > n {
        LinesJoin(a[n..], b, "");
        ConcatAssoc([word], Lines(a[n..], ""), Lines(b, ""));
      } else {
        assert a[n..] == "" && "" + b == b;
        assert [word] + Lines("", "") == [word];
      }
    }
  }

  /** A missing final newline adds at most one empty line. */
  lemma {:induction false} LinesTerminated(a: string, word: string)
    requires !EndsInNewline(a)
    ensures Lines(a + ['\n'], word) in {Lines(a, word), Lines(a, word) + [""]}
    decreases |a|
  {
    var s := a + ['\n'];
    if a == "" {
      assert s == ['\n'] && BreakLength(s) == 1 && s[1..] == "";
      assert Lines(s, word) == [word] + Lines("", "") == [word];
      assert Lines(a, word) + [""] == if word == "" then [""] else [word, ""];
    } else if a == "\r" {
      assert BreakLength(s) == 2 && s[2..] == "" && BreakLength(a) == 1 && a[1..] == "";
    } else {
      var n := BreakLength(a);
      assert BreakLength(s) == n;
      if n == 0 {
        assert s[1..] == a[1..] + ['\n'];
        LinesTerminated(a[1..], word + [a[0]]);
      } else {
        assert s[n..] == a[n..] + ['\n'];
        LinesTerminated(a[n..], "");
        ConcatAssoc([word], Lines(a[n..], ""), [""]);
      }
    }
  }

  // ---- Blocks ----------------------------------------------------------------

  const BEGIN := "-----BEGIN "
  const END := "-----END "
  const DASHES := "-----"
  const CERTIFICATE := "CERTIFICATE"

  predicate IsLabel(s: string) {
    s != "" && forall i :: 0 <= i < |s| ==> 'A' <= s[i] <= 'Z' || '0' <= s[i] <= '9' || s[i] == ' '
  }

  /** The label of an opening line. */
  function BeginLabel(line: string): Option<string> {
    var before, after := |BEGIN|, |line| - |DASHES|;
    if before < after && StartsWith(line, BEGIN) && EndsWith(line, DASHES) && IsLabel(line[before..after])
    then Some(line[before..after]) else None
  }

  function EndLine(tag: string): string {
    END + tag + DASHES
  }

  datatype BlockFault = NotBase64 | NotDer
  datatype Problem = BadBlock(fault: BlockFault) | EndsInside(tag: string) | NoCertificate

  /** Decoding the base64 of a block, and whether it opens a DER sequence, is not modelled. */
  type Checker = seq<string> -> Option<BlockFault>

  datatype Scan = Closed(certs: nat) | Open(tag: string, body: seq<string>, certs: nat) | Failed(fault: BlockFault)

  /** What a line, stripped, makes of the state. */
  function Advance(check: Checker, state: Scan, line: string): Scan {
    match state
    case Failed(_) => state
    case Closed(certs) =>
      (match BeginLabel(line)
       case None => state
       case Some(tag) => Open(tag, [], certs))
    case Open(tag, body, certs) =>
      if line != EndLine(tag) then Open(tag, body + [line], certs)
      else if tag != CERTIFICATE then Closed(certs)
      else if check(body).Some? then Failed(check(body).value)
      else Closed(certs + 1)
  }

  function Step(check: Checker, state: Scan, raw: string): Scan {
    Advance(check, state, Strip(raw))
  }

  function ScanAll(check: Checker, state: Scan, lines: seq<string>): Scan
    decreases |lines|
  {
    if lines == [] then state else ScanAll(check, Step(check, state, lines[0]), lines[1..])
  }

  function Verdict(state: Scan): Option<Problem> {
    match state
    case Failed(fault) => Some(BadBlock(fault))
    case Open(tag, _, _) => Some(EndsInside(tag))
    case Closed(certs) => if certs == 0 then Some(NoCertificate) else None
  }

  function PemProblem(check: Checker, data: string): Option<Problem> {
    Verdict(ScanAll(check, Closed(0), Lines(data, "")))
  }

  /** `pem_problem`. */
  method FindPemProblem(check: Checker, data: string) returns (problem: Option<Problem>)
    ensures problem == PemProblem(check, data)
  {
    var openTag: Option<string>, body: seq<string>, certs := None, [], 0;
    var lines := Lines(data, "");
    for i := 0 to |lines|
      invariant ScanAll(check, Closed(0), lines) == ScanAll(check, AsScan(openTag, body, certs), lines[i..])
    {
      assert lines[i..][1..] == lines[i + 1..];
      var line := Strip(lines[i]);
      if openTag == None {
        var tag := BeginLabel(line);
        if tag.Some? {
          openTag, body := tag, [];
        }
      } else if line == EndLine(openTag.value) {
        if openTag.value == CERTIFICATE {
          var fault := check(body);
          if fault.Some? {
            FailureStays(check, fault.value, lines[i + 1..]);
            return Some(BadBlock(fault.value));
          }
          certs := certs + 1;
        }
        openTag := None;
      } else {
        body := body + [line];
      }
    }
    assert lines[|lines|..] == [];
    if openTag.Some? {
      return Some(EndsInside(openTag.value));
    }
    if certs == 0 {
      return Some(NoCertificate);
    }
    return None;
  }

  function AsScan(openTag: Option<string>, body: seq<string>, certs: nat): Scan {
    match openTag case None => Closed(certs) case Some(tag) => Open(tag, body, certs)
  }

  lemma {:induction false} FailureStays(check: Checker, fault: BlockFault, lines: seq<string>)
    ensures ScanAll(check, Failed(fault), lines) == Failed(fault)
    decreases |lines|
  {
    if lines != [] {
      FailureStays(check, fault, lines[1..]);
    }
  }

  // ---- Composition -----------------------------------------------------------

  lemma {:induction false} ScanJoins(check: Checker, state: Scan, a: seq<string>, b: seq<string>)
    ensures ScanAll(check, state, a + b) == ScanAll(check, ScanAll(check, state, a), b)
    decreases |a|
  {
    if a == [] {
      assert a + b == b;
    } else {
      assert (a + b)[1..] == a[1..] + b;
      ScanJoins(check, Step(check, state, a[0]), a[1..], b);
    }
  }

  /** A scan with certificates already counted. */
  function More(state: Scan, certs: nat): Scan {
    match state
    case Failed(_) => state
    case Closed(n) => Closed(n + certs)
    case Open(tag, body, n) => Open(tag, body, n + certs)
  }

  lemma {:induction false} ScanCountsOn(check: Checker, state: Scan, certs: nat, lines: seq<string>)
    ensures ScanAll(check, More(state, certs), lines) == More(ScanAll(check, state, lines), certs)
    decreases |lines|
  {
    if lines != [] {
      assert Step(check, More(state, certs), lines[0]) == More(Step(check, state, lines[0]), certs);
      ScanCountsOn(check, Step(check, state, lines[0]), certs, lines[1..]);
    }
  }

  lemma EmptyLineChangesNothing(check: Checker, certs: nat)
    ensures ScanAll(check, Closed(certs), [""]) == Closed(certs)
  {
    assert Step(check, Closed(certs), "") == Closed(certs);
    assert [""][1..] == [];
  }

  /** The newline that is added changes nothing about a usable source. */
  lemma TerminatedStaysUsable(check: Checker, data: string)
    requires PemProblem(check, data) == None
    ensures ScanAll(check, Closed(0), Lines(Terminated(data), "")) == ScanAll(check, Closed(0), Lines(data, ""))
  {
    if !EndsInNewline(data) {
      LinesTerminated(data, "");
      var lines := Lines(data, "");
      ScanJoins(check, Closed(0), lines, [""]);
      EmptyLineChangesNothing(check, ScanAll(check, Closed(0), lines).certs);
    }
  }

  lemma VerdictCountsOn(state: Scan, certs: nat)
    requires certs > 0
    ensures Verdict(More(state, certs)) == if Verdict(state) == Some(NoCertificate) then None else Verdict(state)
  {
  }

  lemma ScanBehind(check: Checker, first: seq<string>, certs: nat, more: seq<string>)
    requires ScanAll(check, Closed(0), first) == Closed(certs)
    ensures ScanAll(check, Closed(0), first + more) == More(ScanAll(check, Closed(0), more), certs)
  {
    ScanJoins(check, Closed(0), first, more);
    ScanCountsOn(check, Closed(0), certs, more);
  }

  /**
   Behind a usable source, terminated, any file has exactly the problems it has alone, save
   that it no longer needs a certificate of its own.
   */
  lemma SourceThenFile(check: Checker, source: string, file: string)
    requires PemProblem(check, source) == None
    ensures PemProblem(check, Terminated(source) + file)
         == if PemProblem(check, file) == Some(NoCertificate) then None else PemProblem(check, file)
  {
    TerminatedStaysUsable(check, source);
    LinesJoin(Terminated(source), file, "");
    var certs := ScanAll(check, Closed(0), Lines(source, "")).certs;
    ScanBehind(check, Lines(Terminated(source), ""), certs, Lines(file, ""));
    VerdictCountsOn(ScanAll(check, Closed(0), Lines(file, "")), certs);
  }

  // ---- The bundle ------------------------------------------------------------

  /** A configured source: its resolved path, and its bytes if it can be read. */
  datatype Source = Source(path: string, data: Option<string>)

  datatype Outcome = Untouched | Kept | Missing | Written(bundle: string, unreadable: nat)

  function Usable(check: Checker, source: Source): Option<string> {
    if source.data.Some? && PemProblem(check, source.data.value) == None then source.data else None
  }

  /** The usable sources in order, each path once and neither the bundle nor ca.pem itself. */
  function Parts(check: Checker, sources: seq<Source>, skip: set<string>): seq<string>
    decreases |sources|
  {
    if sources == [] then []
    else if sources[0].path in skip then Parts(check, sources[1..], skip)
    else
      var data := Usable(check, sources[0]);
      (if data.Some? then [data.value] else []) + Parts(check, sources[1..], skip + {sources[0].path})
  }

  function Unreadable(check: Checker, sources: seq<Source>, skip: set<string>): nat
    decreases |sources|
  {
    if sources == [] then 0
    else if sources[0].path in skip then Unreadable(check, sources[1..], skip)
    else
      (if Usable(check, sources[0]).Some? then 0 else 1)
      + Unreadable(check, sources[1..], skip + {sources[0].path})
  }

  function Joined(parts: seq<string>, tail: string): string {
    if parts == [] then tail else Terminated(parts[0]) + Joined(parts[1..], tail)
  }

  function TerminateAll(parts: seq<string>): (r: seq<string>)
    ensures |r| == |parts|
  {
    if parts == [] then [] else [Terminated(parts[0])] + TerminateAll(parts[1..])
  }

  lemma {:induction false} JoinedIsConcat(parts: seq<string>, tail: string)
    ensures Concat(TerminateAll(parts) + [tail]) == Joined(parts, tail)
  {
    if parts == [] {
      assert TerminateAll(parts) + [tail] == [tail];
      assert Concat([tail]) == tail + Concat([tail][1..]) && tail + "" == tail;
    } else {
      assert (TerminateAll(parts) + [tail])[1..] == TerminateAll(parts[1..]) + [tail];
      JoinedIsConcat(parts[1..], tail);
    }
  }

  lemma {:induction false} TerminateAllAppend(a: seq<string>, b: seq<string>)
    ensures TerminateAll(a + b) == TerminateAll(a) + TerminateAll(b)
  {
    if a == [] {
      assert a + b == b;
    } else {
      assert (a + b)[1..] == a[1..] + b;
      TerminateAllAppend(a[1..], b);
    }
  }

  /**
   `rebuild_ca_bundle`, from what the files hold; `hasBundle` says that there is one already, and
   `writable` that putting the new one in its place succeeds.
   */
  method RebuildCaBundle(check: Checker, configured: Option<seq<Source>>, bundle: string, ca: Source,
                         hasBundle: bool, writable: bool) returns (r: Outcome)
    ensures configured == None ==> r == Untouched
    ensures configured.Some? ==>
              var sources, skip := configured.value, {bundle, ca.path};
              r == if hasBundle && Unreadable(check, sources, skip) > 0 then Kept
                   else if ca.data == None || !writable then (if hasBundle then Kept else Missing)
                   else Written(Joined(Parts(check, sources, skip), ca.data.value), Unreadable(check, sources, skip))
  {
    if configured == None {
      return Untouched;
    }
    var sources, skip := configured.value, {bundle, ca.path};
    ghost var allParts, allUnreadable := Parts(check, sources, skip), Unreadable(check, sources, skip);
    ghost var usable: seq<string> := [];
    var parts: seq<string>, unreadable := [], 0;
    for i := 0 to |sources|
      invariant parts == TerminateAll(usable)
      invariant allParts == usable + Parts(check, sources[i..], skip)
      invariant allUnreadable == unreadable + Unreadable(check, sources[i..], skip)
    {
      var source := sources[i];
      assert sources[i..][1..] == sources[i + 1..];
      if source.path in skip {
        continue;
      }
      var data := ReadSource(check, source);
      if data == None {
        unreadable := unreadable + 1;
      } else {
        TerminateAllAppend(usable, [data.value]);
        assert TerminateAll([data.value]) == [Terminated(data.value)];
        ConcatAssoc(usable, [data.value], Parts(check, sources[i + 1..], skip + {source.path}));
        usable := usable + [data.value];
        parts := parts + [if EndsInNewline(data.value) then data.value else data.value + ['\n']];
      }
      skip := skip + {source.path};
    }
    assert sources[|sources|..] == [] && usable + [] == usable;
    if unreadable > 0 && hasBundle {
      return Kept;
    }
    if ca.data == None || !writable {
      return if hasBundle then Kept else Missing;
    }
    JoinedIsConcat(usable, ca.data.value);
    parts := parts + [ca.data.value];
    return Written(Concat(parts), unreadable);
  }

  /** `_read_source`. */
  method ReadSource(check: Checker, source: Source) returns (data: Option<string>)
    ensures data == Usable(check, source)
  {
    if source.data == None {
      return None;
    }
    var problem := FindPemProblem(check, source.data.value);
    return if problem.Some? then None else source.data;
  }

  predicate AllUsable(check: Checker, parts: seq<string>) {
    parts == [] || (PemProblem(check, parts[0]) == None && AllUsable(check, parts[1..]))
  }

  lemma {:induction false} PartsAreUsable(check: Checker, sources: seq<Source>, skip: set<string>)
    ensures AllUsable(check, Parts(check, sources, skip))
    decreases |sources|
  {
    if sources != [] {
      if sources[0].path in skip {
        PartsAreUsable(check, sources[1..], skip);
      } else {
        PartsAreUsable(check, sources[1..], skip + {sources[0].path});
        var rest := Parts(check, sources[1..], skip + {sources[0].path});
        var data := Usable(check, sources[0]);
        if data.Some? {
          assert ([data.value] + rest)[1..] == rest;
        } else {
          assert [] + rest == rest;
        }
      }
    }
  }

  /** Usable sources in front of ca.pem leave it the problems it has, and never an open block. */
  lemma {:induction false} JoinedProblem(check: Checker, parts: seq<string>, ca: string)
    requires AllUsable(check, parts)
    ensures PemProblem(check, Joined(parts, ca))
         == if parts != [] && PemProblem(check, ca) == Some(NoCertificate) then None else PemProblem(check, ca)
  {
    if parts != [] {
      JoinedProblem(check, parts[1..], ca);
      SourceThenFile(check, parts[0], Joined(parts[1..], ca));
    }
  }

  /** Whatever the sources hold, a bundle written around a valid ca.pem is usable. */
  lemma WrittenBundleIsUsable(check: Checker, sources: seq<Source>, bundle: string, ca: Source)
    requires ca.data.Some? && PemProblem(check, ca.data.value) == None
    ensures PemProblem(check, Joined(Parts(check, sources, {bundle, ca.path}), ca.data.value)) == None
  {
    PartsAreUsable(check, sources, {bundle, ca.path});
    JoinedProblem(check, Parts(check, sources, {bundle, ca.path}), ca.data.value);
  }
}
