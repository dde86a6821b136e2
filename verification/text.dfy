/** The string operations the Python source relies on, on sequences of characters. */
module Text {
  predicate StartsWith(s: string, prefix: string) {
    prefix <= s
  }

  predicate EndsWith(s: string, suffix: string) {
    |suffix| <= |s| && s[|s| - |suffix|..] == suffix
  }

  /** Python's `part in s`. */
  predicate Contains(s: string, part: string) {
    part <= s || (s != [] && Contains(s[1..], part))
  }

  lemma {:induction false} ContainsTail(head: string, part: string)
    ensures Contains(head + part, part)
  {
    if head == "" {
      assert head + part == part;
    } else {
      ContainsTail(head[1..], part);
      assert (head + part)[1..] == head[1..] + part;
    }
  }

  lemma {:induction false} ContainsNeedsFirst(s: string, part: string)
    requires part != "" && part[0] !in s
    ensures !Contains(s, part)
  {
    if s != "" {
      ContainsNeedsFirst(s[1..], part);
    }
  }

  /** `'\n'.join(parts)` */
  function JoinLines(parts: seq<string>): string {
    if parts == [] then "" else if |parts| == 1 then parts[0] else parts[0] + ['\n'] + JoinLines(parts[1..])
  }

  function LowerChar(c: char): char {
    if 'A' <= c <= 'Z' then c - 'A' + 'a' else c
  }

  /** Lower case of the ASCII letters; other characters are left alone. */
  function Lower(s: string): (r: string)
    ensures |r| == |s|
  {
    seq(|s|, i requires 0 <= i < |s| => LowerChar(s[i]))
  }

  /** The characters `str.strip()` removes. */
  predicate IsSpace(c: char) {
    || c in {' ', '\t', '\n', '\r', '\U{0B}', '\U{0C}', '\U{85}', '\U{A0}', '\U{1680}'}
    || '\U{1C}' <= c <= '\U{1F}' || '\U{2000}' <= c <= '\U{200A}'
    || c in {'\U{2028}', '\U{2029}', '\U{202F}', '\U{205F}', '\U{3000}'}
  }

  function StripLeft(s: string): (r: string)
    ensures r == [] || !IsSpace(r[0])
    ensures |r| <= |s|
  {
    if s != [] && IsSpace(s[0]) then StripLeft(s[1..]) else s
  }

  function StripRight(s: string): (r: string)
    ensures r <= s
    ensures r == [] || !IsSpace(r[|r| - 1])
  {
    if s != [] && IsSpace(s[|s| - 1]) then StripRight(s[..|s| - 1]) else s
  }

  function Strip(s: string): string {
    StripRight(StripLeft(s))
  }

  predicate IsBlank(s: string) {
    Strip(s) == []
  }
}
