/** The string operations the portfolio relies on: Python's `str.strip`,
    `str.split(sep)`, `str.lower`, the substring test `a in b` and string
    comparison `a < b` (which `sorted` uses), and JavaScript's `trim` and
    `split('.')`. */
module Strings {

  /** Whose notion of whitespace a strip uses. */
  datatype Runtime = Python | JavaScript

  /** The whitespace that stripping removes. Both runtimes remove the tab,
      line-feed, vertical-tab, form-feed and carriage-return controls, the
      space, the no-break space and the other Unicode space separators, and
      the line and paragraph separators. Python's `str.isspace` adds the
      separator controls U+001C to U+001F and U+0085; JavaScript's `trim`
      adds the byte-order mark U+FEFF. */
  predicate IsSpace(c: char, rt: Runtime) {
    || c == ' ' || '\t' <= c <= '\r' || c == '\U{A0}' || c == '\U{1680}'
    || '\U{2000}' <= c <= '\U{200A}' || c == '\U{2028}' || c == '\U{2029}'
    || c == '\U{202F}' || c == '\U{205F}' || c == '\U{3000}'
    || (rt == Python && ('\U{1C}' <= c <= '\U{1F}' || c == '\U{85}'))
    || (rt == JavaScript && c == '\U{FEFF}')
  }

  predicate AllSpace(s: string, rt: Runtime) {
    forall i :: 0 <= i < |s| ==> IsSpace(s[i], rt)
  }

  /** Drops the leading whitespace. */
  function TrimStart(s: string, rt: Runtime): string {
    if |s| > 0 && IsSpace(s[0], rt) then TrimStart(s[1..], rt) else s
  }

  /** Drops the trailing whitespace. */
  function TrimEnd(s: string, rt: Runtime): string {
    if |s| > 0 && IsSpace(s[|s| - 1], rt) then TrimEnd(s[..|s| - 1], rt) else s
  }

  /** Whitespace removed from both ends. */
  function Trim(s: string, rt: Runtime): string {
    TrimEnd(TrimStart(s, rt), rt)
  }

  /** Python's `s.strip()`. */
  function PyStrip(s: string): string {
    Trim(s, Python)
  }

  /** JavaScript's `s.trim()`. */
  function JsTrim(s: string): string {
    Trim(s, JavaScript)
  }

  /** What `TrimStart` drops is a whitespace prefix, and what it keeps does
      not start with whitespace. */
  lemma {:induction false} TrimStartDrops(s: string, rt: Runtime)
    ensures var r := TrimStart(s, rt);
      && |r| <= |s| && r == s[|s| - |r|..]
      && AllSpace(s[..|s| - |r|], rt)
      && (r == [] || !IsSpace(r[0], rt))
  {
    if |s| > 0 && IsSpace(s[0], rt) {
      var r := TrimStart(s[1..], rt);
      TrimStartDrops(s[1..], rt);
      assert s[1..][..|s| - 1 - |r|] == s[1..|s| - |r|];
      assert s[1..][|s| - 1 - |r|..] == s[|s| - |r|..];
    }
  }

  /** What `TrimEnd` drops is a whitespace suffix, and what it keeps does not
      end with whitespace. */
  lemma {:induction false} TrimEndDrops(s: string, rt: Runtime)
    ensures var r := TrimEnd(s, rt);
      && |r| <= |s| && r == s[..|r|]
      && AllSpace(s[|r|..], rt)
      && (r == [] || !IsSpace(r[|r| - 1], rt))
  {
    if |s| > 0 && IsSpace(s[|s| - 1], rt) {
      var r := TrimEnd(s[..|s| - 1], rt);
      TrimEndDrops(s[..|s| - 1], rt);
      assert s[..|s| - 1][..|r|] == s[..|r|];
      assert s[..|s| - 1][|r|..] == s[|r|..|s| - 1];
      assert s[|r|..] == s[|r|..|s| - 1] + [s[|s| - 1]];
      assert forall i :: |r| <= i < |s| ==> IsSpace(s[i], rt) by {
        forall i | |r| <= i < |s| ensures IsSpace(s[i], rt) {
          if i < |s| - 1 {
            assert s[|r|..|s| - 1][i - |r|] == s[i];
          }
        }
      }
    }
  }

  /** The stripped string is a slice of `s` that is empty exactly when `s` is
      all whitespace, and otherwise starts and ends with a non-space
      character. */
  lemma TrimIsStrip(s: string, rt: Runtime)
    ensures var r := Trim(s, rt);
      && |r| <= |s|
      && (r == [] <==> AllSpace(s, rt))
      && (r != [] ==> !IsSpace(r[0], rt) && !IsSpace(r[|r| - 1], rt))
  {
    var t := TrimStart(s, rt);
    TrimStartDrops(s, rt);
    TrimEndDrops(t, rt);
    if Trim(s, rt) == [] {
      assert s[..|s| - |t|] == s;
    }
  }

  /** Stripping a stripped string changes nothing. */
  lemma TrimIdempotent(s: string, rt: Runtime)
    ensures Trim(Trim(s, rt), rt) == Trim(s, rt)
  {
    TrimIsStrip(s, rt);
    var r := Trim(s, rt);
    if r != [] {
      TrimEndDrops(TrimStart(s, rt), rt);
      assert TrimStart(r, rt) == r;
      assert TrimEnd(r, rt) == r;
    }
  }

  /** The two runtimes disagree on ASCII input: Python strips the file
      separator U+001C, JavaScript keeps it. */
  lemma StripAndTrimDiffer()
    ensures PyStrip("\U{1C}") == "" && JsTrim("\U{1C}") == "\U{1C}"
  {
  }

  /** `sep.join(parts)`. */
  function Join(parts: seq<string>, sep: char): string
    requires |parts| >= 1
  {
    if |parts| == 1 then parts[0] else parts[0] + [sep] + Join(parts[1..], sep)
  }

  /** `s.split(sep)` with an explicit one-character separator:
      `"".split(",") == [""]`. */
  function Split(s: string, sep: char): seq<string> {
    if |s| == 0 then [""]
    else
      var rest := Split(s[1..], sep);
      if s[0] == sep then [""] + rest
      else [[s[0]] + rest[0]] + rest[1..]
  }

  /** `split` never gives an empty list, no part holds the separator, and
      joining the parts back gives `s`. */
  lemma {:induction false} SplitParts(s: string, sep: char)
    ensures var parts := Split(s, sep);
      && |parts| >= 1
      && (forall p :: p in parts ==> sep !in p)
      && Join(parts, sep) == s
  {
    if |s| > 0 {
      var rest := Split(s[1..], sep);
      SplitParts(s[1..], sep);
      assert s == [s[0]] + s[1..];
      if s[0] == sep {
        assert ([""] + rest)[1..] == rest;
      } else {
        var parts := [[s[0]] + rest[0]] + rest[1..];
        assert parts[1..] == rest[1..];
        assert rest[0] in rest;
        if |rest| > 1 {
          assert rest == [rest[0]] + rest[1..];
          assert Join(rest, sep) == rest[0] + [sep] + Join(rest[1..], sep);
        }
        forall p | p in parts ensures sep !in p {
          if p != parts[0] {
            assert p in rest;
          }
        }
      }
    }
  }

  lemma {:induction false} SplitPrefix(a: string, b: string, sep: char)
    requires sep !in a
    ensures Split(a + b, sep) == [a + Split(b, sep)[0]] + Split(b, sep)[1..]
  {
    if a != [] {
      var parts := Split(b, sep);
      assert (a + b)[1..] == a[1..] + b;
      assert (a + b)[0] == a[0] != sep;
      SplitPrefix(a[1..], b, sep);
      var rest := Split(a[1..] + b, sep);
      assert rest[0] == a[1..] + parts[0] && rest[1..] == parts[1..];
      assert Split(a + b, sep) == [[a[0]] + rest[0]] + rest[1..];
      assert [a[0]] + (a[1..] + parts[0]) == a + parts[0];
    } else {
      assert a + b == b;
      assert a + Split(b, sep)[0] == Split(b, sep)[0];
      assert Split(b, sep) == [Split(b, sep)[0]] + Split(b, sep)[1..];
    }
  }

  /** The other round trip: splitting a join of separator-free parts gives
      the parts back. */
  lemma {:induction false} SplitJoin(parts: seq<string>, sep: char)
    requires |parts| >= 1
    requires forall p :: p in parts ==> sep !in p
    ensures Split(Join(parts, sep), sep) == parts
  {
    if |parts| == 1 {
      SplitPrefix(parts[0], "", sep);
      assert parts[0] + "" == parts[0];
    } else {
      var rest := Join(parts[1..], sep);
      SplitJoin(parts[1..], sep);
      assert parts[0] + [sep] + rest == parts[0] + ([sep] + rest);
      SplitPrefix(parts[0], [sep] + rest, sep);
      assert ([sep] + rest)[1..] == rest;
      assert parts[0] + "" == parts[0];
    }
  }

  /** ASCII part of `str.lower()` and `toLowerCase()`. */
  function LowerChar(c: char): char {
    if 'A' <= c <= 'Z' then (c as int - 'A' as int + 'a' as int) as char else c
  }

  function Lower(s: string): string {
    seq(|s|, i requires 0 <= i < |s| => LowerChar(s[i]))
  }

  /** Python's `needle in hay` on strings. */
  predicate Contains(hay: string, needle: string) {
    exists i :: 0 <= i <= |hay| && needle <= hay[i..]
  }

  /** Python's string `a < b`: code-point lexicographic order, a proper prefix
      coming first. */
  predicate Below(a: string, b: string) {
    if |a| == 0 then |b| > 0
    else |b| > 0 && (a[0] < b[0] || (a[0] == b[0] && Below(a[1..], b[1..])))
  }

  lemma {:induction false} BelowIrreflexive(a: string)
    ensures !Below(a, a)
  {
    if |a| > 0 {
      BelowIrreflexive(a[1..]);
    }
  }

  lemma {:induction false} BelowTransitive(a: string, b: string, c: string)
    requires Below(a, b) && Below(b, c)
    ensures Below(a, c)
  {
    if |a| > 0 && a[0] == b[0] && b[0] == c[0] {
      BelowTransitive(a[1..], b[1..], c[1..]);
    }
  }

  /** Any two distinct strings are ordered one way or the other. */
  lemma {:induction false} BelowTotal(a: string, b: string)
    requires a != b
    ensures Below(a, b) || Below(b, a)
  {
    if |a| > 0 && |b| > 0 && a[0] == b[0] {
      assert a == [a[0]] + a[1..] && b == [b[0]] + b[1..];
      BelowTotal(a[1..], b[1..]);
    }
  }
}
