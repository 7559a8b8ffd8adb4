/** The string helpers of Go's standard library that the viewer relies on:
    strings.TrimSpace, strings.TrimRight(s, "\n"), strings.EqualFold,
    strings.ReplaceAll(s, "\r\n", "\n"), strings.Split(s, "\n") and the
    decimal rendering of fmt's %d verb. Strings are sequences of code points. */
module Text {

  /** An inclusive range of code points. */
  datatype CharRange = CharRange(lo: char, hi: char)

  /** The white-space code points of unicode.IsSpace: the Latin-1 ones it
      lists explicitly and the ranges of the White_Space table above them. */
  const WhiteSpace: seq<CharRange> := [
    CharRange('\t', '\r'), CharRange(' ', ' '), CharRange('\U{85}', '\U{85}'),
    CharRange('\U{A0}', '\U{A0}'), CharRange('\U{1680}', '\U{1680}'),
    CharRange('\U{2000}', '\U{200A}'), CharRange('\U{2028}', '\U{2029}'),
    CharRange('\U{202F}', '\U{202F}'), CharRange('\U{205F}', '\U{205F}'),
    CharRange('\U{3000}', '\U{3000}')
  ]

  /** `c` lies in one of the ranges of `table`. */
  predicate InTable(c: char, table: seq<CharRange>) {
    |table| > 0 && ((table[0].lo <= c <= table[0].hi) || InTable(c, table[1..]))
  }

  /** unicode.IsSpace: the white space strings.TrimSpace removes. */
  predicate IsSpace(c: char) {
    InTable(c, WhiteSpace)
  }

  /** A string is blank when strings.TrimSpace makes it empty. */
  predicate Blank(s: string) {
    forall i :: 0 <= i < |s| ==> IsSpace(s[i])
  }

  /** Drops leading white space: the result is the longest suffix of `s`
      that does not start with white space. */
  function TrimLeftSpace(s: string): (r: string)
    ensures |r| <= |s| && r == s[|s| - |r|..]
    ensures r == [] || !IsSpace(r[0])
    ensures forall i :: 0 <= i < |s| - |r| ==> IsSpace(s[i])
  {
    if s == [] || !IsSpace(s[0]) then s else TrimLeftSpace(s[1..])
  }

  /** Drops trailing white space: the result is the longest prefix of `s`
      that does not end with white space. */
  function TrimRightSpace(s: string): (r: string)
    ensures |r| <= |s| && r == s[..|r|]
    ensures r == [] || !IsSpace(r[|r| - 1])
    ensures forall i :: |r| <= i < |s| ==> IsSpace(s[i])
  {
    if s == [] || !IsSpace(s[|s| - 1]) then s else TrimRightSpace(s[..|s| - 1])
  }

  /** strings.TrimSpace. */
  function TrimSpace(s: string): (r: string)
    ensures r == [] || (!IsSpace(r[0]) && !IsSpace(r[|r| - 1]))
    ensures r == [] <==> Blank(s)
  {
    var left := TrimLeftSpace(s);
    var r := TrimRightSpace(left);
    assert r == [] <==> Blank(s) by {
      var k := |s| - |left|;
      if r == [] {
        forall i | 0 <= i < |s|
          ensures IsSpace(s[i])
        {
          if i >= k {
            assert s[i] == left[i - k];
          }
        }
      }
      if left != [] {
        assert !IsSpace(s[k]);
      }
    }
    r
  }

  /** TrimSpace removes white space only, and only at the two ends: the
      result is a piece of `s` with nothing but white space around it. */
  lemma TrimSpaceKeepsMiddle(s: string)
    ensures exists k :: 0 <= k <= |s| && TrimSpace(s) <= s[k..] && Blank(s[..k]) && Blank(s[k + |TrimSpace(s)|..])
  {
    var left := TrimLeftSpace(s);
    var r := TrimSpace(s);
    var k := |s| - |left|;
    assert r <= s[k..] && Blank(s[..k]) && Blank(s[k + |r|..]);
  }

  /** strings.TrimRight(s, "\n"): drops every trailing newline. */
  function TrimRightNewlines(s: string): (r: string)
    ensures |r| <= |s| && r == s[..|r|]
    ensures r == [] || r[|r| - 1] != '\n'
    ensures forall i :: |r| <= i < |s| ==> s[i] == '\n'
  {
    if s == [] || s[|s| - 1] != '\n' then s else TrimRightNewlines(s[..|s| - 1])
  }

  /** Case folding used by strings.EqualFold, restricted to ASCII letters. */
  function FoldCase(c: char): (f: char)
    ensures 'A' <= c <= 'Z' ==> 'a' <= f <= 'z' && f as int == c as int + 32
    ensures !('A' <= c <= 'Z') ==> f == c
  {
    if 'A' <= c <= 'Z' then (c as int + 32) as char else c
  }

  /** strings.EqualFold: equal after case folding, code point by code point. */
  predicate EqualFold(a: string, b: string) {
    |a| == |b| && forall i :: 0 <= i < |a| ==> FoldCase(a[i]) == FoldCase(b[i])
  }

  /** Two characters are the same up to case: equal, or the capital and the
      small form of one ASCII letter. */
  predicate SameUpToCase(x: char, y: char) {
    || x == y
    || ('A' <= x <= 'Z' && y as int == x as int + 32)
    || ('A' <= y <= 'Z' && x as int == y as int + 32)
  }

  /** What EqualFold gives a caller: the two strings agree position by
      position up to the case of ASCII letters. */
  lemma EqualFoldMeans(a: string, b: string)
    ensures EqualFold(a, b) <==> |a| == |b| && forall i :: 0 <= i < |a| ==> SameUpToCase(a[i], b[i])
  {
  }

  /** Decimal digits of a natural number, as fmt's %d verb writes it. */
  function NatToDecimal(n: nat): (s: string)
    ensures |s| >= 1
    ensures forall i :: 0 <= i < |s| ==> '0' <= s[i] <= '9'
    ensures s[0] != '0' || n == 0
    decreases n
  {
    if n < 10 then [(48 + n) as char] else NatToDecimal(n / 10) + [(48 + n % 10) as char]
  }

  /** The number a string of decimal digits denotes (the inverse of NatToDecimal). */
  function DecimalValue(s: string): nat
    requires forall i :: 0 <= i < |s| ==> '0' <= s[i] <= '9'
  {
    if s == [] then 0 else 10 * DecimalValue(s[..|s| - 1]) + (s[|s| - 1] as int - 48)
  }

  /** Reading back the digits fmt writes for `n` gives `n`. */
  lemma {:induction false} DecimalRoundTrip(n: nat)
    ensures DecimalValue(NatToDecimal(n)) == n
    decreases n
  {
    var s := NatToDecimal(n);
    if n >= 10 {
      DecimalRoundTrip(n / 10);
      assert s[..|s| - 1] == NatToDecimal(n / 10);
    }
  }

  /** strings.ReplaceAll(s, "\r\n", "\n"): one left-to-right pass. */
  function NormalizeNewlines(s: string): (r: string)
    ensures |r| <= |s|
    decreases |s|
  {
    if |s| >= 2 && s[0] == '\r' && s[1] == '\n' then "\n" + NormalizeNewlines(s[2..])
    else if s == [] then []
    else [s[0]] + NormalizeNewlines(s[1..])
  }

  /** The pass turns a leading CR LF pair into one LF. */
  lemma NormalizeCrlfHead(t: string)
    ensures NormalizeNewlines("\r\n" + t) == "\n" + NormalizeNewlines(t)
  {
    assert ("\r\n" + t)[2..] == t;
  }

  /** The pass keeps a leading character that does not start a CR LF pair. */
  lemma NormalizeKeepsHead(c: char, t: string)
    requires !(c == '\r' && |t| > 0 && t[0] == '\n')
    ensures NormalizeNewlines([c] + t) == [c] + NormalizeNewlines(t)
  {
    assert ([c] + t)[1..] == t;
  }

  lemma Regroup(p: string, x: string, m: string, y: string)
    ensures p + (x + m + y) == (p + x) + m + y
  {
  }

  /** A CR LF pair becomes a single LF, and the text on either side of it
      is normalized on its own. */
  lemma {:induction false} NormalizeCrlf(a: string, b: string)
    ensures NormalizeNewlines(a + "\r\n" + b) == NormalizeNewlines(a) + "\n" + NormalizeNewlines(b)
    decreases |a|
  {
    if a == [] {
      assert a + "\r\n" + b == "\r\n" + b;
      NormalizeCrlfHead(b);
    } else if |a| >= 2 && a[0] == '\r' && a[1] == '\n' {
      NormalizeCrlf(a[2..], b);
      NormalizeCrlfAfterPair(a, b);
    } else {
      NormalizeCrlf(a[1..], b);
      NormalizeCrlfAfterChar(a, b);
    }
  }

  /** The step of NormalizeCrlf when `a` starts with a CR LF pair. */
  lemma NormalizeCrlfAfterPair(a: string, b: string)
    requires |a| >= 2 && a[0] == '\r' && a[1] == '\n'
    requires NormalizeNewlines(a[2..] + "\r\n" + b) == NormalizeNewlines(a[2..]) + "\n" + NormalizeNewlines(b)
    ensures NormalizeNewlines(a + "\r\n" + b) == NormalizeNewlines(a) + "\n" + NormalizeNewlines(b)
  {
    var t := a[2..];
    assert a == "\r\n" + t;
    assert a + "\r\n" + b == "\r\n" + (t + "\r\n" + b);
    NormalizeCrlfHead(t + "\r\n" + b);
    NormalizeCrlfHead(t);
    Regroup("\n", NormalizeNewlines(t), "\n", NormalizeNewlines(b));
  }

  /** The step of NormalizeCrlf when `a` does not start with a CR LF pair. */
  lemma NormalizeCrlfAfterChar(a: string, b: string)
    requires a != [] && !(|a| >= 2 && a[0] == '\r' && a[1] == '\n')
    requires NormalizeNewlines(a[1..] + "\r\n" + b) == NormalizeNewlines(a[1..]) + "\n" + NormalizeNewlines(b)
    ensures NormalizeNewlines(a + "\r\n" + b) == NormalizeNewlines(a) + "\n" + NormalizeNewlines(b)
  {
    var t := a[1..];
    assert a == [a[0]] + t;
    assert a + "\r\n" + b == [a[0]] + (t + "\r\n" + b);
    assert (t + "\r\n" + b)[0] == if t == [] then '\r' else t[0];
    NormalizeKeepsHead(a[0], t + "\r\n" + b);
    NormalizeKeepsHead(a[0], t);
    Regroup([a[0]], NormalizeNewlines(t), "\n", NormalizeNewlines(b));
  }

  /** Text without a CR LF pair is left as it is. */
  lemma {:induction false} NormalizeNoCrlf(s: string)
    requires forall i :: 0 <= i < |s| - 1 ==> !(s[i] == '\r' && s[i + 1] == '\n')
    ensures NormalizeNewlines(s) == s
    decreases |s|
  {
    if s != [] {
      NormalizeNoCrlf(s[1..]);
    }
  }

  /** Number of occurrences of `c` in `s`. */
  function Count(s: string, c: char): nat {
    if s == [] then 0 else (if s[0] == c then 1 else 0) + Count(s[1..], c)
  }

  lemma {:induction false} CountAppend(a: string, b: string, c: char)
    ensures Count(a + b, c) == Count(a, c) + Count(b, c)
    decreases |a|
  {
    if a != [] {
      assert (a + b)[0] == a[0] && (a + b)[1..] == a[1..] + b;
      CountAppend(a[1..], b, c);
    } else {
      assert a + b == b;
    }
  }

  /** Normalizing CRLF line ends keeps every line break: the number of
      newlines, and so the number of lines, is unchanged. */
  lemma {:induction false} NormalizeKeepsNewlines(s: string)
    ensures Count(NormalizeNewlines(s), '\n') == Count(s, '\n')
    decreases |s|
  {
    if |s| >= 2 && s[0] == '\r' && s[1] == '\n' {
      NormalizeKeepsNewlines(s[2..]);
      CountAppend("\n", NormalizeNewlines(s[2..]), '\n');
      assert s[1..][1..] == s[2..];
    } else if s != [] {
      NormalizeKeepsNewlines(s[1..]);
      CountAppend([s[0]], NormalizeNewlines(s[1..]), '\n');
    }
  }

  /** strings.Split(s, string(sep)): the pieces between separators; never empty. */
  function Split(s: string, sep: char): (parts: seq<string>)
    ensures |parts| >= 1
    ensures forall i :: 0 <= i < |parts| ==> sep !in parts[i]
    decreases |s|
  {
    if s == [] then [[]]
    else
      var rest := Split(s[1..], sep);
      if s[0] == sep then [[]] + rest else [[s[0]] + rest[0]] + rest[1..]
  }

  /** strings.Join(parts, string(sep)). */
  function Join(parts: seq<string>, sep: char): string
    requires |parts| >= 1
  {
    if |parts| == 1 then parts[0] else parts[0] + [sep] + Join(parts[1..], sep)
  }

  /** Splitting loses nothing: joining the pieces back gives the input. */
  lemma {:induction false} JoinSplit(s: string, sep: char)
    ensures Join(Split(s, sep), sep) == s
    decreases |s|
  {
    if s != [] {
      var rest := Split(s[1..], sep);
      JoinSplit(s[1..], sep);
      if s[0] != sep {
        var parts := Split(s, sep);
        if |rest| > 1 {
          assert parts[1..] == rest[1..];
        }
      }
    }
  }

  /** Splitting adds nothing: pieces free of the separator come back unchanged. */
  lemma {:induction false} SplitJoin(parts: seq<string>, sep: char)
    requires |parts| >= 1
    requires forall i :: 0 <= i < |parts| ==> sep !in parts[i]
    ensures Split(Join(parts, sep), sep) == parts
    decreases |parts|, |parts[0]|
  {
    if |parts| == 1 {
      SplitNoSep(parts[0], sep);
    } else if parts[0] == [] {
      var tail := Join(parts[1..], sep);
      assert Join(parts, sep) == [sep] + tail;
      assert ([sep] + tail)[1..] == tail;
      SplitJoin(parts[1..], sep);
    } else {
      var shorter := [parts[0][1..]] + parts[1..];
      assert shorter[1..] == parts[1..];
      assert forall i :: 0 <= i < |shorter| ==> sep !in shorter[i] by {
        forall i | 0 <= i < |shorter| ensures sep !in shorter[i] {
          if i == 0 {
            assert parts[0] == [parts[0][0]] + parts[0][1..];
          }
        }
      }
      SplitJoin(shorter, sep);
      assert Join(parts, sep) == [parts[0][0]] + Join(shorter, sep);
      assert ([parts[0][0]] + Join(shorter, sep))[1..] == Join(shorter, sep);
      assert [parts[0][0]] + parts[0][1..] == parts[0];
    }
  }

  lemma {:induction false} SplitNoSep(s: string, sep: char)
    requires sep !in s
    ensures Split(s, sep) == [s]
    decreases |s|
  {
    if s != [] {
      SplitNoSep(s[1..], sep);
      assert [s[0]] + s[1..] == s;
    }
  }

  /** The lines of `content` as the overflow check sees them: CRLF
      normalized to LF, then split on LF. */
  function Lines(content: string): (lines: seq<string>)
    ensures |lines| == Count(content, '\n') + 1
    ensures forall i :: 0 <= i < |lines| ==> '\n' !in lines[i]
  {
    var normalized := NormalizeNewlines(content);
    NormalizeKeepsNewlines(content);
    SplitCount(normalized, '\n');
    Split(normalized, '\n')
  }

  lemma {:induction false} SplitCount(s: string, sep: char)
    ensures |Split(s, sep)| == Count(s, sep) + 1
    decreases |s|
  {
    if s != [] {
      SplitCount(s[1..], sep);
    }
  }
}
