/**
 * The parts of JavaScript's string semantics the pages rely on: the
 * whitespace class shared by the regular-expression escape `\s` and by
 * `String.prototype.trim`, `length` counted in UTF-16 code units, `slice`
 * from the start, the decimal rendering of a non-negative integer, and the
 * text after the last dot that `name.split('.').pop()` yields.
 */
module JsText {
  import opened Seqs

  /**
   * The characters matched by `\s` and removed by `trim`: the ECMAScript
   * WhiteSpace (tab, vertical tab, form feed, space, no-break space,
   * byte-order mark and the other space separators) and LineTerminator
   * (line feed, carriage return, line and paragraph separators) sets.
   */
  predicate IsWhitespace(c: char)
    ensures IsWhitespace(c) ==> c as int <= 0xFFFF
    ensures IsWhitespace(c) ==> !('0' <= c <= '9') && c != '+' && c != '-' && c != '@'
  {
    || c == '\t' || c == '\n' || c == '\U{000B}' || c == '\U{000C}' || c == '\r'
    || c == ' ' || c == '\U{00A0}' || c == '\U{1680}'
    || ('\U{2000}' <= c <= '\U{200A}')
    || c == '\U{2028}' || c == '\U{2029}' || c == '\U{202F}' || c == '\U{205F}'
    || c == '\U{3000}' || c == '\U{FEFF}'
  }

  /** `s.trimStart()`: the longest suffix of `s` after a run of whitespace. */
  function TrimStart(s: string): (r: string)
    ensures |r| <= |s| && r == s[|s| - |r|..]
    ensures forall i :: 0 <= i < |s| - |r| ==> IsWhitespace(s[i])
    ensures r == "" || !IsWhitespace(r[0])
    decreases |s|
  {
    if s != [] && IsWhitespace(s[0]) then
      assert forall i :: 1 <= i < |s| ==> s[i] == s[1..][i - 1];
      TrimStart(s[1..])
    else s
  }

  /** `s.trimEnd()`: the longest prefix of `s` before a run of whitespace. */
  function TrimEnd(s: string): (r: string)
    ensures |r| <= |s| && r == s[..|r|]
    ensures forall i :: |r| <= i < |s| ==> IsWhitespace(s[i])
    ensures r == "" || !IsWhitespace(r[|r| - 1])
    decreases |s|
  {
    if s != [] && IsWhitespace(s[|s| - 1]) then
      assert forall i :: 0 <= i < |s| - 1 ==> s[i] == s[..|s| - 1][i];
      TrimEnd(s[..|s| - 1])
    else s
  }

  /**
   * `r` is the part of `s` from index `k` on, after a run of whitespace, and
   * only whitespace follows it.
   */
  predicate TrimmedAt(s: string, k: nat, r: string) {
    && k + |r| <= |s| && r == s[k..][..|r|]
    && (forall i :: 0 <= i < k ==> IsWhitespace(s[i]))
    && (forall i :: k + |r| <= i < |s| ==> IsWhitespace(s[i]))
  }

  /**
   * `s.trim()`: the part of `s` between a leading and a trailing run of
   * whitespace, beginning and ending with a character that is not whitespace.
   */
  function Trim(s: string): (r: string)
    ensures |r| <= |s|
    ensures exists k :: TrimmedAt(s, k, r)
    ensures r == "" || (!IsWhitespace(r[0]) && !IsWhitespace(r[|r| - 1]))
  {
    TrimSpan(s);
    TrimEnd(TrimStart(s))
  }

  /** The part `trim` keeps starts where `trimStart` stopped. */
  lemma TrimSpan(s: string)
    ensures TrimmedAt(s, |s| - |TrimStart(s)|, TrimEnd(TrimStart(s)))
  {
    var t := TrimStart(s);
    var k := |s| - |t|;
    var r := TrimEnd(t);
    assert t == s[k..];
    forall i | k + |r| <= i < |s|
      ensures IsWhitespace(s[i])
    {
      assert s[i] == t[i - k];
    }
  }

  /** The trimmed string is empty exactly when every character is whitespace. */
  lemma {:induction false} TrimEmptyIffBlank(s: string)
    ensures Trim(s) == "" <==> forall i :: 0 <= i < |s| ==> IsWhitespace(s[i])
    decreases |s|
  {
    if s != [] {
      if IsWhitespace(s[0]) {
        TrimEmptyIffBlank(s[1..]);
        assert forall i :: 1 <= i < |s| ==> s[i] == s[1..][i - 1];
      } else {
        var t := TrimStart(s);
        assert t == s;
        var e := TrimEnd(s);
        assert e != "" by {
          if e == "" {
            TrimEndEmpty(s);
          }
        }
      }
    }
  }

  lemma {:induction false} TrimEndEmpty(s: string)
    requires TrimEnd(s) == ""
    ensures forall i :: 0 <= i < |s| ==> IsWhitespace(s[i])
    decreases |s|
  {
    if s != [] {
      TrimEndEmpty(s[..|s| - 1]);
      assert forall i :: 0 <= i < |s| - 1 ==> s[i] == s[..|s| - 1][i];
    }
  }

  /** A character outside the Basic Multilingual Plane, which UTF-16 stores as a surrogate pair. */
  predicate IsAstral(c: char) {
    c as int > 0xFFFF
  }

  /**
   * The number of UTF-16 code units of `s`, JavaScript's `s.length`: one per
   * character and one more per character outside the Basic Multilingual Plane.
   */
  function Utf16Length(s: string): (n: nat)
    ensures n == |s| + |Filter(s, IsAstral)|
    ensures |s| <= n <= 2 * |s|
    ensures (forall i :: 0 <= i < |s| ==> s[i] as int <= 0xFFFF) ==> n == |s|
    decreases |s|
  {
    if s == [] then 0
    else (if IsAstral(s[0]) then 2 else 1) + Utf16Length(s[1..])
  }

  /** `s.slice(0, n)` on a string whose code units are its characters. */
  function Prefix(s: string, n: nat): (r: string)
    ensures |r| == if |s| <= n then |s| else n
    ensures r == s[..|r|]
  {
    if |s| <= n then s else s[..n]
  }

  function DigitChar(d: nat): (c: char)
    requires d < 10
    ensures '0' <= c <= '9' && c as int - '0' as int == d
  {
    ('0' as int + d) as char
  }

  /**
   * The decimal rendering of `n`, as template literals print a non-negative
   * integer: digits only, with no leading zero except in "0" itself.
   */
  function Decimal(n: nat): (r: string)
    ensures |r| >= 1
    ensures forall i :: 0 <= i < |r| ==> '0' <= r[i] <= '9'
    ensures n > 0 ==> r[0] != '0'
    ensures |r| > 1 ==> r[0] != '0'
    decreases n
  {
    if n < 10 then [DigitChar(n)] else Decimal(n / 10) + [DigitChar(n % 10)]
  }

  /** The value of a string of decimal digits. */
  function DigitsValue(s: string): nat
    requires forall i :: 0 <= i < |s| ==> '0' <= s[i] <= '9'
    decreases |s|
  {
    if s == [] then 0 else 10 * DigitsValue(s[..|s| - 1]) + (s[|s| - 1] as int - '0' as int)
  }

  /** Round trip: reading the rendered digits gives the number back. */
  lemma {:induction false} DecimalValue(n: nat)
    ensures DigitsValue(Decimal(n)) == n
    decreases n
  {
    var r := Decimal(n);
    if n >= 10 {
      DecimalValue(n / 10);
      assert r[..|r| - 1] == Decimal(n / 10);
      assert r[|r| - 1] as int - '0' as int == n % 10;
      assert n == 10 * (n / 10) + n % 10;
    }
  }

  /** `name.split('.').pop()`: the text after the last dot, or all of `name` when it has none. */
  function LastDotSegment(name: string): (ext: string)
    ensures '.' !in ext
    ensures '.' !in name ==> ext == name
    ensures '.' in name ==> exists stem :: name == stem + "." + ext
  {
    var parts := Split(name, '.');
    JoinSplit(name, '.');
    if |parts| == 1 then parts[0]
    else
      var stem := Join(parts[..|parts| - 1], '.');
      JoinSnoc(parts[..|parts| - 1], parts[|parts| - 1], '.');
      assert parts == parts[..|parts| - 1] + [parts[|parts| - 1]];
      assert name == stem + "." + parts[|parts| - 1];
      parts[|parts| - 1]
  }

  lemma {:induction false} JoinSnoc(parts: seq<string>, last: string, sep: char)
    requires |parts| >= 1
    ensures Join(parts + [last], sep) == Join(parts, sep) + [sep] + last
    decreases |parts|
  {
    var all := parts + [last];
    assert all[0] == parts[0] && all[1..] == parts[1..] + [last];
    if |parts| > 1 {
      JoinSnoc(parts[1..], last, sep);
      assert Join(parts, sep) == parts[0] + [sep] + Join(parts[1..], sep);
    } else {
      assert all[1..] == [last];
    }
    assert Join(all, sep) == parts[0] + [sep] + Join(all[1..], sep);
  }

  /** The segment after the last dot of `stem + "." + ext` is `ext` when `ext` has no dot. */
  lemma LastDotSegmentOf(stem: string, ext: string)
    requires '.' !in ext
    ensures LastDotSegment(stem + "." + ext) == ext
  {
    assert stem + "." + ext == stem + ['.'] + ext;
    SplitAtSep(stem, ext, '.');
    SplitWithoutSep(ext, '.');
  }
}
