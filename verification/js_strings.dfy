/** The JavaScript string operations the dashboard uses, on `seq<char>`:
    the `\s` class (which is also the set `String.prototype.trim` removes),
    `replace(/\s/g, '')`, `trim`, ASCII `toLowerCase`, `includes`,
    number-to-decimal conversion in template strings, and `split` on one
    character. */
module JsStrings {
  import opened Selection

  /** ECMAScript WhiteSpace and LineTerminator code points: what `\s`
      matches and what `trim` strips. */
  predicate IsJsSpace(c: char) {
    || c == '\t' || c == '\n' || c == '\U{000B}' || c == '\U{000C}' || c == '\r'
    || c == ' ' || c == '\U{00A0}' || c == '\U{1680}'
    || ('\U{2000}' <= c <= '\U{200A}')
    || c == '\U{2028}' || c == '\U{2029}' || c == '\U{202F}' || c == '\U{205F}'
    || c == '\U{3000}' || c == '\U{FEFF}'
  }

  predicate IsNotJsSpace(c: char) {
    !IsJsSpace(c)
  }

  /** `\d`. */
  predicate IsDigit(c: char) {
    '0' <= c <= '9'
  }

  predicate AllSpace(s: string) {
    forall i :: 0 <= i < |s| ==> IsJsSpace(s[i])
  }

  /** `s.replace(/\s/g, '')`. */
  function StripSpaces(s: string): (r: string)
    ensures |r| <= |s|
    ensures forall k :: 0 <= k < |r| ==> !IsJsSpace(r[k])
  {
    Filter(s, IsNotJsSpace)
  }

  /** What is left after removing whitespace: characters of `s`, and every
      character of `s` that is not whitespace. */
  lemma StripSpacesMembers(s: string)
    ensures forall k :: 0 <= k < |StripSpaces(s)| ==> StripSpaces(s)[k] in s
    ensures forall i :: 0 <= i < |s| && !IsJsSpace(s[i]) ==> s[i] in StripSpaces(s)
  {
    FilterMembers(s, IsNotJsSpace);
  }

  /** `s.trimStart()`: drops the longest all-space prefix. */
  function TrimStart(s: string): (r: string)
    ensures |r| <= |s| && r == s[|s| - |r|..]
    ensures AllSpace(s[..|s| - |r|])
    ensures r == [] || !IsJsSpace(r[0])
  {
    if s != [] && IsJsSpace(s[0]) then TrimStart(s[1..]) else s
  }

  /** `s.trimEnd()`: drops the longest all-space suffix. */
  function TrimEnd(s: string): (r: string)
    ensures |r| <= |s| && r == s[..|r|]
    ensures AllSpace(s[|r|..])
    ensures r == [] || !IsJsSpace(r[|r| - 1])
  {
    if s != [] && IsJsSpace(s[|s| - 1]) then TrimEnd(s[..|s| - 1]) else s
  }

  /** `s.trim()`: what is left after removing leading and trailing space
      starts and ends with a non-space character. */
  function Trim(s: string): (r: string)
    ensures |r| <= |s|
    ensures r == [] || (!IsJsSpace(r[0]) && !IsJsSpace(r[|r| - 1]))
  {
    TrimEnd(TrimStart(s))
  }

  /** Trimming leaves nothing exactly when the string is all space. */
  lemma TrimEmptyIff(s: string)
    ensures Trim(s) == [] <==> AllSpace(s)
  {
    TrimStartEmpty(s);
    TrimEndEmpty(TrimStart(s));
  }

  /** Trimming removes only space: removing every space from the trimmed
      string removes the same characters as from the original. */
  lemma TrimStrip(s: string)
    ensures StripSpaces(Trim(s)) == StripSpaces(s)
  {
    TrimStartStrip(s);
    TrimEndStrip(TrimStart(s));
  }

  lemma {:induction false} TrimStartEmpty(s: string)
    ensures TrimStart(s) == [] <==> AllSpace(s)
  {
    if s != [] && IsJsSpace(s[0]) {
      TrimStartEmpty(s[1..]);
      assert AllSpace(s[1..]) ==> AllSpace(s) by {
        if AllSpace(s[1..]) {
          forall i | 1 <= i < |s| ensures IsJsSpace(s[i]) {
            assert s[i] == s[1..][i - 1];
          }
        }
      }
    }
  }

  lemma TrimEndEmpty(a: string)
    requires a == [] || !IsJsSpace(a[0])
    ensures TrimEnd(a) == [] <==> a == []
  {
  }

  lemma {:induction false} TrimStartStrip(s: string)
    ensures StripSpaces(TrimStart(s)) == StripSpaces(s)
  {
    if s != [] && IsJsSpace(s[0]) {
      TrimStartStrip(s[1..]);
    }
  }

  lemma {:induction false} TrimEndStrip(s: string)
    ensures StripSpaces(TrimEnd(s)) == StripSpaces(s)
  {
    if s != [] && IsJsSpace(s[|s| - 1]) {
      var init := s[..|s| - 1];
      assert s == init + [s[|s| - 1]];
      FilterConcat(init, [s[|s| - 1]], IsNotJsSpace);
      TrimEndStrip(init);
    }
  }

  /** Trimming twice is trimming once. */
  lemma TrimIdempotent(s: string)
    ensures Trim(Trim(s)) == Trim(s)
  {
    TrimUntouched(Trim(s));
  }

  /** Where `s.trim()` starts in `s`: after the leading space. */
  function TrimOffset(s: string): (i: nat)
    ensures i <= |s| && AllSpace(s[..i])
  {
    |s| - |TrimStart(s)|
  }

  /** `s.trim()` is the middle of `s` between an all-space prefix and an
      all-space suffix. */
  lemma TrimIsMiddle(s: string)
    ensures TrimOffset(s) + |Trim(s)| <= |s|
    ensures Trim(s) == s[TrimOffset(s)..TrimOffset(s) + |Trim(s)|]
    ensures AllSpace(s[TrimOffset(s) + |Trim(s)|..])
  {
    TrimIsSlice(s);
    TrimLeavesSpaceAfter(s);
  }

  lemma TrimIsSlice(s: string)
    ensures TrimOffset(s) + |Trim(s)| <= |s|
    ensures Trim(s) == s[TrimOffset(s)..TrimOffset(s) + |Trim(s)|]
  {
    PrefixOfSuffix(s, TrimStart(s), Trim(s), TrimOffset(s));
  }

  lemma TrimLeavesSpaceAfter(s: string)
    ensures TrimOffset(s) + |Trim(s)| <= |s|
    ensures AllSpace(s[TrimOffset(s) + |Trim(s)|..])
  {
    PrefixOfSuffix(s, TrimStart(s), Trim(s), TrimOffset(s));
  }

  lemma PrefixOfSuffix(s: string, t: string, r: string, i: nat)
    requires i <= |s| && t == s[i..] && |r| <= |t| && r == t[..|r|]
    ensures r == s[i..i + |r|] && t[|r|..] == s[i + |r|..]
  {
  }

  /** A string that neither starts nor ends with space is its own trim. */
  lemma TrimUntouched(s: string)
    requires s == [] || (!IsJsSpace(s[0]) && !IsJsSpace(s[|s| - 1]))
    ensures Trim(s) == s
  {
    assert TrimStart(s) == s;
    assert TrimEnd(s) == s;
  }

  /** ASCII part of `toLowerCase`. */
  function LowerChar(c: char): (d: char)
    ensures !('A' <= d <= 'Z')
    ensures IsJsSpace(d) <==> IsJsSpace(c)
    ensures IsDigit(d) <==> IsDigit(c)
  {
    if 'A' <= c <= 'Z' then (c as int + 32) as char else c
  }

  /** `s.toLowerCase()` restricted to ASCII letters: the result has no
      upper-case letter, each upper-case letter of `s` became the matching
      lower-case one, and every other character is kept where it was. */
  function ToLowerAscii(s: string): (r: string)
    ensures |r| == |s|
    ensures forall i :: 0 <= i < |r| ==> !('A' <= r[i] <= 'Z')
    ensures forall i :: 0 <= i < |s| && !('A' <= s[i] <= 'Z') ==> r[i] == s[i]
    ensures forall i :: 0 <= i < |s| && 'A' <= s[i] <= 'Z' ==> r[i] as int - s[i] as int == 'a' as int - 'A' as int
  {
    seq(|s|, i requires 0 <= i < |s| => LowerChar(s[i]))
  }

  /** Lowercasing a lowercased string changes nothing. */
  lemma ToLowerIdempotent(s: string)
    ensures ToLowerAscii(ToLowerAscii(s)) == ToLowerAscii(s)
  {
    var r := ToLowerAscii(s);
    assert forall i :: 0 <= i < |r| ==> ToLowerAscii(r)[i] == r[i];
  }

  /** Lowercasing keeps whitespace where it is, so an all-whitespace string
      stays all whitespace, and a string without whitespace gains none. */
  lemma LowerKeepsSpaces(s: string)
    ensures forall i :: 0 <= i < |s| ==> (IsJsSpace(ToLowerAscii(s)[i]) <==> IsJsSpace(s[i]))
    ensures AllSpace(ToLowerAscii(s)) <==> AllSpace(s)
  {
    var r := ToLowerAscii(s);
    assert forall i :: 0 <= i < |s| ==> r[i] == LowerChar(s[i]);
    if AllSpace(s) {
      assert forall i :: 0 <= i < |r| ==> IsJsSpace(r[i]);
    }
    if AllSpace(r) {
      assert forall i :: 0 <= i < |s| ==> IsJsSpace(s[i]);
    }
  }

  /** `s.includes(t)`: `t` occurs in `s` at some position (the empty string
      occurs everywhere). */
  predicate Contains(s: string, t: string)
    decreases |s|
  {
    t <= s || (s != [] && Contains(s[1..], t))
  }

  /** `t` occurs in `s` starting at position `i`. */
  predicate OccursAt(s: string, t: string, i: nat) {
    i + |t| <= |s| && s[i..i + |t|] == t
  }

  /** An occurrence at any position makes `includes` true. */
  lemma {:induction false} OccursAtContains(s: string, t: string, i: nat)
    requires OccursAt(s, t, i)
    ensures Contains(s, t)
    decreases i
  {
    if i == 0 {
      assert s[..|t|] == t;
    } else {
      assert s[1..][i - 1..i - 1 + |t|] == s[i..i + |t|];
      OccursAtContains(s[1..], t, i - 1);
    }
  }

  /** `includes` is true only through an occurrence at some position. */
  lemma {:induction false} ContainsOccurs(s: string, t: string) returns (i: nat)
    requires Contains(s, t)
    ensures OccursAt(s, t, i)
    decreases |s|
  {
    if t <= s {
      i := 0;
      assert s[..|t|] == t;
    } else {
      var j := ContainsOccurs(s[1..], t);
      assert s[1..][j..j + |t|] == s[j + 1..j + 1 + |t|];
      i := j + 1;
    }
  }

  /** An occurrence in the tail of a concatenation is an occurrence in the
      whole. */
  lemma ContainsInSuffix(p: string, s: string, t: string)
    requires Contains(s, t)
    ensures Contains(p + s, t)
  {
    var i := ContainsOccurs(s, t);
    assert (p + s)[|p| + i..|p| + i + |t|] == s[i..i + |t|];
    OccursAtContains(p + s, t, |p| + i);
  }

  /** No occurrence of `t` can start inside `p` when every position of `p`
      mismatches `t` within its first two characters. */
  ghost predicate NoStartIn(p: string, t: string) {
    |t| >= 2 && forall i :: 0 <= i < |p| ==> MismatchNear(p, t, i)
  }

  ghost predicate MismatchNear(p: string, t: string, i: nat)
    requires |t| >= 2 && i < |p|
  {
    p[i] != t[0] || (i + 1 < |p| && p[i + 1] != t[1])
  }

  /** When no occurrence of `t` can start inside `p`, `p + s` contains `t`
      exactly when `s` does. */
  lemma {:induction false} ContainsAfter(p: string, s: string, t: string)
    requires NoStartIn(p, t)
    ensures Contains(p + s, t) <==> Contains(s, t)
    decreases |p|
  {
    if p == [] {
      assert p + s == s;
    } else {
      assert MismatchNear(p, t, 0);
      assert (p + s)[0] == p[0];
      if 1 < |p| {
        assert (p + s)[1] == p[1];
      }
      assert !(t <= p + s);
      assert (p + s)[1..] == p[1..] + s;
      assert NoStartIn(p[1..], t) by {
        forall i | 0 <= i < |p[1..]|
          ensures MismatchNear(p[1..], t, i)
        {
          assert p[1..][i] == p[i + 1];
          assert MismatchNear(p, t, i + 1);
          if i + 1 < |p[1..]| {
            assert p[1..][i + 1] == p[i + 2];
          }
        }
      }
      ContainsAfter(p[1..], s, t);
    }
  }

  function DigitChar(d: nat): (c: char)
    requires d < 10
    ensures IsDigit(c)
  {
    ('0' as int + d) as char
  }

  function DigitValue(c: char): (d: nat)
    requires IsDigit(c)
    ensures d < 10 && DigitChar(d) == c
  {
    (c as int - '0' as int)
  }

  /** `${n}` for a non-negative integer: its decimal digits, most
      significant first, without leading zeros. */
  function DecimalString(n: nat): (r: string)
    ensures |r| >= 1
    ensures forall i :: 0 <= i < |r| ==> IsDigit(r[i])
    ensures r[0] == '0' ==> n == 0
  {
    if n < 10 then [DigitChar(n)] else DecimalString(n / 10) + [DigitChar(n % 10)]
  }

  /** The value of a string of decimal digits. */
  function DecimalValue(s: string): nat
    requires forall i :: 0 <= i < |s| ==> IsDigit(s[i])
  {
    if s == [] then 0 else DecimalValue(s[..|s| - 1]) * 10 + DigitValue(s[|s| - 1])
  }

  /** Reading back the digits of a status code gives the status code. */
  lemma {:induction false} DecimalRoundTrip(n: nat)
    ensures DecimalValue(DecimalString(n)) == n
  {
    var r := DecimalString(n);
    if n < 10 {
      assert r[..0] == [];
    } else {
      DecimalRoundTrip(n / 10);
      assert r[..|r| - 1] == DecimalString(n / 10);
    }
  }

  /** A three-digit number is written with exactly three digits. */
  lemma ThreeDigits(n: nat)
    requires 100 <= n <= 999
    ensures DecimalString(n) == [DigitChar(n / 100), DigitChar(n / 10 % 10), DigitChar(n % 10)]
  {
    assert DecimalString(n / 100) == [DigitChar(n / 100)];
    assert n / 10 / 10 == n / 100;
    assert DecimalString(n / 10) == [DigitChar(n / 100), DigitChar(n / 10 % 10)];
  }

  /** `s.split(sep)` for a one-character separator. */
  function Split(s: string, sep: char): (parts: seq<string>)
    ensures |parts| >= 1
    ensures forall k :: 0 <= k < |parts| ==> sep !in parts[k]
    decreases |s|
  {
    if s == [] then [""]
    else
      var rest := Split(s[1..], sep);
      if s[0] == sep then [""] + rest
      else [[s[0]] + rest[0]] + rest[1..]
  }

  /** A string without the separator splits into itself. */
  lemma {:induction false} SplitWithout(s: string, sep: char)
    requires sep !in s
    ensures Split(s, sep) == [s]
    decreases |s|
  {
    if s != [] {
      assert s[0] in s;
      assert forall c :: c in s[1..] ==> c in s;
      SplitWithout(s[1..], sep);
      assert [s[0]] + s[1..] == s;
    }
  }

  /** The first part of a split ends at the first separator. */
  lemma {:induction false} SplitAtFirst(a: string, b: string, sep: char)
    requires sep !in a
    ensures Split(a + [sep] + b, sep) == [a] + Split(b, sep)
    decreases |a|
  {
    var s := a + [sep] + b;
    if a == [] {
      assert s[0] == sep && s[1..] == b;
    } else {
      assert a[0] in a;
      assert forall c :: c in a[1..] ==> c in a;
      assert s[0] == a[0] && s[1..] == a[1..] + [sep] + b;
      SplitAtFirst(a[1..], b, sep);
      assert [a[0]] + a[1..] == a;
    }
  }

  /** `parts.join(sep)`. */
  function Join(parts: seq<string>, sep: char): string
    requires |parts| >= 1
  {
    if |parts| == 1 then parts[0] else parts[0] + [sep] + Join(parts[1..], sep)
  }

  /** Splitting and joining again on the same separator gives back the
      original string. */
  lemma {:induction false} SplitJoin(s: string, sep: char)
    ensures Join(Split(s, sep), sep) == s
    decreases |s|
  {
    if s != [] {
      var rest := Split(s[1..], sep);
      SplitJoin(s[1..], sep);
      if s[0] == sep {
        assert Split(s, sep) == [""] + rest;
        assert ([""] + rest)[1..] == rest;
      } else {
        var parts := Split(s, sep);
        assert parts == [[s[0]] + rest[0]] + rest[1..];
        if |rest| == 1 {
          assert Join(parts, sep) == [s[0]] + rest[0];
        } else {
          assert parts[1..] == rest[1..];
          assert Join(rest, sep) == rest[0] + [sep] + Join(rest[1..], sep);
        }
        assert s == [s[0]] + s[1..];
      }
    }
  }
}
