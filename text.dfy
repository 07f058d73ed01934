/** The string operations the features rely on: `trim`, the `\s` class,
    `split`, `.replace(/\s+/g, ' ')`, ASCII lower-casing, decimal and hexadecimal
    digits, and number-to-string conversion.  Strings are sequences of Unicode
    scalar values; JavaScript's are UTF-16 code units, so a character outside
    the Basic Multilingual Plane counts once here and twice there. */
module Text {
  import opened Wrappers

  /** JavaScript's WhiteSpace and LineTerminator characters: what `trim` strips and
      what `\s` matches. */
  const SpaceChars: set<char> := {
    ' ', '\t', '\n', '\r', '\U{000B}', '\U{000C}', '\U{00A0}', '\U{1680}',
    '\U{2000}', '\U{2001}', '\U{2002}', '\U{2003}', '\U{2004}', '\U{2005}',
    '\U{2006}', '\U{2007}', '\U{2008}', '\U{2009}', '\U{200A}',
    '\U{2028}', '\U{2029}', '\U{202F}', '\U{205F}', '\U{3000}', '\U{FEFF}'}

  predicate IsSpace(c: char) {
    c in SpaceChars
  }

  predicate IsDigit(c: char) {
    '0' <= c <= '9'
  }

  predicate AllDigits(s: string) {
    forall i :: 0 <= i < |s| ==> IsDigit(s[i])
  }

  /** `s.trimStart()`. */
  function TrimStart(s: string): (r: string)
    ensures |r| <= |s|
  {
    if s != [] && IsSpace(s[0]) then TrimStart(s[1..]) else s
  }

  /** `s.trimEnd()`. */
  function TrimEnd(s: string): (r: string)
    ensures |r| <= |s|
  {
    if s != [] && IsSpace(s[|s| - 1]) then TrimEnd(s[..|s| - 1]) else s
  }

  /** `s.trim()`. */
  function Trim(s: string): string {
    TrimEnd(TrimStart(s))
  }

  /** `trimStart` drops exactly the leading white space: what remains is a
      suffix that does not start with white space, and all it dropped was white
      space. */
  lemma {:induction false} TrimStartSpec(s: string)
    ensures var r := TrimStart(s);
      && r == s[|s| - |r|..]
      && (r == [] || !IsSpace(r[0]))
      && forall k :: 0 <= k < |s| - |r| ==> IsSpace(s[k])
  {
    if s != [] && IsSpace(s[0]) {
      TrimStartSpec(s[1..]);
    }
  }

  /** `trimEnd` drops exactly the trailing white space. */
  lemma {:induction false} TrimEndSpec(s: string)
    ensures var r := TrimEnd(s);
      && r == s[..|r|]
      && (r == [] || !IsSpace(r[|r| - 1]))
      && forall k :: |r| <= k < |s| ==> IsSpace(s[k])
  {
    if s != [] && IsSpace(s[|s| - 1]) {
      TrimEndSpec(s[..|s| - 1]);
    }
  }

  /** A trimmed string neither starts nor ends with white space. */
  lemma TrimSpec(s: string)
    ensures var r := Trim(s); r == [] || (!IsSpace(r[0]) && !IsSpace(r[|r| - 1]))
  {
    TrimStartSpec(s);
    TrimEndSpec(TrimStart(s));
    var t := TrimStart(s);
    var r := TrimEnd(t);
    if r != [] {
      assert r[0] == t[0];
    }
  }

  /** Trimming a trimmed string changes nothing. */
  lemma TrimIdempotent(s: string)
    ensures Trim(Trim(s)) == Trim(s)
  {
    TrimSpec(s);
    var t := Trim(s);
    if t != [] {
      assert TrimStart(t) == t;
      assert TrimEnd(t) == t;
    }
  }

  predicate AllSpace(s: string) {
    forall i :: 0 <= i < |s| ==> IsSpace(s[i])
  }

  lemma {:induction false} TrimStartPadded(pre: string, t: string)
    requires AllSpace(pre) && (t == [] || !IsSpace(t[0]))
    ensures TrimStart(pre + t) == t
  {
    if pre == [] {
      assert pre + t == t;
    } else {
      assert (pre + t)[1..] == pre[1..] + t;
      TrimStartPadded(pre[1..], t);
    }
  }

  lemma {:induction false} TrimEndPadded(t: string, post: string)
    requires AllSpace(post) && (t == [] || !IsSpace(t[|t| - 1]))
    ensures TrimEnd(t + post) == t
  {
    if post == [] {
      assert t + post == t;
    } else {
      assert (t + post)[..|t + post| - 1] == t + post[..|post| - 1];
      TrimEndPadded(t, post[..|post| - 1]);
    }
  }

  /** Trimming a text padded with white space on both sides gives the text. */
  lemma TrimPadded(pre: string, t: string, post: string)
    requires AllSpace(pre) && AllSpace(post)
    requires t != [] && !IsSpace(t[0]) && !IsSpace(t[|t| - 1])
    ensures Trim(pre + t + post) == t
  {
    assert pre + t + post == pre + (t + post);
    TrimStartPadded(pre, t + post);
    TrimEndPadded(t, post);
  }

  /** `s.replace(/\s+/g, ' ')`: every run of white space becomes one space. */
  function CollapseSpaces(s: string): (r: string)
    ensures |r| <= |s|
    decreases |s|
  {
    if s == [] then []
    else if IsSpace(s[0]) then [' '] + CollapseSpaces(TrimStart(s[1..]))
    else [s[0]] + CollapseSpaces(s[1..])
  }

  /** The characters other than white space, in order. */
  function NonSpace(s: string): string {
    if s == [] then [] else (if IsSpace(s[0]) then [] else [s[0]]) + NonSpace(s[1..])
  }

  lemma {:induction false} NonSpaceOfSpaces(s: string, n: int)
    requires 0 <= n <= |s| && forall k :: 0 <= k < n ==> IsSpace(s[k])
    ensures NonSpace(s) == NonSpace(s[n..])
  {
    if n > 0 {
      NonSpaceOfSpaces(s[1..], n - 1);
      assert s[1..][n - 1..] == s[n..];
    }
  }

  /** Collapsing keeps every other character, in order, and leaves no two spaces
      side by side. */
  lemma {:induction false} CollapseSpacesProperties(s: string)
    ensures NonSpace(CollapseSpaces(s)) == NonSpace(s)
    ensures forall i :: 0 <= i < |CollapseSpaces(s)| - 1 ==>
      !(IsSpace(CollapseSpaces(s)[i]) && IsSpace(CollapseSpaces(s)[i + 1]))
    decreases |s|
  {
    if s != [] {
      if IsSpace(s[0]) {
        var t := TrimStart(s[1..]);
        TrimStartSpec(s[1..]);
        CollapseSpacesProperties(t);
        NonSpaceOfSpaces(s[1..], |s[1..]| - |t|);
        var c := CollapseSpaces(t);
        assert c == [] || !IsSpace(c[0]) by {
          if t != [] {
            assert !IsSpace(t[0]);
          }
        }
        assert CollapseSpaces(s) == [' '] + c;
      } else {
        CollapseSpacesProperties(s[1..]);
        assert CollapseSpaces(s) == [s[0]] + CollapseSpaces(s[1..]);
      }
    }
  }

  /** Trimming and collapsing white space bring in no character the string
      did not have, other than the space. */
  lemma {:induction false} CollapseTrimChars(s: string)
    ensures forall k :: 0 <= k < |CollapseSpaces(Trim(s))| ==>
      CollapseSpaces(Trim(s))[k] == ' ' || CollapseSpaces(Trim(s))[k] in s
  {
    TrimStartSpec(s);
    TrimEndSpec(TrimStart(s));
    var t := Trim(s);
    assert forall c :: c in t ==> c in s;
    CollapseSpacesChars(t);
  }

  lemma {:induction false} CollapseSpacesChars(s: string)
    ensures forall k :: 0 <= k < |CollapseSpaces(s)| ==> CollapseSpaces(s)[k] == ' ' || CollapseSpaces(s)[k] in s
    decreases |s|
  {
    if s != [] {
      if IsSpace(s[0]) {
        var t := TrimStart(s[1..]);
        TrimStartSpec(s[1..]);
        CollapseSpacesChars(t);
        assert forall c :: c in t ==> c in s;
      } else {
        CollapseSpacesChars(s[1..]);
        assert CollapseSpaces(s) == [s[0]] + CollapseSpaces(s[1..]);
      }
    }
  }

  /** `s.split(sep)` for a one-character separator. */
  function Split(s: string, sep: char): (parts: seq<string>)
    ensures |parts| >= 1
    ensures forall i :: 0 <= i < |parts| ==> sep !in parts[i]
  {
    if s == [] then [""]
    else
      var rest := Split(s[1..], sep);
      if s[0] == sep then [""] + rest else [[s[0]] + rest[0]] + rest[1..]
  }

  /** `parts.join(sep)`. */
  function Join(parts: seq<string>, sep: char): string
    requires |parts| >= 1
  {
    if |parts| == 1 then parts[0] else parts[0] + [sep] + Join(parts[1..], sep)
  }

  /** Splitting and joining again gives the original string back. */
  lemma {:induction false} JoinSplit(s: string, sep: char)
    ensures Join(Split(s, sep), sep) == s
  {
    if s != [] {
      var rest := Split(s[1..], sep);
      JoinSplit(s[1..], sep);
      if s[0] != sep {
        var parts := Split(s, sep);
        if |rest| > 1 {
          assert parts[1..] == rest[1..];
        }
      }
    }
  }

  /** Parts free of the separator, once joined, split back into themselves. */
  lemma {:induction false} SplitJoin(parts: seq<string>, sep: char)
    requires |parts| >= 1 && forall i :: 0 <= i < |parts| ==> sep !in parts[i]
    ensures Split(Join(parts, sep), sep) == parts
  {
    if |parts| == 1 {
      SplitWithout(parts[0], [], sep);
      assert parts[0] + [] == parts[0];
    } else {
      SplitJoin(parts[1..], sep);
      SplitWithout(parts[0], [sep] + Join(parts[1..], sep), sep);
      assert parts[0] + [sep] + Join(parts[1..], sep) == parts[0] + ([sep] + Join(parts[1..], sep));
      assert [parts[0]] + parts[1..] == parts;
    }
  }

  /** A separator-free prefix becomes the front of the first part. */
  lemma {:induction false} SplitWithout(a: string, rest: string, sep: char)
    requires sep !in a
    ensures rest == [] ==> Split(a + rest, sep) == [a]
    ensures rest != [] && rest[0] == sep ==> Split(a + rest, sep) == [a] + Split(rest[1..], sep)
  {
    if a == [] {
      assert a + rest == rest;
      if rest != [] && rest[0] == sep {
        assert Split(rest, sep) == [""] + Split(rest[1..], sep);
      }
    } else {
      SplitWithout(a[1..], rest, sep);
      assert (a + rest)[1..] == a[1..] + rest;
      assert (a + rest)[0] == a[0];
      assert [a[0]] + a[1..] == a;
    }
  }

  /** `c.toLowerCase()` on the ASCII letters. */
  function LowerAscii(c: char): (r: char)
    ensures 'A' <= c <= 'Z' ==> 'a' <= r <= 'z'
    ensures !('A' <= c <= 'Z') ==> r == c
  {
    if 'A' <= c <= 'Z' then (c as int - 'A' as int + 'a' as int) as char else c
  }

  function DigitValue(c: char): (v: nat)
    requires IsDigit(c)
    ensures v < 10
  {
    c as int - '0' as int
  }

  function DigitChar(d: nat): (c: char)
    requires d < 10
    ensures IsDigit(c) && DigitValue(c) == d
  {
    ('0' as int + d) as char
  }

  /** The value of a string of decimal digits (`parseInt` on such a string). */
  function DigitsValue(s: string): nat
    requires AllDigits(s)
  {
    if s == [] then 0 else 10 * DigitsValue(s[..|s| - 1]) + DigitValue(s[|s| - 1])
  }

  /** Length of the longest prefix of decimal digits (what `\d+` consumes). */
  function DigitPrefixLen(s: string): (n: nat)
    ensures n <= |s| && AllDigits(s[..n])
    ensures n == |s| || !IsDigit(s[n])
  {
    if s != [] && IsDigit(s[0]) then
      var n := 1 + DigitPrefixLen(s[1..]);
      assert s[..n] == [s[0]] + s[1..][..n - 1];
      n
    else 0
  }

  lemma {:induction false} DigitPrefixLenAppend(a: string, b: string)
    requires AllDigits(a) && (b == [] || !IsDigit(b[0]))
    ensures DigitPrefixLen(a + b) == |a|
  {
    if a != [] {
      assert (a + b)[1..] == a[1..] + b;
      DigitPrefixLenAppend(a[1..], b);
    }
  }

  /** `String(n)` / `${n}` for a whole number: its decimal digits, without
      leading zeros. */
  function NatToString(n: nat): (s: string)
    ensures |s| >= 1 && AllDigits(s)
    ensures |s| > 1 ==> s[0] != '0'
  {
    if n < 10 then [DigitChar(n)] else NatToString(n / 10) + [DigitChar(n % 10)]
  }

  /** Reading the digits back gives the number. */
  lemma {:induction false} NatToStringValue(n: nat)
    ensures DigitsValue(NatToString(n)) == n
  {
    if n >= 10 {
      NatToStringValue(n / 10);
      var s := NatToString(n);
      assert s[..|s| - 1] == NatToString(n / 10);
    }
  }

  /** Different numbers have different decimal strings. */
  lemma NatToStringInjective(m: nat, n: nat)
    requires NatToString(m) == NatToString(n)
    ensures m == n
  {
    NatToStringValue(m);
    NatToStringValue(n);
  }

  /** The number `parseInt` reads at the start of `s` when there is no sign:
      the longest run of digits; `None` stands for NaN. */
  function ParseUnsigned(s: string): Option<nat>
  {
    var n := DigitPrefixLen(s);
    if n == 0 then None else Some(DigitsValue(s[..n]))
  }

  /** Whether `s` starts with the `0x` or `0X` prefix that makes `parseInt`
      without a radix read base 16. */
  predicate HasHexPrefix(s: string) {
    |s| >= 2 && s[0] == '0' && (s[1] == 'x' || s[1] == 'X')
  }

  /** The number `parseInt` reads at the start of `s` after the sign: behind a
      `0x`/`0X` prefix the longest run of hexadecimal digits, otherwise the
      longest run of decimal digits; `None` stands for NaN. */
  function ParseMagnitude(s: string): Option<nat>
  {
    if HasHexPrefix(s) then ParseHex(s[2..]) else ParseUnsigned(s)
  }

  /** `parseInt(s)` without a radix, for a string that has no leading white
      space: an optional sign, then the magnitude read by `ParseMagnitude`. */
  function ParseIntPrefix(s: string): (r: Option<int>)
    ensures r.Some? ==> |s| >= 1
    ensures var rest := if |s| > 0 && (s[0] == '-' || s[0] == '+') then s[1..] else s;
      r.Some? <==> if HasHexPrefix(rest) then |rest| > 2 && IsHexDigit(rest[2])
                   else rest != [] && IsDigit(rest[0])
    ensures r.Some? && s[0] == '-' ==> r.value <= 0
    ensures r.Some? && s[0] != '-' ==> r.value >= 0
  {
    if |s| > 0 && (s[0] == '-' || s[0] == '+') then
      match ParseMagnitude(s[1..])
      case Some(v) => Some(if s[0] == '-' then -(v as int) else v)
      case None => None
    else
      match ParseMagnitude(s)
      case Some(v) => Some(v)
      case None => None
  }

  /** A run of digits followed by something else is read as the run's value. */
  lemma ParseUnsignedOfDigits(digits: string, tail: string)
    requires |digits| >= 1 && AllDigits(digits)
    requires tail == [] || !IsDigit(tail[0])
    ensures ParseUnsigned(digits + tail) == Some(DigitsValue(digits))
  {
    DigitPrefixLenAppend(digits, tail);
    assert (digits + tail)[..|digits|] == digits;
  }

  /** Reading a signed number back, followed by something that is not a digit,
      gives the number. */
  lemma ParseIntPrefixOfSignedNat(c: char, n: nat, tail: string)
    requires c == '-' || c == '+'
    requires tail == [] || (!IsDigit(tail[0]) && tail[0] != 'x' && tail[0] != 'X')
    ensures ParseIntPrefix([c] + NatToString(n) + tail) == Some(if c == '-' then -(n as int) else n)
  {
    var digits := NatToString(n);
    NatToStringValue(n);
    ParseUnsignedOfDigits(digits, tail);
    var rest := digits + tail;
    assert [c] + digits + tail == [c] + rest;
    assert !HasHexPrefix(rest) by {
      if |rest| >= 2 {
        if |digits| == 1 { assert rest[1] == tail[0]; } else { assert rest[1] == digits[1]; }
      }
    }
    ParseIntPrefixSigned(c, rest, n);
  }

  lemma ParseIntPrefixSigned(c: char, s: string, v: nat)
    requires (c == '-' || c == '+') && ParseMagnitude(s) == Some(v)
    ensures ParseIntPrefix([c] + s) == Some(if c == '-' then -(v as int) else v)
  {
    assert ([c] + s)[1..] == s;
  }

  /** Hexadecimal digits, either case (the `[a-f\d]` class under the `i` flag). */
  predicate IsHexDigit(c: char) {
    IsDigit(c) || 'a' <= c <= 'f' || 'A' <= c <= 'F'
  }

  function HexValue(c: char): (v: nat)
    requires IsHexDigit(c)
    ensures v < 16
  {
    if IsDigit(c) then DigitValue(c)
    else if 'a' <= c <= 'f' then c as int - 'a' as int + 10
    else c as int - 'A' as int + 10
  }

  predicate AllHexDigits(s: string) {
    forall i :: 0 <= i < |s| ==> IsHexDigit(s[i])
  }

  /** The value of a string of hexadecimal digits, most significant first. */
  function HexDigitsValue(s: string): nat
    requires AllHexDigits(s)
  {
    if s == [] then 0 else 16 * HexDigitsValue(s[..|s| - 1]) + HexValue(s[|s| - 1])
  }

  /** Length of the longest prefix of hexadecimal digits. */
  function HexPrefixLen(s: string): (n: nat)
    ensures n <= |s| && AllHexDigits(s[..n])
    ensures n == |s| || !IsHexDigit(s[n])
  {
    if s != [] && IsHexDigit(s[0]) then
      var n := 1 + HexPrefixLen(s[1..]);
      assert s[..n] == [s[0]] + s[1..][..n - 1];
      n
    else 0
  }

  /** The number `parseInt` reads behind a `0x` prefix: the longest run of
      hexadecimal digits; `None` stands for NaN. */
  function ParseHex(s: string): Option<nat>
  {
    var n := HexPrefixLen(s);
    if n == 0 then None else Some(HexDigitsValue(s[..n]))
  }

  lemma {:induction false} HexPrefixLenAppend(a: string, b: string)
    requires AllHexDigits(a) && (b == [] || !IsHexDigit(b[0]))
    ensures HexPrefixLen(a + b) == |a|
  {
    if a != [] {
      assert (a + b)[1..] == a[1..] + b;
      HexPrefixLenAppend(a[1..], b);
    } else {
      assert a + b == b;
    }
  }

  lemma ParseHexOfDigits(digits: string, tail: string)
    requires |digits| >= 1 && AllHexDigits(digits)
    requires tail == [] || !IsHexDigit(tail[0])
    ensures ParseHex(digits + tail) == Some(HexDigitsValue(digits))
  {
    HexPrefixLenAppend(digits, tail);
    assert (digits + tail)[..|digits|] == digits;
  }

  /** Behind `0x` or `0X` the number is read in base 16, whatever the sign:
      NaN when no hexadecimal digit follows (not the `0` in front of the
      prefix), otherwise the value of the hexadecimal digits. */
  lemma ParseIntPrefixOfHex(sign: string, x: char, s: string)
    requires sign == "" || sign == "-" || sign == "+"
    requires x == 'x' || x == 'X'
    ensures ParseHex(s).None? ==> ParseIntPrefix(sign + ['0', x] + s).None?
    ensures ParseHex(s).Some? ==>
              ParseIntPrefix(sign + ['0', x] + s)
                == Some(if sign == "-" then -(ParseHex(s).value as int) else ParseHex(s).value)
  {
    var rest := ['0', x] + s;
    assert rest[2..] == s;
    assert ParseMagnitude(rest) == ParseHex(s);
    if sign != "" {
      assert sign + ['0', x] + s == [sign[0]] + rest;
      assert ([sign[0]] + rest)[1..] == rest;
    }
  }
}
