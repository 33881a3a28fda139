/** The string operations the two bots borrow from JavaScript: `toLowerCase` (ASCII part),
    `includes`, the `\s` character class, `split` on one character, `parseInt` with no
    radix, and the decimal rendering of a number inside a template literal. */
module Text {
  import opened Wrappers

  // ---------------------------------------------------------------------------
  // Lower-casing
  // ---------------------------------------------------------------------------

  /** ASCII lower-casing of one character: 'A'..'Z' become 'a'..'z', nothing else changes. */
  function LowerChar(c: char): (d: char)
    ensures 'a' <= d <= 'z' <==> ('a' <= c <= 'z' || 'A' <= c <= 'Z')
    ensures 'A' <= c <= 'Z' ==> d as int == c as int + ('a' as int - 'A' as int)
    ensures !('A' <= c <= 'Z') ==> d == c
  {
    if 'A' <= c <= 'Z' then (c as int + 32) as char else c
  }

  /** `s.toLowerCase()` restricted to ASCII letters. */
  function Lower(s: string): (r: string)
    ensures |r| == |s|
    ensures forall i :: 0 <= i < |s| ==> r[i] == LowerChar(s[i])
  {
    seq(|s|, i requires 0 <= i < |s| => LowerChar(s[i]))
  }

  /** Lower-casing commutes with concatenation. */
  lemma LowerConcat(a: string, b: string)
    ensures Lower(a + b) == Lower(a) + Lower(b)
  {
  }

  // ---------------------------------------------------------------------------
  // Substring search (`String.prototype.includes`)
  // ---------------------------------------------------------------------------

  /** `p` occurs in `s` starting at index `i`. */
  predicate OccursAt(s: string, p: string, i: int) {
    0 <= i && i + |p| <= |s| && s[i..i + |p|] == p
  }

  lemma OccursShift(s: string, p: string)
    requires |s| > 0
    ensures forall i :: 0 <= i ==> (OccursAt(s[1..], p, i) <==> OccursAt(s, p, i + 1))
  {
    forall i | 0 <= i ensures OccursAt(s[1..], p, i) <==> OccursAt(s, p, i + 1) {
      if 0 <= i && i + |p| <= |s| - 1 {
        assert s[1..][i..i + |p|] == s[i + 1..i + 1 + |p|];
      }
    }
  }

  /** `s.includes(p)`, as a left-to-right scan. */
  function Contains(s: string, p: string): (b: bool)
    ensures b <==> exists i :: OccursAt(s, p, i)
    decreases |s|
  {
    if |s| < |p| then false
    else if s[..|p|] == p then assert OccursAt(s, p, 0); true
    else
      OccursShift(s, p);
      assert !OccursAt(s, p, 0);
      assert forall i :: OccursAt(s, p, i) ==> OccursAt(s[1..], p, i - 1);
      Contains(s[1..], p)
  }

  // ---------------------------------------------------------------------------
  // White space (the `\s` class of ECMAScript regular expressions, which is also
  // the white space `parseInt` skips)
  // ---------------------------------------------------------------------------

  /** WhiteSpace or LineTerminator in ECMAScript: tab, line feed, vertical tab, form feed,
      carriage return, the space separators of Unicode category Zs, the line and paragraph
      separators, and the byte order mark. */
  predicate IsJsSpace(c: char) {
    || c == '\t' || c == '\n' || c == '\U{000B}' || c == '\U{000C}' || c == '\r'
    || c == ' ' || c == '\U{00A0}' || c == '\U{1680}'
    || ('\U{2000}' <= c <= '\U{200A}')
    || c == '\U{2028}' || c == '\U{2029}' || c == '\U{202F}' || c == '\U{205F}'
    || c == '\U{3000}' || c == '\U{FEFF}'
  }

  /** Lower-casing never turns a space into a non-space or back. */
  lemma LowerKeepsSpace(c: char)
    ensures IsJsSpace(LowerChar(c)) == IsJsSpace(c)
  {
  }

  /** The string without its leading white space. */
  function TrimStart(s: string): (r: string)
    ensures |r| <= |s| && r == s[|s| - |r|..]
    ensures forall k :: 0 <= k < |s| - |r| ==> IsJsSpace(s[k])
    ensures r == [] || !IsJsSpace(r[0])
    decreases |s|
  {
    if |s| > 0 && IsJsSpace(s[0]) then TrimStart(s[1..]) else s
  }

  // ---------------------------------------------------------------------------
  // `split` on one character and its inverse, `join`
  // ---------------------------------------------------------------------------

  /** `s.split(sep)` for a one-character separator: the pieces between separators, in
      order; the empty string splits into one empty piece. */
  function Split(s: string, sep: char): (parts: seq<string>)
    ensures |parts| >= 1
    ensures forall k :: 0 <= k < |parts| ==> sep !in parts[k]
    decreases |s|
  {
    if s == [] then [""]
    else
      var rest := Split(s[1..], sep);
      if s[0] == sep then [""] + rest
      else [[s[0]] + rest[0]] + rest[1..]
  }

  /** `parts.join(sep)`. */
  function Join(parts: seq<string>, sep: char): string
    requires |parts| >= 1
    decreases |parts|
  {
    if |parts| == 1 then parts[0] else parts[0] + [sep] + Join(parts[1..], sep)
  }

  /** Joining the pieces gives back the string that was split. */
  lemma {:induction false} JoinSplit(s: string, sep: char)
    ensures Join(Split(s, sep), sep) == s
    decreases |s|
  {
    if s != [] {
      var rest := Split(s[1..], sep);
      JoinSplit(s[1..], sep);
      if s[0] == sep {
        assert ([""] + rest)[1..] == rest;
      } else {
        var parts := [[s[0]] + rest[0]] + rest[1..];
        if |rest| == 1 {
          assert rest[0] == s[1..];
          assert parts == [[s[0]] + s[1..]] && [s[0]] + s[1..] == s;
        } else {
          assert parts[1..] == rest[1..];
          assert Join(rest, sep) == rest[0] + [sep] + Join(rest[1..], sep);
        }
      }
    }
  }

  /** Splitting a join of separator-free pieces gives back the pieces. */
  lemma {:induction false} SplitJoin(parts: seq<string>, sep: char)
    requires |parts| >= 1
    requires forall k :: 0 <= k < |parts| ==> sep !in parts[k]
    ensures Split(Join(parts, sep), sep) == parts
    decreases |parts|, |parts[0]|
  {
    var p := parts[0];
    if |parts| == 1 && p == [] {
    } else if p == [] {
      var tail := parts[1..];
      SplitJoin(tail, sep);
      var s := Join(parts, sep);
      assert s == [sep] + Join(tail, sep);
      assert s[1..] == Join(tail, sep);
      assert parts == [""] + tail;
    } else {
      var shorter := [p[1..]] + parts[1..];
      assert forall k :: 1 <= k < |shorter| ==> shorter[k] == parts[k];
      assert p[0] != sep by { assert p[0] in p; }
      SplitJoin(shorter, sep);
      var s := Join(parts, sep);
      if |parts| == 1 {
        assert s == p && s[1..] == p[1..] == Join(shorter, sep);
      } else {
        assert shorter[1..] == parts[1..];
        assert s[1..] == Join(shorter, sep);
      }
      assert s[0] == p[0];
      var rest := Split(s[1..], sep);
      assert rest == shorter;
      assert [p[0]] + p[1..] == p;
      assert [[p[0]] + rest[0]] + rest[1..] == [p] + parts[1..] == parts;
    }
  }

  // ---------------------------------------------------------------------------
  // Digits, `parseInt` and decimal rendering
  // ---------------------------------------------------------------------------

  /** The value of a character as a digit in bases up to 36 ('0'..'9', then 'a'..'z' in
      either case); 36 for anything that is a digit in no base. */
  function DigitValue(c: char): (v: nat)
    ensures v <= 36
    ensures v < 10 <==> '0' <= c <= '9'
  {
    if '0' <= c <= '9' then c as int - '0' as int
    else if 'a' <= c <= 'z' then c as int - 'a' as int + 10
    else if 'A' <= c <= 'Z' then c as int - 'A' as int + 10
    else 36
  }

  /** Length of the longest prefix of `s` made of digits of `base`. */
  function DigitRun(s: string, base: nat): (n: nat)
    ensures n <= |s|
    ensures forall k :: 0 <= k < n ==> DigitValue(s[k]) < base
    ensures n < |s| ==> DigitValue(s[n]) >= base
    decreases |s|
  {
    if |s| > 0 && DigitValue(s[0]) < base then 1 + DigitRun(s[1..], base) else 0
  }

  /** The number a string of digits denotes in `base`, most significant digit first. */
  function ValueOf(ds: string, base: nat): nat
    decreases |ds|
  {
    if ds == [] then 0 else ValueOf(ds[..|ds| - 1], base) * base + DigitValue(ds[|ds| - 1])
  }

  /** The digits part of `parseInt`: a `0x`/`0X` prefix switches to base 16, then the
      longest run of digits is read; no digits at all gives `None` (`NaN`). */
  function ParseDigits(u: string): Option<nat> {
    if |u| >= 2 && u[0] == '0' && (u[1] == 'x' || u[1] == 'X') then
      var n := DigitRun(u[2..], 16);
      if n == 0 then None else Some(ValueOf(u[2..2 + n], 16))
    else
      var n := DigitRun(u, 10);
      if n == 0 then None else Some(ValueOf(u[..n], 10))
  }

  /** `parseInt` after the white space: an optional sign, then the digits. */
  function ParseSigned(t: string): Option<int> {
    if |t| > 0 && t[0] == '-' then
      match ParseDigits(t[1..])
      case Some(v) => Some(-(v as int))
      case None => None
    else
      match ParseDigits(if |t| > 0 && t[0] == '+' then t[1..] else t)
      case Some(v) => Some(v)
      case None => None
  }

  /** `parseInt(s)` with no radix: skip leading white space, take an optional sign, then
      read the digits as `ParseDigits` does. */
  function ParseInt(s: string): Option<int> {
    ParseSigned(TrimStart(s))
  }

  /** A word that, after an optional sign, does not start with a decimal digit (and does
      not start with white space) parses to `NaN`. */
  lemma NoDigitsIsNaN(word: string)
    requires word == [] || !IsJsSpace(word[0])
    requires var u := if |word| > 0 && (word[0] == '-' || word[0] == '+') then word[1..] else word;
             u == [] || !('0' <= u[0] <= '9')
    ensures ParseInt(word) == None
  {
    var u := if |word| > 0 && (word[0] == '-' || word[0] == '+') then word[1..] else word;
    NoDigitsNoValue(u);
    if word != [] {
      TrimStartNonSpace(word);
    }
    assert ParseSigned(word) == None;
  }

  lemma NoDigitsNoValue(u: string)
    requires u == [] || !('0' <= u[0] <= '9')
    ensures ParseDigits(u) == None
  {
    assert DigitRun(u, 10) == 0;
  }

  function DigitChar(d: nat): (c: char)
    requires d < 10
    ensures DigitValue(c) == d
  {
    ('0' as int + d) as char
  }

  /** `${n}` for a natural number: its decimal digits, without leading zeros. */
  function DecimalString(n: nat): string
    decreases n
  {
    if n < 10 then [DigitChar(n)] else DecimalString(n / 10) + [DigitChar(n % 10)]
  }

  predicate AllDecimal(s: string) {
    forall k :: 0 <= k < |s| ==> DigitValue(s[k]) < 10
  }

  /** The rendering is a non-empty run of decimal digits with no leading zero (unless the
      number is 0) that denotes the number again. */
  lemma {:induction false} DecimalStringValue(n: nat)
    ensures |DecimalString(n)| > 0 && AllDecimal(DecimalString(n))
    ensures DecimalString(n)[0] == '0' ==> n == 0 && |DecimalString(n)| == 1
    ensures ValueOf(DecimalString(n), 10) == n
    decreases n
  {
    if n >= 10 {
      var ds := DecimalString(n / 10);
      DecimalStringValue(n / 10);
      var s := ds + [DigitChar(n % 10)];
      assert s[..|s| - 1] == ds;
      assert s[0] == ds[0];
    }
  }

  lemma ParseDigitsDecimal(n: nat, rest: string)
    requires rest == [] || (DigitValue(rest[0]) >= 10 && rest[0] != 'x' && rest[0] != 'X')
    ensures ParseDigits(DecimalString(n) + rest) == Some(n)
  {
    var ds := DecimalString(n);
    DecimalStringValue(n);
    var s := ds + rest;
    assert forall k :: 0 <= k < |ds| ==> s[k] == ds[k];
    assert |ds| < |s| ==> s[|ds|] == rest[0];
    assert DigitRun(s, 10) == |ds|;
    assert s[..|ds|] == ds;
  }

  /** `parseInt` reads back a rendered number, whatever follows it as long as that cannot
      extend the number or turn `0` into a `0x` prefix. */
  lemma ParseDecimal(n: nat, rest: string)
    requires rest == [] || (DigitValue(rest[0]) >= 10 && rest[0] != 'x' && rest[0] != 'X')
    ensures ParseInt(DecimalString(n) + rest) == Some(n)
  {
    var ds := DecimalString(n);
    DecimalStringValue(n);
    var s := ds + rest;
    ParseDigitsDecimal(n, rest);
    assert s[0] == ds[0];
    assert DigitValue(s[0]) < 10;
    ParseUnsigned(s, n);
  }

  /** The same with a minus sign in front. */
  lemma ParseNegativeDecimal(n: nat)
    ensures ParseInt("-" + DecimalString(n)) == Some(-(n as int))
  {
    var ds := DecimalString(n);
    DecimalStringValue(n);
    ParseDigitsDecimal(n, "");
    assert ds + "" == ds;
    assert DigitValue(ds[0]) < 10;
    ParseNegative(ds, n);
  }

  lemma TrimStartNonSpace(s: string)
    requires |s| > 0 && !IsJsSpace(s[0])
    ensures TrimStart(s) == s
  {
  }

  lemma ParseUnsigned(s: string, n: nat)
    requires |s| > 0 && '0' <= s[0] <= '9'
    requires ParseDigits(s) == Some(n)
    ensures ParseInt(s) == Some(n)
  {
    TrimStartNonSpace(s);
    assert ParseSigned(s) == Some(n);
  }

  lemma ParseNegative(s: string, n: nat)
    requires |s| > 0 && '0' <= s[0] <= '9'
    requires ParseDigits(s) == Some(n)
    ensures ParseInt("-" + s) == Some(-(n as int))
  {
    var m := "-" + s;
    TrimStartNonSpace(m);
    assert m[1..] == s;
    assert ParseSigned(m) == Some(-(n as int));
  }
}
