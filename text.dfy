/**
  String operations of the JavaScript runtime that the handlers rely on:
  `String.prototype.trim`, `split` on one character, and the regular
  expressions the code tests strings against. The email, password and UK
  postcode patterns are each given twice: their meaning as a ghost predicate
  that reads like the pattern, and a decision procedure the model runs, with a
  lemma that the two agree. The US ZIP code and phone patterns are simple
  enough to be read directly as a predicate, which is used as it stands.
*/
module Text {

  /** ECMAScript WhiteSpace and LineTerminator: the class `\s`, and what `trim` removes. */
  predicate IsSpace(c: char) {
    || c == ' ' || c == '\t' || c == '\n' || c == '\U{B}' || c == '\U{C}' || c == '\r'
    || c == '\U{A0}' || c == '\U{1680}' || ('\U{2000}' <= c <= '\U{200A}')
    || c == '\U{2028}' || c == '\U{2029}' || c == '\U{202F}' || c == '\U{205F}'
    || c == '\U{3000}' || c == '\U{FEFF}'
  }

  /** The code points that `.` does not match when a pattern has no `s` flag. */
  predicate IsLineTerminator(c: char) {
    c == '\n' || c == '\r' || c == '\U{2028}' || c == '\U{2029}'
  }

  /** `\d` (and `[0-9]`). */
  predicate IsDigit(c: char) {
    '0' <= c <= '9'
  }

  /** `[A-Z]` without the `i` flag. */
  predicate IsUpper(c: char) {
    'A' <= c <= 'Z'
  }

  /** `[A-Z]` under the `i` flag. */
  predicate IsLetter(c: char) {
    'A' <= c <= 'Z' || 'a' <= c <= 'z'
  }

  /** `[A-Z0-9]` under the `i` flag. */
  predicate IsAlnum(c: char) {
    IsLetter(c) || IsDigit(c)
  }

  /** `\w`. */
  predicate IsWordChar(c: char) {
    IsAlnum(c) || c == '_'
  }

  predicate AllSpace(s: string) {
    forall k :: 0 <= k < |s| ==> IsSpace(s[k])
  }

  predicate AllDigits(s: string) {
    forall k :: 0 <= k < |s| ==> IsDigit(s[k])
  }

  predicate NoSpace(s: string) {
    forall k :: 0 <= k < |s| ==> !IsSpace(s[k])
  }

  // ---------------------------------------------------------------------------
  // trim

  function TrimStart(s: string): (r: string)
    ensures |r| <= |s| && r == s[|s| - |r|..]
    ensures AllSpace(s[..|s| - |r|])
    ensures r == [] || !IsSpace(r[0])
  {
    if s != [] && IsSpace(s[0]) then TrimStart(s[1..]) else s
  }

  function TrimEnd(s: string): (r: string)
    ensures |r| <= |s| && r == s[..|r|]
    ensures AllSpace(s[|r|..])
    ensures r == [] || !IsSpace(r[|r| - 1])
  {
    if s != [] && IsSpace(s[|s| - 1]) then TrimEnd(s[..|s| - 1]) else s
  }

  /** `s.trim()`: the result neither starts nor ends with white space. */
  function Trim(s: string): (r: string)
    ensures |r| <= |s|
    ensures r == [] || (!IsSpace(r[0]) && !IsSpace(r[|r| - 1]))
  {
    TrimEnd(TrimStart(s))
  }

  /** What `trim` keeps is a slice of `s`, and everything cut off on either side is white space. */
  lemma TrimIsSlice(s: string)
    ensures exists i :: 0 <= i <= |s| - |Trim(s)| && Trim(s) == s[i..i + |Trim(s)|]
                        && AllSpace(s[..i]) && AllSpace(s[i + |Trim(s)|..])
  {
    TrimmedBothEnds(s, TrimStart(s), Trim(s));
  }

  /** Cutting white space off the front and then off the back leaves a slice with only white space around it. */
  lemma TrimmedBothEnds(s: string, t: string, r: string)
    requires |t| <= |s| && t == s[|s| - |t|..] && AllSpace(s[..|s| - |t|])
    requires |r| <= |t| && r == t[..|r|] && AllSpace(t[|r|..])
    ensures exists i :: 0 <= i <= |s| - |r| && r == s[i..i + |r|] && AllSpace(s[..i]) && AllSpace(s[i + |r|..])
  {
    var i := |s| - |t|;
    assert t[..|r|] == s[i..i + |r|] && t[|r|..] == s[i + |r|..];
  }

  /** A string that mongoose's `required` refuses once `trim` has run. */
  predicate Blank(s: string) {
    Trim(s) == []
  }

  lemma BlankIffAllSpace(s: string)
    ensures Blank(s) <==> AllSpace(s)
  {
    var t := TrimStart(s);
    if Blank(s) {
      assert TrimEnd(t) == [];
      assert t == [];
      assert s[..|s|] == s;
    }
  }

  // ---------------------------------------------------------------------------
  // split and join on one character

  /** `s.split(sep)` for a one-character separator: the pieces between separators, at least one. */
  function Split(s: string, sep: char): (parts: seq<string>)
    ensures |parts| >= 1
    ensures forall i :: 0 <= i < |parts| ==> sep !in parts[i]
  {
    if s == [] then [[]]
    else
      var rest := Split(s[1..], sep);
      if s[0] == sep then [[]] + rest
      else [[s[0]] + rest[0]] + rest[1..]
  }

  /** `parts.join(sep)`. */
  function Join(parts: seq<string>, sep: char): string
    requires |parts| >= 1
  {
    if |parts| == 1 then parts[0] else parts[0] + [sep] + Join(parts[1..], sep)
  }

  /** Splitting loses nothing: joining the pieces gives the string back. */
  lemma {:induction false} JoinSplit(s: string, sep: char)
    ensures Join(Split(s, sep), sep) == s
  {
    if s != [] {
      var rest := Split(s[1..], sep);
      JoinSplit(s[1..], sep);
      if s[0] != sep {
        var parts := Split(s, sep);
        assert parts[1..] == rest[1..];
        if |rest| == 1 {
          assert Join(parts, sep) == [s[0]] + rest[0];
        } else {
          assert Join(rest, sep) == rest[0] + [sep] + Join(rest[1..], sep);
          assert Join(parts, sep) == [s[0]] + rest[0] + [sep] + Join(rest[1..], sep);
        }
      }
    }
  }

  /** The piece before the first separator comes off first. */
  lemma {:induction false} SplitAtFirst(a: string, sep: char, b: string)
    requires sep !in a
    ensures Split(a + [sep] + b, sep) == [a] + Split(b, sep)
  {
    if a == [] {
      assert a + [sep] + b == [sep] + b;
      assert ([sep] + b)[1..] == b;
    } else {
      assert (a + [sep] + b)[1..] == a[1..] + [sep] + b;
      SplitAtFirst(a[1..], sep, b);
      assert [a[0]] + a[1..] == a;
    }
  }

  /** A string without the separator is one piece. */
  lemma {:induction false} SplitWithoutSep(s: string, sep: char)
    requires sep !in s
    ensures Split(s, sep) == [s]
  {
    if s != [] {
      SplitWithoutSep(s[1..], sep);
      assert [s[0]] + s[1..] == s;
    }
  }

  /** Joining pieces that hold no separator and splitting again gives the pieces back. */
  lemma {:induction false} SplitJoin(parts: seq<string>, sep: char)
    requires |parts| >= 1
    requires forall i :: 0 <= i < |parts| ==> sep !in parts[i]
    ensures Split(Join(parts, sep), sep) == parts
  {
    if |parts| == 1 {
      SplitWithoutSep(parts[0], sep);
    } else {
      SplitJoin(parts[1..], sep);
      SplitAtFirst(parts[0], sep, Join(parts[1..], sep));
      assert [parts[0]] + parts[1..] == parts;
    }
  }

  // ---------------------------------------------------------------------------
  // /^[^\s@]+@[^\s@]+\.[^\s@]+$/

  /** `[^\s@]+`: a non-empty run without white space and without '@'. */
  predicate Plain(t: string) {
    t != [] && forall k :: 0 <= k < |t| ==> !IsSpace(t[k]) && t[k] != '@'
  }

  /** What the email pattern matches: `a@b.c` with `a`, `b`, `c` non-empty runs of `[^\s@]`. */
  ghost predicate EmailPattern(s: string) {
    exists i, j :: 0 < i && i + 1 < j && j + 1 < |s| && s[i] == '@' && s[j] == '.'
                   && Plain(s[..i]) && Plain(s[i + 1..j]) && Plain(s[j + 1..])
  }

  /**
    The decision procedure: no white space, exactly one '@' with something
    before it, and a '.' strictly inside the part after it.
  */
  predicate EmailShaped(s: string) {
    var parts := Split(s, '@');
    && NoSpace(s)
    && |parts| == 2
    && parts[0] != []
    && exists k :: 0 < k < |parts[1]| - 1 && parts[1][k] == '.'
  }

  lemma EmailShapedIffPattern(s: string)
    ensures EmailShaped(s) <==> EmailPattern(s)
  {
    if EmailPattern(s) {
      var i, j :| 0 < i && i + 1 < j && j + 1 < |s| && s[i] == '@' && s[j] == '.'
                  && Plain(s[..i]) && Plain(s[i + 1..j]) && Plain(s[j + 1..]);
      PatternIsShaped(s, i, j);
    }
    if EmailShaped(s) {
      ShapedIsPattern(s);
    }
  }

  lemma PatternIsShaped(s: string, i: int, j: int)
    requires 0 < i && i + 1 < j && j + 1 < |s| && s[i] == '@' && s[j] == '.'
    requires Plain(s[..i]) && Plain(s[i + 1..j]) && Plain(s[j + 1..])
    ensures EmailShaped(s)
  {
    assert s == s[..i] + ['@'] + (s[i + 1..j] + ['.'] + s[j + 1..]);
    PlainPartsShaped(s[..i], s[i + 1..j], s[j + 1..]);
  }

  lemma PlainPartsShaped(a: string, b: string, c: string)
    requires Plain(a) && Plain(b) && Plain(c)
    ensures EmailShaped(a + ['@'] + (b + ['.'] + c))
  {
    var d := b + ['.'] + c;
    PlainFacts(a);
    PlainFacts(b);
    PlainFacts(c);
    NoSpaceConcat(b, ['.']);
    NoSpaceConcat(b + ['.'], c);
    NoSpaceConcat(a, ['@']);
    NoSpaceConcat(a + ['@'], d);
    SplitAtFirst(a, '@', d);
    SplitWithoutSep(d, '@');
    var parts := Split(a + ['@'] + d, '@');
    assert parts == [a, d];
    assert 0 < |b| < |parts[1]| - 1 && parts[1][|b|] == '.';
  }

  lemma PlainFacts(t: string)
    requires Plain(t)
    ensures t != [] && '@' !in t && NoSpace(t)
  {
    assert forall k :: 0 <= k < |t| ==> t[k] != '@';
  }

  lemma NoSpaceConcat(x: string, y: string)
    ensures NoSpace(x + y) <==> NoSpace(x) && NoSpace(y)
  {
    assert forall k :: 0 <= k < |x| ==> (x + y)[k] == x[k];
    assert forall k :: 0 <= k < |y| ==> (x + y)[|x| + k] == y[k];
    if NoSpace(x) && NoSpace(y) {
      forall k | 0 <= k < |x + y|
        ensures !IsSpace((x + y)[k])
      {
        if k >= |x| {
          assert (x + y)[k] == y[k - |x|];
        }
      }
    }
  }

  lemma ShapedIsPattern(s: string)
    requires EmailShaped(s)
    ensures EmailPattern(s)
  {
    var parts := Split(s, '@');
    var a, d := parts[0], parts[1];
    var k :| 0 < k < |d| - 1 && d[k] == '.';
    JoinSplit(s, '@');
    assert s == a + ['@'] + d;
    var i := |a|;
    var j := i + 1 + k;
    assert s[..i] == a;
    assert s[i + 1..j] == d[..k];
    assert s[j + 1..] == d[k + 1..];
    assert s[i] == '@' && s[j] == '.';
    assert Plain(s[..i]);
    assert Plain(s[i + 1..j]);
    assert Plain(s[j + 1..]);
  }

  // ---------------------------------------------------------------------------
  // /^(?=.*[A-Z])(?=.*\d).{8,}$/

  predicate NoLineTerminator(s: string) {
    forall k :: 0 <= k < |s| ==> !IsLineTerminator(s[k])
  }

  /**
    What the password pattern matches: each look-ahead finds its character
    after a run of `.` (no line terminator), and the whole string is at least
    eight `.` characters.
  */
  ghost predicate PasswordPattern(s: string) {
    && (exists k :: 0 <= k < |s| && IsUpper(s[k]) && NoLineTerminator(s[..k]))
    && (exists k :: 0 <= k < |s| && IsDigit(s[k]) && NoLineTerminator(s[..k]))
    && |s| >= 8 && NoLineTerminator(s)
  }

  /** The decision procedure: long enough, one line, an upper-case letter and a digit somewhere. */
  predicate PasswordShaped(s: string) {
    && |s| >= 8
    && NoLineTerminator(s)
    && (exists k :: 0 <= k < |s| && IsUpper(s[k]))
    && (exists k :: 0 <= k < |s| && IsDigit(s[k]))
  }

  lemma PasswordShapedIffPattern(s: string)
    ensures PasswordShaped(s) <==> PasswordPattern(s)
  {
    if PasswordShaped(s) {
      var u :| 0 <= u < |s| && IsUpper(s[u]);
      var d :| 0 <= d < |s| && IsDigit(s[d]);
      assert NoLineTerminator(s[..u]);
      assert NoLineTerminator(s[..d]);
    }
  }

  // ---------------------------------------------------------------------------
  // /^[A-Z]{1,2}[0-9][A-Z0-9]? ?[0-9][A-Z]{2}$/i

  /**
    One way through the UK postcode pattern: `area` letters (1 or 2), a digit,
    `opt` alphanumerics (0 or 1), `gap` spaces (0 or 1), a digit, two letters.
  */
  ghost predicate UkPostcodeAs(s: string, area: int, opt: int, gap: int) {
    && 1 <= area <= 2 && 0 <= opt <= 1 && 0 <= gap <= 1
    && |s| == area + 1 + opt + gap + 3
    && (forall k :: 0 <= k < area ==> IsLetter(s[k]))
    && IsDigit(s[area])
    && (opt == 1 ==> IsAlnum(s[area + 1]))
    && (gap == 1 ==> s[area + 1 + opt] == ' ')
    && IsDigit(s[|s| - 3]) && IsLetter(s[|s| - 2]) && IsLetter(s[|s| - 1])
  }

  ghost predicate UkPostcodePattern(s: string) {
    exists area, opt, gap :: UkPostcodeAs(s, area, opt, gap)
  }

  /** The outward code of a UK postcode: `[A-Z]{1,2}[0-9][A-Z0-9]?`. */
  predicate OutwardCode(h: string) {
    || (|h| == 2 && IsLetter(h[0]) && IsDigit(h[1]))
    || (|h| == 3 && IsLetter(h[0]) && ((IsLetter(h[1]) && IsDigit(h[2])) || (IsDigit(h[1]) && IsAlnum(h[2]))))
    || (|h| == 4 && IsLetter(h[0]) && IsLetter(h[1]) && IsDigit(h[2]) && IsAlnum(h[3]))
  }

  /**
    The decision procedure, read from the end: the inward code (digit, two
    letters), an optional space, and an outward code before it.
  */
  predicate UkPostcode(s: string) {
    && |s| >= 5
    && IsDigit(s[|s| - 3]) && IsLetter(s[|s| - 2]) && IsLetter(s[|s| - 1])
    && OutwardCode(if s[|s| - 4] == ' ' then s[..|s| - 4] else s[..|s| - 3])
  }

  lemma UkPostcodeIffPattern(s: string)
    ensures UkPostcode(s) <==> UkPostcodePattern(s)
  {
    if UkPostcodePattern(s) {
      var area, opt, gap :| UkPostcodeAs(s, area, opt, gap);
      var h := s[..area + 1 + opt];
      assert gap == 1 <==> s[|s| - 4] == ' ' by {
        if gap == 0 {
          if opt == 1 { assert s[|s| - 4] == s[area + 1]; }
          else { assert s[|s| - 4] == s[area]; }
        }
      }
      assert (if s[|s| - 4] == ' ' then s[..|s| - 4] else s[..|s| - 3]) == h;
      assert OutwardCode(h);
    }
    if UkPostcode(s) {
      var gap := if s[|s| - 4] == ' ' then 1 else 0;
      var h := if gap == 1 then s[..|s| - 4] else s[..|s| - 3];
      assert forall k :: 0 <= k < |h| ==> h[k] == s[k];
      if |h| == 2 {
        assert UkPostcodeAs(s, 1, 0, gap);
      } else if |h| == 3 && IsLetter(h[1]) && IsDigit(h[2]) {
        assert UkPostcodeAs(s, 2, 0, gap);
      } else if |h| == 3 {
        assert UkPostcodeAs(s, 1, 1, gap);
      } else {
        assert UkPostcodeAs(s, 2, 1, gap);
      }
    }
  }

  // ---------------------------------------------------------------------------
  // /^\d{5}(-\d{4})?$/ and the phone pattern

  /** A US ZIP code: five digits, optionally a dash and four more. */
  predicate UsZip(s: string) {
    || (|s| == 5 && AllDigits(s))
    || (|s| == 10 && AllDigits(s[..5]) && s[5] == '-' && AllDigits(s[6..]))
  }

  /** `/^(?:\+[1-9]\d{1,14}|[0-9]\d{9,14})$/`: international or local digits. */
  predicate PhoneShaped(s: string) {
    || (3 <= |s| <= 16 && s[0] == '+' && '1' <= s[1] <= '9' && AllDigits(s[2..]))
    || (10 <= |s| <= 15 && AllDigits(s))
  }

  // ---------------------------------------------------------------------------
  // decimal digits

  function DigitChar(d: nat): (c: char)
    requires d < 10
    ensures IsDigit(c)
  {
    ('0' as int + d) as char
  }

  function DigitValue(c: char): nat
    requires IsDigit(c)
  {
    c as int - '0' as int
  }

  /** `n.toString()` for a non-negative integer. */
  function DecimalString(n: nat): (r: string)
    ensures |r| >= 1 && AllDigits(r)
  {
    if n < 10 then [DigitChar(n)] else DecimalString(n / 10) + [DigitChar(n % 10)]
  }

  /** The number a string of decimal digits denotes (leading zeros allowed). */
  function DigitsValue(s: string): nat
    requires AllDigits(s)
  {
    if s == [] then 0 else DigitsValue(s[..|s| - 1]) * 10 + DigitValue(s[|s| - 1])
  }

  lemma {:induction false} DecimalRoundTrip(n: nat)
    ensures DigitsValue(DecimalString(n)) == n
  {
    if n >= 10 {
      DecimalRoundTrip(n / 10);
      var s := DecimalString(n);
      assert s[..|s| - 1] == DecimalString(n / 10);
    }
  }

  /** Numbers below 10^4 have at most four digits. */
  lemma {:induction false} DecimalLength(n: nat)
    ensures n < 10 ==> |DecimalString(n)| == 1
    ensures n < 100 ==> |DecimalString(n)| <= 2
    ensures n < 1000 ==> |DecimalString(n)| <= 3
    ensures n < 10000 ==> |DecimalString(n)| <= 4
  {
    if n >= 10 {
      DecimalLength(n / 10);
    }
  }

  /** Leading zeros do not change the value. */
  lemma {:induction false} LeadingZeros(z: nat, s: string)
    requires AllDigits(s)
    ensures AllDigits(seq(z, _ => '0') + s)
    ensures DigitsValue(seq(z, _ => '0') + s) == DigitsValue(s)
  {
    var p := seq(z, _ => '0') + s;
    if s == [] {
      assert p == seq(z, _ => '0');
      if z > 0 {
        LeadingZeros(z - 1, []);
        assert p[..|p| - 1] == seq(z - 1, _ => '0') + [];
      }
    } else {
      LeadingZeros(z, s[..|s| - 1]);
      assert p[..|p| - 1] == seq(z, _ => '0') + s[..|s| - 1];
    }
  }

  /** `s.padStart(width, c)`. */
  function PadStart(s: string, width: nat, c: char): (r: string)
    ensures |r| == if |s| >= width then |s| else width
    ensures r[|r| - |s|..] == s
    ensures forall k :: 0 <= k < |r| - |s| ==> r[k] == c
  {
    if |s| >= width then s else seq(width - |s|, _ => c) + s
  }
}
