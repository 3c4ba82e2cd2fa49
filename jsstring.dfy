/**
 * The JavaScript string operations the core relies on: String.prototype.trim, split on a
 * one-character separator, and parseInt without a radix (section 19.2.5 of ECMA-262).
 * Strings are sequences of characters.
 */
module JsString {
  import opened Wrappers

  /** The characters ECMA-262 counts as WhiteSpace or LineTerminator. */
  predicate IsWhiteSpace(c: char)
  {
    || c == '\t' || c == '\n' || c == '\U{000B}' || c == '\U{000C}' || c == '\r' || c == ' '
    || c == '\U{00A0}' || c == '\U{1680}' || ('\U{2000}' <= c <= '\U{200A}')
    || c == '\U{2028}' || c == '\U{2029}' || c == '\U{202F}' || c == '\U{205F}' || c == '\U{3000}'
    || c == '\U{FEFF}'
  }

  predicate AllWhiteSpace(s: string)
  {
    forall i :: 0 <= i < |s| ==> IsWhiteSpace(s[i])
  }

  /** The string with its leading white space removed. */
  function TrimStart(s: string): (r: string)
    ensures |r| <= |s| && r == s[|s| - |r|..]
    ensures AllWhiteSpace(s[..|s| - |r|])
    ensures r == [] || !IsWhiteSpace(r[0])
  {
    if |s| > 0 && IsWhiteSpace(s[0]) then
      var r := TrimStart(s[1..]);
      assert s[1..][..|s[1..]| - |r|] == s[1..|s| - |r|];
      assert s[..|s| - |r|] == [s[0]] + s[1..|s| - |r|];
      r
    else s
  }

  /** The string with its trailing white space removed. */
  function TrimEnd(s: string): (r: string)
    ensures |r| <= |s| && r == s[..|r|]
    ensures AllWhiteSpace(s[|r|..])
    ensures r == [] || !IsWhiteSpace(r[|r| - 1])
  {
    if |s| > 0 && IsWhiteSpace(s[|s| - 1]) then
      var r := TrimEnd(s[..|s| - 1]);
      assert s[..|s| - 1][|r|..] == s[|r|..|s| - 1];
      assert s[|r|..] == s[|r|..|s| - 1] + [s[|s| - 1]];
      r
    else s
  }

  /** String.prototype.trim. */
  function Trim(s: string): string
  {
    TrimEnd(TrimStart(s))
  }

  /**
   * trim removes white space and only white space from the two ends: the result is a slice of
   * s that neither starts nor ends with white space, and everything cut off is white space.
   */
  lemma TrimSlice(s: string) returns (a: nat, b: nat)
    ensures a <= b <= |s| && Trim(s) == s[a..b]
    ensures AllWhiteSpace(s[..a]) && AllWhiteSpace(s[b..])
    ensures Trim(s) == [] || (!IsWhiteSpace(Trim(s)[0]) && !IsWhiteSpace(Trim(s)[|Trim(s)| - 1]))
  {
    var t := TrimStart(s);
    var r := TrimEnd(t);
    a, b := CutBothEnds(s, t, r);
  }

  /**
   * Cutting white space off the front of s, leaving t, and then off the back of t, leaving r,
   * leaves a slice of s whose first character is the first of t.
   */
  lemma CutBothEnds(s: string, t: string, r: string) returns (a: nat, b: nat)
    requires |t| <= |s| && t == s[|s| - |t|..] && AllWhiteSpace(s[..|s| - |t|])
    requires |r| <= |t| && r == t[..|r|] && AllWhiteSpace(t[|r|..])
    ensures a <= b <= |s| && r == s[a..b] && AllWhiteSpace(s[..a]) && AllWhiteSpace(s[b..])
    ensures r != [] ==> r[0] == t[0]
  {
    a := |s| - |t|;
    b := a + |r|;
    assert r == s[a..b];
    assert s[b..] == t[|r|..];
  }

  /** trim gives the empty string exactly when the string is all white space. */
  lemma TrimEmptyIffBlank(s: string)
    ensures Trim(s) == [] <==> AllWhiteSpace(s)
  {
    var t := TrimStart(s);
    var a := |s| - |t|;
    if Trim(s) == [] {
      assert t[0..] == t;
      assert AllWhiteSpace(t);
      assert t == [];
      assert s[..a] == s;
    } else {
      var r := Trim(s);
      assert r == t[..|r|] && t == s[a..];
      assert r[0] == s[a];
    }
  }

  /** Trimming twice is trimming once. */
  lemma TrimIdempotent(s: string)
    ensures Trim(Trim(s)) == Trim(s)
  {
    var r := Trim(s);
    var a, b := TrimSlice(s);
    if r != [] {
      assert TrimStart(r) == r;
      assert TrimEnd(r) == r;
    }
  }

  /** s.split(sep) for a one-character separator: the pieces between the separators, in order. */
  function Split(s: string, sep: char): (parts: seq<string>)
    ensures |parts| >= 1
    decreases |s|
  {
    if |s| == 0 then [""]
    else
      var rest := Split(s[1..], sep);
      if s[0] == sep then [""] + rest else [[s[0]] + rest[0]] + rest[1..]
  }

  /** The pieces joined back with the separator, as Array.prototype.join(sep) does. */
  function Join(parts: seq<string>, sep: char): string
    requires |parts| >= 1
  {
    if |parts| == 1 then parts[0] else parts[0] + [sep] + Join(parts[1..], sep)
  }

  /** The number of occurrences of c in s. */
  function Count(s: string, c: char): nat
  {
    if |s| == 0 then 0 else (if s[0] == c then 1 else 0) + Count(s[1..], c)
  }

  /** No piece of a split holds the separator. */
  lemma {:induction false} SplitPiecesFree(s: string, sep: char)
    ensures forall i :: 0 <= i < |Split(s, sep)| ==> sep !in Split(s, sep)[i]
    decreases |s|
  {
    if |s| > 0 {
      SplitPiecesFree(s[1..], sep);
    }
  }

  /** A split has one piece more than there are separators. */
  lemma {:induction false} SplitCount(s: string, sep: char)
    ensures |Split(s, sep)| == Count(s, sep) + 1
    decreases |s|
  {
    if |s| > 0 {
      SplitCount(s[1..], sep);
    }
  }

  /** Joining the pieces of a split with the separator gives the string back. */
  lemma {:induction false} SplitJoin(s: string, sep: char)
    ensures Join(Split(s, sep), sep) == s
    decreases |s|
  {
    if |s| > 0 {
      SplitJoin(s[1..], sep);
      var rest := Split(s[1..], sep);
      if s[0] == sep {
        assert Split(s, sep) == [""] + rest;
        assert s == [sep] + s[1..];
      } else {
        var parts := Split(s, sep);
        assert parts == [[s[0]] + rest[0]] + rest[1..];
        assert parts[1..] == rest[1..];
        if |rest| == 1 {
          assert s == [s[0]] + rest[0];
        } else {
          assert Join(rest, sep) == rest[0] + [sep] + Join(rest[1..], sep);
          assert s == [s[0]] + rest[0] + [sep] + Join(rest[1..], sep);
        }
      }
    }
  }

  /** A piece free of the separator stays one piece, fused with the first piece of what follows. */
  lemma {:induction false} SplitPrefix(a: string, t: string, sep: char)
    requires sep !in a
    ensures Split(a + t, sep) == [a + Split(t, sep)[0]] + Split(t, sep)[1..]
    decreases |a|
  {
    if |a| > 0 {
      assert (a + t)[1..] == a[1..] + t;
      SplitPrefix(a[1..], t, sep);
      assert [a[0]] + (a[1..] + Split(t, sep)[0]) == a + Split(t, sep)[0];
    } else {
      assert a + t == t;
      assert a + Split(t, sep)[0] == Split(t, sep)[0];
      assert Split(t, sep) == [Split(t, sep)[0]] + Split(t, sep)[1..];
    }
  }

  /** Splitting pieces joined with the separator gives the pieces back when none holds the separator. */
  lemma {:induction false} JoinSplit(parts: seq<string>, sep: char)
    requires |parts| >= 1
    requires forall i :: 0 <= i < |parts| ==> sep !in parts[i]
    ensures Split(Join(parts, sep), sep) == parts
    decreases |parts|
  {
    if |parts| == 1 {
      SplitPrefix(parts[0], "", sep);
      assert Split("", sep) == [""];
      assert parts[0] + "" == parts[0];
      assert Split(parts[0], sep) == [parts[0]] + [];
    } else {
      var tail := Join(parts[1..], sep);
      JoinSplit(parts[1..], sep);
      assert parts[0] + [sep] + tail == parts[0] + ([sep] + tail);
      SplitPrefix(parts[0], [sep] + tail, sep);
      assert ([sep] + tail)[1..] == tail;
      assert Split([sep] + tail, sep) == [""] + Split(tail, sep);
      assert parts[0] + "" == parts[0];
      assert parts == [parts[0]] + parts[1..];
    }
  }

  /** The value of c as a digit in bases up to 36, or 36 when c is not a digit at all. */
  function DigitValue(c: char): (d: nat)
    ensures d <= 36
  {
    if '0' <= c <= '9' then c as nat - '0' as nat
    else if 'a' <= c <= 'z' then c as nat - 'a' as nat + 10
    else if 'A' <= c <= 'Z' then c as nat - 'A' as nat + 10
    else 36
  }

  predicate IsDigit(c: char, radix: nat)
  {
    DigitValue(c) < radix
  }

  /** The length of the longest prefix of s made of digits in the radix. */
  function DigitRun(s: string, radix: nat): (n: nat)
    ensures n <= |s|
    ensures forall i :: 0 <= i < n ==> IsDigit(s[i], radix)
    ensures n < |s| ==> !IsDigit(s[n], radix)
  {
    if |s| > 0 && IsDigit(s[0], radix) then 1 + DigitRun(s[1..], radix) else 0
  }

  /** The number a string of digits denotes, most significant digit first. */
  function DigitsValue(ds: string, radix: nat): nat
  {
    if |ds| == 0 then 0 else DigitsValue(ds[..|ds| - 1], radix) * radix + DigitValue(ds[|ds| - 1])
  }

  /**
   * parseInt(s) without a radix: skip leading white space, read an optional sign, switch to
   * base 16 after a 0x or 0X prefix, and read the longest run of digits; None (NaN) when
   * there is none. Whatever follows the digits is ignored.
   */
  function ParseInt(s: string): Option<int>
  {
    ParseNumeral(TrimStart(s))
  }

  /** parseInt once the leading white space is gone. */
  function ParseNumeral(t: string): Option<int>
  {
    var sign: int := if |t| > 0 && t[0] == '-' then -1 else 1;
    var u := Unsigned(t);
    var magnitude := if HasHexPrefix(u) then ParseDigits(u[2..], 16) else ParseDigits(u, 10);
    if magnitude.None? then None else Some(sign * magnitude.value)
  }

  /** The numeral without its sign. */
  function Unsigned(t: string): string
  {
    if |t| > 0 && (t[0] == '-' || t[0] == '+') then t[1..] else t
  }

  predicate HasHexPrefix(u: string)
  {
    |u| >= 2 && u[0] == '0' && (u[1] == 'x' || u[1] == 'X')
  }

  /** The value of the longest run of digits at the start of body, or None when there is none. */
  function ParseDigits(body: string, radix: nat): Option<nat>
  {
    var n := DigitRun(body, radix);
    if n == 0 then None else Some(DigitsValue(body[..n], radix))
  }

  /** The decimal numeral of n, without leading zeros. */
  function DecimalString(n: nat): (s: string)
    ensures |s| >= 1 && forall i :: 0 <= i < |s| ==> '0' <= s[i] <= '9'
  {
    if n < 10 then [('0' as nat + n) as char]
    else DecimalString(n / 10) + [('0' as nat + n % 10) as char]
  }

  function Zeros(k: nat): (s: string)
    ensures |s| == k && forall i :: 0 <= i < k ==> s[i] == '0'
  {
    if k == 0 then "" else "0" + Zeros(k - 1)
  }

  /** The decimal numeral of n padded with zeros on the left to at least width characters. */
  function PadDecimal(n: nat, width: nat): (s: string)
    ensures |s| >= 1 && forall i :: 0 <= i < |s| ==> '0' <= s[i] <= '9'
  {
    var digits := DecimalString(n);
    var padded := Zeros(if |digits| < width then width - |digits| else 0) + digits;
    assert forall i :: 0 <= i < |padded| ==> '0' <= padded[i] <= '9';
    padded
  }

  lemma {:induction false} DecimalValue(n: nat)
    ensures DigitsValue(DecimalString(n), 10) == n
  {
    if n >= 10 {
      var s := DecimalString(n);
      assert s[..|s| - 1] == DecimalString(n / 10);
      DecimalValue(n / 10);
    }
  }

  /** Leading zeros do not change the value of a numeral. */
  lemma {:induction false} LeadingZerosValue(k: nat, ds: string, radix: nat)
    ensures DigitsValue(Zeros(k) + ds, radix) == DigitsValue(ds, radix)
    decreases |ds|
  {
    if |ds| == 0 {
      ZerosValue(k, radix);
      assert Zeros(k) + ds == Zeros(k);
    } else {
      var s := Zeros(k) + ds;
      assert s[..|s| - 1] == Zeros(k) + ds[..|ds| - 1];
      LeadingZerosValue(k, ds[..|ds| - 1], radix);
    }
  }

  lemma {:induction false} ZerosValue(k: nat, radix: nat)
    ensures DigitsValue(Zeros(k), radix) == 0
  {
    if k > 0 {
      var s := Zeros(k);
      assert s[..k - 1] == Zeros(k - 1);
      ZerosValue(k - 1, radix);
    }
  }

  /** A run of decimal digits followed by nothing or by a non-digit is read in full. */
  lemma {:induction false} DigitRunOfDigits(ds: string, t: string)
    requires forall i :: 0 <= i < |ds| ==> '0' <= ds[i] <= '9'
    requires t == [] || !IsDigit(t[0], 10)
    ensures DigitRun(ds + t, 10) == |ds|
    decreases |ds|
  {
    if |ds| > 0 {
      assert (ds + t)[1..] == ds[1..] + t;
      DigitRunOfDigits(ds[1..], t);
    } else {
      assert ds + t == t;
    }
  }

  /** A numeral in base 10 that starts with a digit and is not followed by a letter or digit. */
  lemma ParseDecimalNumeral(ds: string, t: string)
    requires |ds| >= 1 && forall i :: 0 <= i < |ds| ==> '0' <= ds[i] <= '9'
    requires t == [] || DigitValue(t[0]) == 36
    ensures ParseNumeral(ds + t) == Some(DigitsValue(ds, 10))
  {
    var s := ds + t;
    DecimalNumeralUnsigned(ds, t);
    DigitRunOfDigits(ds, t);
    assert s[..|ds|] == ds;
  }

  /** A numeral that starts with a decimal digit has no sign and no hexadecimal prefix. */
  lemma DecimalNumeralUnsigned(ds: string, t: string)
    requires |ds| >= 1 && forall i :: 0 <= i < |ds| ==> '0' <= ds[i] <= '9'
    requires t == [] || DigitValue(t[0]) == 36
    ensures Unsigned(ds + t) == ds + t && !HasHexPrefix(ds + t)
  {
    var s := ds + t;
    assert s[0] == ds[0];
    if |s| >= 2 && |ds| == 1 {
      assert s[1] == t[0];
    } else if |s| >= 2 {
      assert s[1] == ds[1];
    }
  }

  /**
   * parseInt reads back a zero-padded decimal numeral, whatever follows it as long as that is
   * not a letter or digit: parseInt("0042 days") is 42.
   */
  lemma ParsePadded(n: nat, width: nat, t: string)
    requires t == [] || DigitValue(t[0]) == 36
    ensures ParseInt(PadDecimal(n, width) + t) == Some(n)
  {
    var p := PadDecimal(n, width);
    PaddedValue(n, width);
    assert (p + t)[0] == p[0];
    NoLeadingSpace(p + t);
    ParseDecimalNumeral(p, t);
  }

  /** A string that does not start with white space is parsed as it stands. */
  lemma NoLeadingSpace(s: string)
    requires |s| > 0 && !IsWhiteSpace(s[0])
    ensures ParseInt(s) == ParseNumeral(s)
  {
  }

  /** Padding with zeros keeps the value of the numeral. */
  lemma PaddedValue(n: nat, width: nat)
    ensures DigitsValue(PadDecimal(n, width), 10) == n
  {
    var digits := DecimalString(n);
    var k := if |digits| < width then width - |digits| else 0;
    assert PadDecimal(n, width) == Zeros(k) + digits;
    LeadingZerosValue(k, digits, 10);
    DecimalValue(n);
  }

  /** Leading white space is skipped. */
  lemma {:induction false} TrimStartSkips(ws: string, s: string)
    requires AllWhiteSpace(ws)
    ensures TrimStart(ws + s) == TrimStart(s)
    decreases |ws|
  {
    if |ws| > 0 {
      assert (ws + s)[0] == ws[0];
      assert (ws + s)[1..] == ws[1..] + s;
      TrimStartSkips(ws[1..], s);
    } else {
      assert ws + s == s;
    }
  }

  /** Leading white space never changes what parseInt reads. */
  lemma ParseIntSkipsWhiteSpace(ws: string, s: string)
    requires AllWhiteSpace(ws)
    ensures ParseInt(ws + s) == ParseInt(s)
  {
    TrimStartSkips(ws, s);
  }
}
