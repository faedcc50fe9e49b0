/** The string operations the tool borrows from Go's standard library:
    substring search (`strings.Contains`), whitespace trimming
    (`strings.TrimSpace`), decimal parsing (`strconv.Atoi`) and the `%d`
    rendering used for the selection menu. */
module Text {

  datatype Option<T> = None | Some(value: T)

  // ---------------------------------------------------------------- Contains

  /** `sub` occurs in `s` starting at offset `i`. */
  predicate OccursAt(sub: string, s: string, i: nat)
  {
    i + |sub| <= |s| && s[i..i + |sub|] == sub
  }

  /** `sub` occurs somewhere in `s` (the empty string occurs everywhere). */
  ghost predicate IsSubstring(sub: string, s: string)
  {
    exists i: nat :: OccursAt(sub, s, i)
  }

  /** `strings.Contains(s, sub)`: tries every offset from the left. */
  function Contains(s: string, sub: string): bool
    decreases |s|
  {
    if OccursAt(sub, s, 0) then true
    else if |s| == 0 then false
    else Contains(s[1..], sub)
  }

  /** Shifting the haystack by one character shifts every occurrence by one. */
  lemma OccursShift(sub: string, s: string, i: nat)
    requires |s| > 0
    ensures OccursAt(sub, s[1..], i) <==> OccursAt(sub, s, i + 1)
  {
    if i + |sub| <= |s[1..]| {
      assert s[1..][i..i + |sub|] == s[i + 1..i + 1 + |sub|];
    }
  }

  /** The executable search finds exactly the substrings. */
  lemma {:induction false} ContainsIsSubstring(s: string, sub: string)
    ensures Contains(s, sub) <==> IsSubstring(sub, s)
    decreases |s|
  {
    if OccursAt(sub, s, 0) {
    } else if |s| == 0 {
      assert forall i: nat :: !OccursAt(sub, s, i);
    } else {
      ContainsIsSubstring(s[1..], sub);
      if IsSubstring(sub, s[1..]) {
        var i: nat :| OccursAt(sub, s[1..], i);
        OccursShift(sub, s, i);
      }
      if IsSubstring(sub, s) {
        var i: nat :| OccursAt(sub, s, i);
        assert i > 0;
        OccursShift(sub, s, i - 1);
        assert OccursAt(sub, s[1..], i - 1);
      }
    }
  }

  /** The empty string is a substring of every string. */
  lemma EmptyIsContained(s: string)
    ensures Contains(s, "")
  {
    assert OccursAt("", s, 0);
  }

  // --------------------------------------------------------------- TrimSpace

  /** The ASCII white-space characters `strings.TrimSpace` strips:
      tab, line feed, vertical tab, form feed, carriage return, space. */
  predicate IsSpace(c: char)
  {
    c == '\t' || c == '\n' || c == '\U{000B}' || c == '\U{000C}' || c == '\r' || c == ' '
  }

  predicate AllSpace(s: string)
  {
    forall k :: 0 <= k < |s| ==> IsSpace(s[k])
  }

  /** `s` has no white space at either end (it is what trimming produces). */
  predicate IsTrimmed(s: string)
  {
    |s| == 0 || (!IsSpace(s[0]) && !IsSpace(s[|s| - 1]))
  }

  function TrimLeft(s: string): string
  {
    if |s| > 0 && IsSpace(s[0]) then TrimLeft(s[1..]) else s
  }

  function TrimRight(s: string): string
  {
    if |s| > 0 && IsSpace(s[|s| - 1]) then TrimRight(s[..|s| - 1]) else s
  }

  /** `strings.TrimSpace`: leading, then trailing white space removed. */
  function TrimSpace(s: string): string
  {
    TrimRight(TrimLeft(s))
  }

  /** Stripping leading white space: the result is a suffix with a non-space head,
      empty exactly when the whole string was white space. */
  lemma {:induction false} TrimLeftSpec(s: string)
    ensures |TrimLeft(s)| <= |s| && TrimLeft(s) == s[|s| - |TrimLeft(s)|..]
    ensures AllSpace(s[..|s| - |TrimLeft(s)|])
    ensures |TrimLeft(s)| == 0 || !IsSpace(TrimLeft(s)[0])
    decreases |s|
  {
    if |s| > 0 && IsSpace(s[0]) {
      TrimLeftSpec(s[1..]);
      var n := |s| - |TrimLeft(s)|;
      assert s[..n] == [s[0]] + s[1..][..n - 1];
    }
  }

  /** Stripping trailing white space: the result is a prefix with a non-space
      last character, and nothing but white space follows it. */
  lemma {:induction false} TrimRightSpec(s: string)
    ensures |TrimRight(s)| <= |s| && TrimRight(s) == s[..|TrimRight(s)|]
    ensures AllSpace(s[|TrimRight(s)|..])
    ensures |TrimRight(s)| == 0 || !IsSpace(TrimRight(s)[|TrimRight(s)| - 1])
    decreases |s|
  {
    if |s| > 0 && IsSpace(s[|s| - 1]) {
      var p := s[..|s| - 1];
      TrimRightSpec(p);
      var n := |TrimRight(s)|;
      assert s[n..] == p[n..] + [s[|s| - 1]];
    }
  }

  /** Trimming yields a string without white space at its ends, and it is
      empty exactly when the input consisted of white space only. */
  lemma TrimSpaceSpec(s: string)
    ensures IsTrimmed(TrimSpace(s))
    ensures |TrimSpace(s)| == 0 <==> AllSpace(s)
  {
    var l := TrimLeft(s);
    TrimLeftSpec(s);
    TrimRightSpec(l);
    var r := TrimRight(l);
    if |r| > 0 {
      assert r[0] == l[0];
      assert !IsSpace(s[|s| - |l|]);
    } else {
      assert AllSpace(l[|r|..]);
      assert s == s[..|s| - |l|] + l;
    }
  }

  /** Leading white space in front of a string that starts with a non-space
      character is removed and nothing else is. */
  lemma {:induction false} TrimLeftPadded(a: string, s: string)
    requires AllSpace(a)
    requires |s| == 0 || !IsSpace(s[0])
    ensures TrimLeft(a + s) == TrimLeft(s)
    decreases |a|
  {
    if |a| > 0 {
      assert (a + s)[1..] == a[1..] + s;
      TrimLeftPadded(a[1..], s);
    } else {
      assert a + s == s;
    }
  }

  lemma {:induction false} TrimRightPadded(s: string, b: string)
    requires AllSpace(b)
    requires |s| == 0 || !IsSpace(s[|s| - 1])
    ensures TrimRight(s + b) == TrimRight(s)
    decreases |b|
  {
    if |b| > 0 {
      assert (s + b)[..|s + b| - 1] == s + b[..|b| - 1];
      TrimRightPadded(s, b[..|b| - 1]);
    } else {
      assert s + b == s;
    }
  }

  /** Trimming a trimmed string padded with white space on both sides gives
      back exactly that string: the round trip of padding and trimming. */
  lemma TrimSpacePadded(a: string, s: string, b: string)
    requires AllSpace(a) && AllSpace(b) && IsTrimmed(s)
    requires |s| > 0
    ensures TrimSpace(a + s + b) == s
  {
    assert a + s + b == a + (s + b);
    TrimLeftPadded(a, s + b);
    TrimRightPadded(s, b);
  }

  // ------------------------------------------------------------ Atoi and %d

  predicate IsDigit(c: char)
  {
    '0' <= c <= '9'
  }

  predicate AllDigits(s: string)
  {
    forall k :: 0 <= k < |s| ==> IsDigit(s[k])
  }

  function DigitValue(c: char): nat
    requires IsDigit(c)
  {
    (c as int - '0' as int) as nat
  }

  function DigitChar(d: nat): char
    requires d < 10
  {
    ('0' as int + d) as char
  }

  /** The value of a digit string read left to right, `n = n*10 + d` per digit. */
  function DigitsValue(s: string): nat
    requires AllDigits(s)
  {
    if |s| == 0 then 0 else DigitsValue(s[..|s| - 1]) * 10 + DigitValue(s[|s| - 1])
  }

  /** `strconv.Atoi` in base 10: an optional `+` or `-`, then one or more
      decimal digits and nothing else. Go reports values outside the range of
      its `int` as an error; here integers are unbounded (see README). */
  function Atoi(s: string): Option<int>
  {
    var negative := |s| > 0 && s[0] == '-';
    var digits := if |s| > 0 && (s[0] == '+' || s[0] == '-') then s[1..] else s;
    if |digits| == 0 || !AllDigits(digits) then None
    else if negative then Some(-(DigitsValue(digits) as int))
    else Some(DigitsValue(digits))
  }

  /** Decimal rendering of a natural number, most significant digit first. */
  function FormatNat(n: nat): string
  {
    if n < 10 then [DigitChar(n)] else FormatNat(n / 10) + [DigitChar(n % 10)]
  }

  /** `fmt`'s `%d`: a minus sign for negative numbers, then the digits. */
  function FormatInt(n: int): string
  {
    if n < 0 then "-" + FormatNat(-n) else FormatNat(n)
  }

  /** The rendering is a non-empty digit string whose value is the number. */
  lemma {:induction false} FormatNatDigits(n: nat)
    ensures |FormatNat(n)| > 0 && AllDigits(FormatNat(n))
    ensures DigitsValue(FormatNat(n)) == n
    decreases n
  {
    if n >= 10 {
      FormatNatDigits(n / 10);
      var s := FormatNat(n);
      assert s[..|s| - 1] == FormatNat(n / 10);
    }
  }

  /** Parsing the decimal rendering of any integer gives that integer back. */
  lemma AtoiFormatInt(n: int)
    ensures Atoi(FormatInt(n)) == Some(n)
  {
    var s := FormatInt(n);
    if n < 0 {
      FormatNatDigits(-n);
      assert s[0] == '-' && s[1..] == FormatNat(-n);
    } else {
      FormatNatDigits(n);
      assert IsDigit(s[0]);
    }
  }

  /** A rendered number carries no white space, so trimming leaves it alone. */
  lemma FormatIntTrimmed(n: int)
    ensures IsTrimmed(FormatInt(n)) && |FormatInt(n)| > 0
  {
    if n < 0 {
      FormatNatDigits(-n);
      assert FormatInt(n)[|FormatInt(n)| - 1] == FormatNat(-n)[|FormatNat(-n)| - 1];
    } else {
      FormatNatDigits(n);
    }
  }
}
