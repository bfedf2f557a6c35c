/** The pieces of JavaScript's string and number built-ins that the form
    validator relies on: the white-space class behind `\s` and `trim()`, the
    ASCII digit class behind `\d` and `[0-9]`, `parseInt` without a radix, and
    the decimal rendering of a count. NaN is modelled as `None`. */
module JsText {

  datatype Option<T> = None | Some(value: T)

  /** The characters `\s` matches and `trim()` removes: WhiteSpace and
      LineTerminator of ECMA-262 (section 12.2 and 12.3). */
  predicate IsJsSpace(c: char) {
    c == '\t' || c == '\n' || c == '\U{000B}' || c == '\U{000C}' || c == '\r' || c == ' '
    || c == '\U{00A0}' || c == '\U{1680}' || ('\U{2000}' <= c <= '\U{200A}')
    || c == '\U{2028}' || c == '\U{2029}' || c == '\U{202F}' || c == '\U{205F}'
    || c == '\U{3000}' || c == '\U{FEFF}'
  }

  predicate IsAsciiDigit(c: char) {
    '0' <= c <= '9'
  }

  function DigitValue(c: char): (d: nat)
    requires IsAsciiDigit(c)
    ensures d < 10
  {
    c as int - '0' as int
  }

  predicate AllAsciiDigits(s: string) {
    forall i :: 0 <= i < |s| ==> IsAsciiDigit(s[i])
  }

  predicate IsBlank(s: string) {
    forall i :: 0 <= i < |s| ==> IsJsSpace(s[i])
  }

  /** `s.replace(/\s/g, '')`: the characters of `s` that are not white space, in order. */
  function RemoveSpaces(s: string): (r: string)
    ensures |r| <= |s|
    ensures forall i :: 0 <= i < |r| ==> !IsJsSpace(r[i])
  {
    if s == [] then [] else (if IsJsSpace(s[0]) then [] else [s[0]]) + RemoveSpaces(s[1..])
  }

  /** `s.replace(/[^0-9]/g, '')` and `s.replace(/\D/g, '')`: the ASCII digits of `s`, in order. */
  function KeepDigits(s: string): (r: string)
    ensures |r| <= |s|
    ensures AllAsciiDigits(r)
  {
    if s == [] then [] else (if IsAsciiDigit(s[0]) then [s[0]] else []) + KeepDigits(s[1..])
  }

  lemma {:induction false} RemoveSpacesAppend(a: string, b: string)
    ensures RemoveSpaces(a + b) == RemoveSpaces(a) + RemoveSpaces(b)
  {
    if a != [] {
      RemoveSpacesAppend(a[1..], b);
      assert (a + b)[1..] == a[1..] + b;
    } else {
      assert a + b == b;
    }
  }

  lemma {:induction false} KeepDigitsAppend(a: string, b: string)
    ensures KeepDigits(a + b) == KeepDigits(a) + KeepDigits(b)
  {
    if a != [] {
      KeepDigitsAppend(a[1..], b);
      assert (a + b)[1..] == a[1..] + b;
    } else {
      assert a + b == b;
    }
  }

  /** Removing white space from digits, or keeping their digits, changes nothing. */
  lemma {:induction false} RemoveSpacesOfDigits(s: string)
    requires AllAsciiDigits(s)
    ensures RemoveSpaces(s) == s
    ensures KeepDigits(s) == s
  {
    if s != [] {
      RemoveSpacesOfDigits(s[1..]);
      assert [s[0]] + s[1..] == s;
    }
  }

  /** Keeping only the digits gives the input back exactly when it is all digits. */
  lemma KeepDigitsOfDigits(s: string)
    ensures KeepDigits(s) == s <==> AllAsciiDigits(s)
  {
    if AllAsciiDigits(s) {
      RemoveSpacesOfDigits(s);
    }
  }

  /** White space holds no digit, so removing it first changes no digit string. */
  lemma {:induction false} KeepDigitsOfRemoveSpaces(s: string)
    ensures KeepDigits(RemoveSpaces(s)) == KeepDigits(s)
  {
    if s != [] {
      KeepDigitsOfRemoveSpaces(s[1..]);
      var head := if IsJsSpace(s[0]) then [] else [s[0]];
      KeepDigitsAppend(head, RemoveSpaces(s[1..]));
    }
  }

  /** The left part of `trim()`: drops the leading white space. */
  function TrimStart(s: string): (r: string)
    ensures |r| <= |s|
    ensures r == [] || !IsJsSpace(r[0])
  {
    if s != [] && IsJsSpace(s[0]) then TrimStart(s[1..]) else s
  }

  /** What `TrimStart` drops is a blank prefix; what it keeps is the rest. */
  lemma {:induction false} TrimStartSplits(s: string)
    ensures TrimStart(s) == s[|s| - |TrimStart(s)|..]
    ensures IsBlank(s[..|s| - |TrimStart(s)|])
  {
    if s != [] && IsJsSpace(s[0]) {
      TrimStartSplits(s[1..]);
      var k := |s[1..]| - |TrimStart(s[1..])|;
      assert s[1..][k..] == s[k + 1..];
      var prefix := s[..k + 1];
      forall i | 0 <= i < |prefix|
        ensures IsJsSpace(prefix[i])
      {
        if i > 0 {
          assert prefix[i] == s[1..][..k][i - 1];
        }
      }
    }
  }

  /** The right part of `trim()`: drops the trailing white space. */
  function TrimEnd(s: string): (r: string)
    ensures |r| <= |s| && r == s[..|r|]
    ensures r == [] || !IsJsSpace(r[|r| - 1])
    ensures IsBlank(s[|r|..])
  {
    if s != [] && IsJsSpace(s[|s| - 1]) then TrimEnd(s[..|s| - 1]) else s
  }

  /** `s.trim()`: never longer than `s`, and neither first nor last
      character of the result is white space. */
  function Trim(s: string): (r: string)
    ensures |r| <= |s|
    ensures r == [] || (!IsJsSpace(r[0]) && !IsJsSpace(r[|r| - 1]))
  {
    TrimEnd(TrimStart(s))
  }

  /** The handlers' `!x.trim()` test: trimming leaves nothing exactly when
      every character is white space. */
  lemma TrimEmptyIffBlank(s: string)
    ensures Trim(s) == [] <==> IsBlank(s)
  {
    var t := TrimStart(s);
    TrimStartSplits(s);
    if Trim(s) == [] {
      assert t[|TrimEnd(t)|..] == t;
      assert t == [];
      assert s[..|s|] == s;
    }
  }

  /** The value of a digit in base `radix` (10 or 16), or None. */
  function RadixDigit(c: char, radix: nat): (r: Option<nat>)
    ensures r.Some? ==> r.value < radix || (radix != 10 && radix != 16)
  {
    if IsAsciiDigit(c) && DigitValue(c) < radix then Some(DigitValue(c))
    else if radix == 16 && 'a' <= c <= 'f' then Some(c as int - 'a' as int + 10)
    else if radix == 16 && 'A' <= c <= 'F' then Some(c as int - 'A' as int + 10)
    else None
  }

  /** The longest prefix of `s` made of digits of base `radix`. */
  function DigitRun(s: string, radix: nat): (z: string)
    ensures |z| <= |s| && z == s[..|z|]
    ensures forall i :: 0 <= i < |z| ==> RadixDigit(z[i], radix).Some?
  {
    if s != [] && RadixDigit(s[0], radix).Some? then [s[0]] + DigitRun(s[1..], radix) else []
  }

  /** The value of a run of digits of base `radix`, most significant first
      (it is only applied to what `DigitRun` returns). */
  function RadixValue(z: string, radix: nat): nat {
    if z == [] then 0
    else
      var last := match RadixDigit(z[|z| - 1], radix) case Some(d) => d case None => 0;
      RadixValue(z[..|z| - 1], radix) * radix + last
  }

  /** `parseInt(s)` with no radix (section 21.1.2.13 of ECMA-262): leading
      white space is skipped, one sign is read, a `0x` or `0X` prefix selects
      base 16, and the longest run of digits of the base that follows is read;
      no digit at all gives NaN (None). Integers are unbounded here. A blank
      string reads as NaN, and a negative value needs a leading '-'. */
  function ParseInt(s: string): (v: Option<int>)
    ensures IsBlank(s) ==> v.None?
    ensures v.Some? && v.value < 0 ==> TrimStart(s) != [] && TrimStart(s)[0] == '-'
  {
    TrimStartSplits(s);
    var t := TrimStart(s);

    var negative := t != [] && t[0] == '-';
    var u := if t != [] && (t[0] == '-' || t[0] == '+') then t[1..] else t;
    var hex := |u| >= 2 && u[0] == '0' && (u[1] == 'x' || u[1] == 'X');
    var radix := if hex then 16 else 10;
    var z := DigitRun(if hex then u[2..] else u, radix);
    var v: int := if z == [] then 0 else RadixValue(z, radix);
    if z == [] then None else if negative then Some(-v) else Some(v)
  }

  /** The value of a string of ASCII digits read in base 10. */
  function DecimalValue(s: string): nat
    requires AllAsciiDigits(s)
  {
    if s == [] then 0 else DecimalValue(s[..|s| - 1]) * 10 + DigitValue(s[|s| - 1])
  }

  lemma {:induction false} DigitRunOfDigits(s: string)
    requires AllAsciiDigits(s)
    ensures DigitRun(s, 10) == s
    ensures RadixValue(s, 10) == DecimalValue(s)
  {
    if s != [] {
      DigitRunOfDigits(s[1..]);
      assert [s[0]] + s[1..] == s;
      DigitRunOfDigits(s[..|s| - 1]);
    }
  }

  /** `parseInt` reads a non-empty string of ASCII digits as its decimal value. */
  lemma ParseIntDecimal(s: string)
    requires s != [] && AllAsciiDigits(s)
    ensures ParseInt(s) == Some(DecimalValue(s))
  {
    assert TrimStart(s) == s;
    DigitRunOfDigits(s);
  }

  lemma {:induction false} DigitRunStopsAtSpace(s: string, rest: string)
    requires AllAsciiDigits(s) && rest != [] && IsJsSpace(rest[0])
    ensures DigitRun(s + rest, 10) == s
  {
    if s == [] {
      assert s + rest == rest;
    } else {
      DigitRunStopsAtSpace(s[1..], rest);
      assert (s + rest)[1..] == s[1..] + rest;
      assert [s[0]] + s[1..] == s;
    }
  }

  /** `parseInt` reads a run of digits followed by white space as the
      digits' decimal value. */
  lemma ParseIntDigitsThenSpace(s: string, rest: string)
    requires s != [] && AllAsciiDigits(s) && rest != [] && IsJsSpace(rest[0])
    ensures ParseInt(s + rest) == Some(DecimalValue(s))
  {
    var t := s + rest;
    assert t[0] == s[0];
    assert TrimStart(t) == t;
    assert |t| >= 2 ==> t[1] == (if |s| >= 2 then s[1] else rest[0]);
    DigitRunStopsAtSpace(s, rest);
    DigitRunOfDigits(s);
  }

  /** `parseInt` applied to a one-character string. */
  function ParseIntChar(c: char): Option<int> {
    if IsAsciiDigit(c) then Some(DigitValue(c) as int) else None
  }

  /** `ParseIntChar` agrees with `parseInt`: a single character reads as its
      digit value, and anything but an ASCII digit (white space and signs
      included) reads as NaN. */
  lemma ParseIntOneChar(c: char)
    ensures ParseInt([c]) == ParseIntChar(c)
    ensures ParseIntChar(c).Some? <==> IsAsciiDigit(c)
  {
    if IsAsciiDigit(c) {
      ParseIntDecimal([c]);
    } else {
      var t := TrimStart([c]);
      assert t == [] || t == [c];
    }
  }

  /** The decimal rendering of a count, as a template literal prints it. */
  function NatToString(n: nat): (s: string)
    ensures s != [] && AllAsciiDigits(s)
    ensures n > 0 ==> s[0] != '0'
  {
    if n < 10 then ['0' + n as char]
    else NatToString(n / 10) + ['0' + (n % 10) as char]
  }

  /** Rendering a count and reading it back with `parseInt` gives the count. */
  lemma {:induction false} NatToStringRoundTrip(n: nat)
    ensures DecimalValue(NatToString(n)) == n
    ensures ParseInt(NatToString(n)) == Some(n)
  {
    var s := NatToString(n);
    if n >= 10 {
      NatToStringRoundTrip(n / 10);
      assert s[..|s| - 1] == NatToString(n / 10);
    }
    ParseIntDecimal(s);
  }
}
