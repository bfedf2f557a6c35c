/** The field validators of the form validator: e-mail shape, password
    length and match, card number (length and Luhn check digit), expiry date
    and CVV. All but the card-number check are predicates; the card-number
    check keeps the source's right-to-left loop. */
module Validators {
  import opened JsText

  // ---------------------------------------------------------------------
  // E-mail: /^[^\s@]+@[^\s@]+\.[^\s@]+$/
  // ---------------------------------------------------------------------

  /** A character of the class `[^\s@]`. */
  predicate EmailChar(c: char) {
    !IsJsSpace(c) && c != '@'
  }

  /** A match of `[^\s@]+`. */
  predicate EmailAtom(s: string) {
    s != [] && forall i :: 0 <= i < |s| ==> EmailChar(s[i])
  }

  /** The three pieces the pattern requires: `local@host.tld`, each piece
      non-empty and free of white space and '@' (a piece may hold dots). */
  predicate EmailShape(local: string, host: string, tld: string) {
    EmailAtom(local) && EmailAtom(host) && EmailAtom(tld)
  }

  /** The index of the first '@' of `s`, or `|s|` when there is none. */
  function FindAt(s: string): (k: nat)
    ensures k <= |s|
    ensures forall i :: 0 <= i < k ==> s[i] != '@'
    ensures k < |s| ==> s[k] == '@'
  {
    if s == [] || s[0] == '@' then 0 else 1 + FindAt(s[1..])
  }

  /** `validateEmail`: the part before the first '@' is a non-empty atom, and
      the rest is an atom of at least three characters with a dot neither
      first nor last. An accepted address is at least five characters long,
      and it neither starts nor ends with '@' or white space. */
  predicate ValidateEmail(email: string): (ok: bool)
    ensures ok ==> |email| >= 5 && EmailChar(email[0]) && EmailChar(email[|email| - 1])
  {
    var at := FindAt(email);
    0 < at < |email| && EmailAtom(email[..at]) && EmailDomain(email[at + 1..])
  }

  /** What may follow the '@': `[^\s@]+\.[^\s@]+`, that is an atom with a dot
      neither first nor last. */
  predicate EmailDomain(domain: string) {
    EmailAtom(domain) && |domain| >= 3 && '.' in domain[1..|domain| - 1]
  }

  lemma AtomSlice(s: string, a: nat, b: nat)
    requires EmailAtom(s) && a < b <= |s|
    ensures EmailAtom(s[a..b])
  {
    assert forall i :: 0 <= i < b - a ==> s[a..b][i] == s[a + i];
  }

  /** A domain splits at any dot strictly inside it into two atoms. */
  lemma DomainSplits(domain: string, j: nat)
    requires EmailDomain(domain) && j + 2 < |domain| && domain[j + 1] == '.'
    ensures EmailAtom(domain[..j + 1]) && EmailAtom(domain[j + 2..])
    ensures domain == domain[..j + 1] + "." + domain[j + 2..]
  {
    AtomSlice(domain, 0, j + 1);
    AtomSlice(domain, j + 2, |domain|);
    assert domain[j + 2..|domain|] == domain[j + 2..];
  }

  /** Every accepted address splits as `local@host.tld` with three atoms. */
  ghost function SplitEmail(email: string): (parts: (string, string, string))
    requires ValidateEmail(email)
    ensures EmailShape(parts.0, parts.1, parts.2)
    ensures email == parts.0 + "@" + parts.1 + "." + parts.2
  {
    var at := FindAt(email);
    var domain := email[at + 1..];
    assert EmailDomain(domain);
    var inner := domain[1..|domain| - 1];
    var j :| 0 <= j < |inner| && inner[j] == '.';
    assert domain[j + 1] == '.';
    DomainSplits(domain, j);
    assert email == email[..at] + "@" + domain;
    (email[..at], domain[..j + 1], domain[j + 2..])
  }

  /** Every `local@host.tld` with three atoms is accepted. */
  lemma EmailAccepted(local: string, host: string, tld: string)
    requires EmailShape(local, host, tld)
    ensures ValidateEmail(local + "@" + host + "." + tld)
  {
    var email := local + "@" + host + "." + tld;
    var domain := host + "." + tld;
    assert email[|local|] == '@';
    assert FindAt(email) == |local|;
    assert email[..|local|] == local;
    assert email[|local| + 1..] == domain;
    assert domain[1..|domain| - 1][|host| - 1] == '.';
  }

  /** An address without '@' is rejected. */
  lemma EmailNeedsAt(email: string)
    requires '@' !in email
    ensures !ValidateEmail(email)
  {
  }

  /** An address whose text after the first '@' has no dot strictly inside
      (such as "usuario@dominio" or "usuario@") is rejected. */
  lemma EmailNeedsDotAfterAt(local: string, domain: string)
    requires '@' !in local
    requires |domain| < 3 || '.' !in domain[1..|domain| - 1]
    ensures !ValidateEmail(local + "@" + domain)
  {
    var email := local + "@" + domain;
    assert email[|local|] == '@';
    assert FindAt(email) == |local|;
    assert email[|local| + 1..] == domain;
  }

  /** An address starting with '@' (such as "@dominio.com") is rejected. */
  lemma EmailNeedsLocalPart(rest: string)
    ensures !ValidateEmail("@" + rest)
  {
    assert ("@" + rest)[0] == '@';
  }

  // ---------------------------------------------------------------------
  // Password
  // ---------------------------------------------------------------------

  /** `validatePassword`: at least eight characters. */
  predicate ValidatePassword(password: string) {
    |password| >= 8
  }

  /** Eight characters are the shortest accepted password, and adding
      characters to an accepted password keeps it accepted. */
  lemma PasswordThreshold(password: string, more: string)
    ensures ValidatePassword("12345678") && !ValidatePassword("1234567")
    ensures |password| < 8 ==> !ValidatePassword(password)
    ensures ValidatePassword(password) ==> ValidatePassword(password + more)
  {
  }

  // ---------------------------------------------------------------------
  // Expiry date: /^(0[1-9]|1[0-2])\/\d{2}$/ and the comparison with today
  // ---------------------------------------------------------------------

  /** A match of `/^(0[1-9]|1[0-2])\/\d{2}$/`. */
  predicate ExpiryShape(s: string) {
    |s| == 5 && s[2] == '/' && IsAsciiDigit(s[3]) && IsAsciiDigit(s[4])
    && ((s[0] == '0' && '1' <= s[1] <= '9') || (s[0] == '1' && '0' <= s[1] <= '2'))
  }

  function ExpiryMonth(s: string): (m: nat)
    requires ExpiryShape(s)
    ensures 1 <= m <= 12
  {
    10 * DigitValue(s[0]) + DigitValue(s[1])
  }

  function ExpiryYear(s: string): (y: nat)
    requires ExpiryShape(s)
    ensures y < 100
  {
    10 * DigitValue(s[3]) + DigitValue(s[4])
  }

  lemma DecimalValueTwo(s: string)
    requires |s| == 2 && AllAsciiDigits(s)
    ensures DecimalValue(s) == 10 * DigitValue(s[0]) + DigitValue(s[1])
  {
    var h := s[..1];
    assert h[..0] == [] && h[0] == s[0];
    assert DecimalValue(h) == DigitValue(s[0]);
    assert s[..|s| - 1] == h;
  }

  /** `a < b` for a number that may be NaN (NaN compares false). */
  predicate NumLess(a: Option<int>, b: int) {
    a.Some? && a.value < b
  }

  /** `a === b` for a number that may be NaN. */
  predicate NumEqual(a: Option<int>, b: int) {
    a.Some? && a.value == b
  }

  /** `validateExpiryDate`, with the clock's reading passed in: the year modulo
      100 and the month (1 to 12). A well-formed date is accepted when its
      month, counted from year 0, is not before the current one; the current
      month itself is still valid. */
  function ValidateExpiryDate(expiry: string, currentYear: int, currentMonth: int): (ok: bool)
    requires 1 <= currentMonth <= 12
    ensures ok <==> ExpiryShape(expiry)
                    && 12 * ExpiryYear(expiry) + ExpiryMonth(expiry) >= 12 * currentYear + currentMonth
  {
    if !ExpiryShape(expiry) then false
    else
      var month, year := expiry[..2], expiry[3..];
      var expYear, expMonth := ParseInt(year), ParseInt(month);
      ParseIntDecimal(month);
      ParseIntDecimal(year);
      DecimalValueTwo(month);
      DecimalValueTwo(year);
      !(NumLess(expYear, currentYear) || (NumEqual(expYear, currentYear) && NumLess(expMonth, currentMonth)))
  }

  lemma ExpiryExamples()
    ensures ValidateExpiryDate("12/25", 25, 12)
    ensures ValidateExpiryDate("12/25", 24, 6)
    ensures !ValidateExpiryDate("12/25", 26, 1)
    ensures !ValidateExpiryDate("01/20", 25, 6)
    ensures !ValidateExpiryDate("13/20", 19, 1)
    ensures !ValidateExpiryDate("1/25", 19, 1)
  {
  }

  // ---------------------------------------------------------------------
  // CVV: /^\d{3,4}$/
  // ---------------------------------------------------------------------

  /** `validateCVV`: three or four ASCII digits. An accepted CVV is left
      unchanged by removing white space or non-digits. */
  predicate ValidateCVV(cvv: string): (ok: bool)
    ensures ok ==> KeepDigits(cvv) == cvv && RemoveSpaces(cvv) == cvv
  {
    if AllAsciiDigits(cvv) then
      RemoveSpacesOfDigits(cvv);
      |cvv| == 3 || |cvv| == 4
    else
      false
  }

  lemma CvvExamples()
    ensures ValidateCVV("123") && ValidateCVV("1234")
    ensures !ValidateCVV("12") && !ValidateCVV("12345") && !ValidateCVV("abc") && !ValidateCVV("12a")
  {
    assert "abc"[0] == 'a' && "12a"[2] == 'a';
  }

  // ---------------------------------------------------------------------
  // Card number: whitespace removed, 13 to 19 characters, Luhn check
  // ---------------------------------------------------------------------

  /** `a + b` for numbers that may be NaN. */
  function AddNum(a: Option<int>, b: Option<int>): Option<int> {
    if a.Some? && b.Some? then Some(a.value + b.value) else None
  }

  /** What the loop adds for character `c`: `parseInt(c)`, doubled and
      reduced by 9 when above 9 if this position is doubled. */
  function LuhnTerm(c: char, doubled: bool): Option<int> {
    var digit := ParseIntChar(c);
    if doubled && digit.Some? then
      (var d := digit.value * 2; Some(if d > 9 then d - 9 else d))
    else digit
  }

  /** The sum the loop accumulates over `s`: the character at distance k from
      the right end is doubled when k is odd. None stands for NaN. */
  function LuhnSum(s: string): Option<int> {
    if s == [] then Some(0)
    else AddNum(LuhnSum(s[1..]), LuhnTerm(s[0], (|s| - 1) % 2 == 1))
  }

  /** What `validateCardNumber` computes. */
  predicate CardNumberValid(cardNumber: string) {
    var cleaned := RemoveSpaces(cardNumber);
    13 <= |cleaned| <= 19 && LuhnSum(cleaned).Some? && LuhnSum(cleaned).value % 10 == 0
  }

  /** `validateCardNumber`: the loop runs from the last character to the first,
      toggling `isEven` after each one. */
  method ValidateCardNumber(cardNumber: string) returns (ok: bool)
    ensures ok == CardNumberValid(cardNumber)
  {
    var cleaned := RemoveSpaces(cardNumber);
    if |cleaned| < 13 || |cleaned| > 19 {
      return false;
    }
    var sum: Option<int> := Some(0);
    var isEven := false;
    var i := |cleaned| - 1;
    while i >= 0
      invariant -1 <= i < |cleaned|
      invariant isEven == ((|cleaned| - 1 - i) % 2 == 1)
      invariant sum == LuhnSum(cleaned[i + 1..])
    {
      assert cleaned[i..][1..] == cleaned[i + 1..];
      var digit := ParseIntChar(cleaned[i]);
      if isEven && digit.Some? {
        var d := digit.value * 2;
        if d > 9 {
          d := d - 9;
        }
        digit := Some(d);
      }
      sum := AddNum(sum, digit);
      isEven := !isEven;
      i := i - 1;
    }
    assert cleaned[0..] == cleaned;
    ok := sum.Some? && sum.value % 10 == 0;
  }

  /** One digit's contribution in the Luhn formula of ISO/IEC 7812-1, Annex B. */
  function Reduce(d: nat, doubled: bool): nat {
    if doubled then (if 2 * d > 9 then 2 * d - 9 else 2 * d) else d
  }

  /** The Luhn sum as ISO/IEC 7812-1, Annex B states it, over the first `n`
      digits of `ds`: from the n-th digit leftwards every second digit is
      doubled; `doubled` says whether the n-th digit is. */
  function IsoLuhnSum(ds: seq<nat>, n: nat, doubled: bool): nat
    requires n <= |ds|
  {
    if n == 0 then 0
    else IsoLuhnSum(ds, n - 1, !doubled) + Reduce(ds[n - 1], doubled)
  }

  /** A digit sequence whose Luhn sum (rightmost digit not doubled) is a multiple of 10. */
  predicate LuhnValid(ds: seq<nat>) {
    IsoLuhnSum(ds, |ds|, false) % 10 == 0
  }

  function Digits(s: string): (ds: seq<nat>)
    requires AllAsciiDigits(s)
    ensures |ds| == |s| && forall i :: 0 <= i < |s| ==> ds[i] == DigitValue(s[i]) < 10
  {
    seq(|s|, i requires 0 <= i < |s| => DigitValue(s[i]))
  }

  /** The Luhn sum read from the left: the first digit is doubled when its
      distance to the n-th digit, plus `doubled`, is odd. */
  lemma {:induction false} IsoLuhnSumFromLeft(ds: seq<nat>, n: nat, doubled: bool)
    requires 1 <= n <= |ds|
    ensures IsoLuhnSum(ds, n, doubled)
            == Reduce(ds[0], doubled != ((n - 1) % 2 == 1)) + IsoLuhnSum(ds[1..], n - 1, doubled)
  {
    if n > 1 {
      IsoLuhnSumFromLeft(ds, n - 1, !doubled);
      assert ds[1..][n - 2] == ds[n - 1];
    }
  }

  lemma LuhnTermOfDigit(c: char, doubled: bool)
    requires IsAsciiDigit(c)
    ensures LuhnTerm(c, doubled) == Some(Reduce(DigitValue(c), doubled) as int)
  {
  }

  lemma DigitsTail(s: string)
    requires s != []
    ensures AllAsciiDigits(s) <==> IsAsciiDigit(s[0]) && AllAsciiDigits(s[1..])
    ensures AllAsciiDigits(s) ==> Digits(s)[1..] == Digits(s[1..])
  {
    assert forall i :: 0 <= i < |s| - 1 ==> s[1..][i] == s[i + 1];
    if IsAsciiDigit(s[0]) && AllAsciiDigits(s[1..]) {
      forall i | 0 <= i < |s| ensures IsAsciiDigit(s[i]) {
        if i > 0 { assert s[i] == s[1..][i - 1]; }
      }
    }
  }

  /** One step of the loop from the left, for digits only. */
  lemma DigitsSplit(s: string)
    requires s != [] && AllAsciiDigits(s)
    ensures AllAsciiDigits(s[1..])
    ensures Digits(s)[0] == DigitValue(s[0]) && Digits(s)[1..] == Digits(s[1..])
  {
    DigitsTail(s);
  }

  lemma IsoLuhnSumSplit(ds: seq<nat>, tail: seq<nat>, d: nat)
    requires |ds| >= 1 && ds[0] == d && ds[1..] == tail
    ensures IsoLuhnSum(ds, |ds|, false) == Reduce(d, (|ds| - 1) % 2 == 1) + IsoLuhnSum(tail, |ds| - 1, false)
  {
    IsoLuhnSumFromLeft(ds, |ds|, false);
  }

  /** The loop's sum over a string starting with a digit. */
  lemma LuhnSumHead(s: string, rest: int)
    requires s != [] && IsAsciiDigit(s[0]) && LuhnSum(s[1..]) == Some(rest)
    ensures LuhnSum(s) == Some(rest + Reduce(DigitValue(s[0]), (|s| - 1) % 2 == 1))
  {
    LuhnTermOfDigit(s[0], (|s| - 1) % 2 == 1);
  }

  /** The ISO sum over a digit string, its first digit taken apart. */
  lemma IsoLuhnSumHead(s: string)
    requires s != [] && AllAsciiDigits(s)
    ensures AllAsciiDigits(s[1..])
    ensures IsoLuhnSum(Digits(s), |s|, false)
            == Reduce(DigitValue(s[0]), (|s| - 1) % 2 == 1) + IsoLuhnSum(Digits(s[1..]), |s| - 1, false)
  {
    DigitsSplit(s);
    IsoLuhnSumSplit(Digits(s), Digits(s[1..]), DigitValue(s[0]));
  }

  /** The loop's sum is NaN exactly when a character is not an ASCII digit,
      and is otherwise the ISO/IEC 7812-1 Luhn sum. */
  lemma {:induction false} LuhnSumIsIso(s: string)
    ensures LuhnSum(s).Some? <==> AllAsciiDigits(s)
    ensures AllAsciiDigits(s) ==> LuhnSum(s) == Some(IsoLuhnSum(Digits(s), |s|, false))
  {
    if s != [] {
      LuhnSumIsIso(s[1..]);
      DigitsTail(s);
      if AllAsciiDigits(s) {
        IsoLuhnSumHead(s);
        LuhnSumHead(s, IsoLuhnSum(Digits(s[1..]), |s| - 1, false));
      } else if !IsAsciiDigit(s[0]) {
        assert LuhnTerm(s[0], (|s| - 1) % 2 == 1) == None;
      }
    }
  }

  /** `validateCardNumber` accepts exactly the inputs that, once white space is
      removed, are 13 to 19 ASCII digits passing the Luhn check. */
  lemma CardNumberValidIff(cardNumber: string)
    ensures CardNumberValid(cardNumber) <==>
      var cleaned := RemoveSpaces(cardNumber);
      13 <= |cleaned| <= 19 && AllAsciiDigits(cleaned) && LuhnValid(Digits(cleaned))
  {
    LuhnSumIsIso(RemoveSpaces(cardNumber));
  }

  lemma ReduceInjective(a: nat, b: nat, doubled: bool)
    requires a < 10 && b < 10 && a != b
    ensures Reduce(a, doubled) < 10 && Reduce(b, doubled) < 10
    ensures Reduce(a, doubled) != Reduce(b, doubled)
  {
  }

  lemma AddDifferentDigits(x: nat, a: nat, b: nat)
    requires a < 10 && b < 10 && a != b
    ensures (x + a) % 10 != (x + b) % 10
  {
    var q, r := x / 10, x % 10;
    assert x + a == 10 * q + (r + a);
    assert x + b == 10 * q + (r + b);
  }

  lemma AddSameDigit(x: nat, y: nat, a: nat)
    requires x % 10 != y % 10
    ensures (x + a) % 10 != (y + a) % 10
  {
    var qx, rx, qy, ry, qa, ra := x / 10, x % 10, y / 10, y % 10, a / 10, a % 10;
    var qxa, rxa, qya, rya := (x + a) / 10, (x + a) % 10, (y + a) / 10, (y + a) % 10;
    assert x == 10 * qx + rx && y == 10 * qy + ry && a == 10 * qa + ra;
    assert x + a == 10 * qxa + rxa && y + a == 10 * qya + rya;
    assert rxa - rx - ra == 10 * (qx + qa - qxa);
    assert rya - ry - ra == 10 * (qy + qa - qya);
  }

  lemma {:induction false} IsoLuhnSumSamePrefix(ds: seq<nat>, es: seq<nat>, n: nat, doubled: bool)
    requires n <= |ds| && n <= |es|
    requires forall i :: 0 <= i < n ==> ds[i] == es[i]
    ensures IsoLuhnSum(ds, n, doubled) == IsoLuhnSum(es, n, doubled)
  {
    if n > 0 {
      IsoLuhnSumSamePrefix(ds, es, n - 1, !doubled);
    }
  }

  lemma {:induction false} IsoLuhnSumSingleChange(ds: seq<nat>, es: seq<nat>, n: nat, k: nat, doubled: bool)
    requires n <= |ds| && n <= |es| && k < n
    requires forall i :: 0 <= i < n ==> ds[i] < 10 && es[i] < 10
    requires forall i :: 0 <= i < n && i != k ==> ds[i] == es[i]
    requires ds[k] != es[k]
    ensures IsoLuhnSum(ds, n, doubled) % 10 != IsoLuhnSum(es, n, doubled) % 10
  {
    if k == n - 1 {
      IsoLuhnSumSamePrefix(ds, es, n - 1, !doubled);
      ReduceInjective(ds[k], es[k], doubled);
      AddDifferentDigits(IsoLuhnSum(ds, n - 1, !doubled), Reduce(ds[k], doubled), Reduce(es[k], doubled));
    } else {
      IsoLuhnSumSingleChange(ds, es, n - 1, k, !doubled);
      AddSameDigit(IsoLuhnSum(ds, n - 1, !doubled), IsoLuhnSum(es, n - 1, !doubled), Reduce(ds[n - 1], doubled));
    }
  }

  /** The Luhn check catches every single mistyped digit: two digit strings of
      the same length that differ in exactly one place are never both accepted. */
  lemma CardRejectsSingleDigitError(a: string, b: string, k: nat)
    requires |a| == |b| && k < |a| && AllAsciiDigits(a) && AllAsciiDigits(b)
    requires forall i :: 0 <= i < |a| && i != k ==> a[i] == b[i]
    requires a[k] != b[k]
    ensures !(CardNumberValid(a) && CardNumberValid(b))
  {
    LuhnCatchesSingleDigitError(a, b, k);
    RemoveSpacesOfDigits(a);
    RemoveSpacesOfDigits(b);
    CardNumberValidIff(a);
    CardNumberValidIff(b);
  }

  lemma LuhnCatchesSingleDigitError(a: string, b: string, k: nat)
    requires |a| == |b| && k < |a| && AllAsciiDigits(a) && AllAsciiDigits(b)
    requires forall i :: 0 <= i < |a| && i != k ==> a[i] == b[i]
    requires a[k] != b[k]
    ensures !(LuhnValid(Digits(a)) && LuhnValid(Digits(b)))
  {
    var da, db := Digits(a), Digits(b);
    assert forall i :: 0 <= i < |a| && i != k ==> da[i] == db[i];
    assert da[k] != db[k];
    IsoLuhnSumSingleChange(da, db, |a|, k, false);
  }

  lemma CardExampleAccepted(card: string)
    requires card == "4111111111111111"
    ensures CardNumberValid(card)
  {
    var ds := [4, 1, 1, 1, 1, 1, 1, 1, 1, 1, 1, 1, 1, 1, 1, 1];
    CardExampleDigits(card, ds);
    LuhnSumOfAcceptedExample();
    assert LuhnValid(Digits(card));
    CardNumberValidIff(card);
  }

  lemma CardExampleRejected(card: string)
    requires card == "1234567890123456"
    ensures !CardNumberValid(card)
  {
    var ds := [1, 2, 3, 4, 5, 6, 7, 8, 9, 0, 1, 2, 3, 4, 5, 6];
    CardExampleDigits(card, ds);
    CardNumberValidIff(card);
    LuhnSumOfRejectedExample();
  }

  lemma LuhnSumOfAcceptedExample()
    ensures IsoLuhnSum([4, 1, 1, 1, 1, 1, 1, 1, 1, 1, 1, 1, 1, 1, 1, 1], 16, false) == 30
  {
    var ds: seq<nat> := [4, 1, 1, 1, 1, 1, 1, 1, 1, 1, 1, 1, 1, 1, 1, 1];
    assert IsoLuhnSum(ds, 2, false) == 9;
    assert IsoLuhnSum(ds, 4, false) == 12;
    assert IsoLuhnSum(ds, 6, false) == 15;
    assert IsoLuhnSum(ds, 8, false) == 18;
    assert IsoLuhnSum(ds, 10, false) == 21;
    assert IsoLuhnSum(ds, 12, false) == 24;
    assert IsoLuhnSum(ds, 14, false) == 27;
    assert IsoLuhnSum(ds, 16, false) == 30;
  }

  lemma LuhnSumOfRejectedExample()
    ensures IsoLuhnSum([1, 2, 3, 4, 5, 6, 7, 8, 9, 0, 1, 2, 3, 4, 5, 6], 16, false) == 64
  {
    var ds: seq<nat> := [1, 2, 3, 4, 5, 6, 7, 8, 9, 0, 1, 2, 3, 4, 5, 6];
    assert IsoLuhnSum(ds, 2, false) == 4;
    assert IsoLuhnSum(ds, 4, false) == 14;
    assert IsoLuhnSum(ds, 6, false) == 21;
    assert IsoLuhnSum(ds, 8, false) == 34;
    assert IsoLuhnSum(ds, 10, false) == 43;
    assert IsoLuhnSum(ds, 12, false) == 47;
    assert IsoLuhnSum(ds, 14, false) == 57;
    assert IsoLuhnSum(ds, 16, false) == 64;
  }

  /** The digit values of a card number written with digits only. */
  lemma CardExampleDigits(card: string, ds: seq<nat>)
    requires |card| == |ds| && forall i :: 0 <= i < |card| ==> IsAsciiDigit(card[i]) && ds[i] == DigitValue(card[i])
    ensures AllAsciiDigits(card) && Digits(card) == ds && RemoveSpaces(card) == card
  {
    RemoveSpacesOfDigits(card);
  }

}
