/** What the form validator's `input` listeners compute from a field's text:
    the card-number, expiry-date and CVV formatters that rewrite the field as
    it is typed, and the colour band of the message character counter. */
module Inputs {
  import opened JsText
  import opened Validators

  // ---------------------------------------------------------------------
  // Card number: digits only, in groups of four separated by one space
  // ---------------------------------------------------------------------

  /** `value.match(/.{1,4}/g).join(' ')` on a non-empty string: consecutive
      groups of four characters (the last one may be shorter) joined by one
      space. */
  function GroupsOfFour(value: string): string
    decreases |value|
  {
    if |value| <= 4 then value else value[..4] + " " + GroupsOfFour(value[4..])
  }

  /** The card-number listener: white space and every character other than
      an ASCII digit are removed, and the digits are regrouped by four. When
      no digit is left, `match` finds nothing and the field becomes empty. */
  function FormatCardNumber(input: string): (r: string)
    ensures r == [] <==> KeepDigits(input) == []
    ensures RemoveSpaces(r) == KeepDigits(input)
  {
    KeepDigitsOfRemoveSpaces(input);
    var value := KeepDigits(RemoveSpaces(input));
    if value == [] then value
    else
      GroupsOfFourShape(value);
      GroupsOfFourSpaces(value);
      GroupsOfFour(value)
  }

  /** The shape of a formatted card number: a digit at every position except
      each fifth one, which holds a space, and no trailing space. */
  predicate SpacedInFours(r: string) {
    (forall i :: 0 <= i < |r| ==> if i % 5 == 4 then r[i] == ' ' else IsAsciiDigit(r[i]))
    && |r| % 5 != 0
  }

  lemma {:induction false} GroupsOfFourShape(value: string)
    requires value != [] && AllAsciiDigits(value)
    ensures SpacedInFours(GroupsOfFour(value))
    ensures |GroupsOfFour(value)| == |value| + (|value| - 1) / 4
    decreases |value|
  {
    if |value| > 4 {
      var head, tail := value[..4], value[4..];
      assert AllAsciiDigits(tail) by {
        assert forall i :: 0 <= i < |tail| ==> tail[i] == value[4 + i];
      }
      GroupsOfFourShape(tail);
      var rest := GroupsOfFour(tail);
      var r := head + " " + rest;
      forall i | 0 <= i < |r|
        ensures if i % 5 == 4 then r[i] == ' ' else IsAsciiDigit(r[i])
      {
        if i >= 5 {
          assert r[i] == rest[i - 5];
          assert (i - 5) % 5 == i % 5;
        }
      }
      assert (|value| - 1) / 4 == (|tail| - 1) / 4 + 1;
    }
  }

  lemma {:induction false} GroupsOfFourSpaces(value: string)
    requires AllAsciiDigits(value)
    ensures RemoveSpaces(GroupsOfFour(value)) == value
    decreases |value|
  {
    if |value| > 4 {
      var head, tail := value[..4], value[4..];
      assert AllAsciiDigits(head) && AllAsciiDigits(tail) by {
        assert forall i :: 0 <= i < |head| ==> head[i] == value[i];
        assert forall i :: 0 <= i < |tail| ==> tail[i] == value[4 + i];
      }
      GroupsOfFourSpaces(tail);
      var rest := GroupsOfFour(tail);
      RemoveSpacesOfDigits(head);
      RemoveSpacesAppend(head, " " + rest);
      RemoveSpacesAppend(" ", rest);
      assert head + " " + rest == head + (" " + rest);
      assert RemoveSpaces(" ") == [];
      assert head + tail == value;
    } else {
      RemoveSpacesOfDigits(value);
    }
  }

  /** The card-number listener leaves the field empty exactly when the input
      holds no digit; otherwise the field is spaced in fours, its length is
      that of the digits plus one space per full group before the last, and
      removing its spaces (as `validateCardNumber` does) gives back exactly
      the digits that were typed. */
  lemma CardFormatting(input: string)
    ensures FormatCardNumber(input) == [] <==> KeepDigits(input) == []
    ensures KeepDigits(input) != [] ==> SpacedInFours(FormatCardNumber(input))
    ensures KeepDigits(input) != [] ==>
              |FormatCardNumber(input)| == |KeepDigits(input)| + (|KeepDigits(input)| - 1) / 4
    ensures RemoveSpaces(FormatCardNumber(input)) == KeepDigits(input)
  {
    KeepDigitsOfRemoveSpaces(input);
    var value := KeepDigits(input);
    if value != [] {
      GroupsOfFourShape(value);
      GroupsOfFourSpaces(value);
    }
  }

  /** Formatting an already formatted card number changes nothing. */
  lemma CardFormattingIdempotent(input: string)
    ensures FormatCardNumber(FormatCardNumber(input)) == FormatCardNumber(input)
  {
    var value := KeepDigits(input);
    CardFormatting(input);
    KeepDigitsOfRemoveSpaces(input);
    RemoveSpacesOfDigits(value);
    if value != [] {
      assert KeepDigits(RemoveSpaces(FormatCardNumber(input))) == value;
    }
  }

  /** The formatter never changes the card check's verdict on what was
      typed: the formatted field is accepted exactly when its digits alone
      would be. */
  lemma CardFormattingKeepsVerdict(input: string)
    ensures CardNumberValid(FormatCardNumber(input)) == CardNumberValid(KeepDigits(input))
  {
    CardFormatting(input);
    RemoveSpacesOfDigits(KeepDigits(input));
  }

  // ---------------------------------------------------------------------
  // Expiry date: MM/YY
  // ---------------------------------------------------------------------

  function Min(a: int, b: int): int {
    if a <= b then a else b
  }

  /** The expiry listener: non-digits are removed and, once two digits are
      present, a '/' is put after them and only the next two digits are kept
      (`substring(2, 4)`). */
  function FormatExpiry(input: string): (r: string)
    ensures |r| <= 5
    ensures KeepDigits(r) == KeepDigits(input)[..Min(4, |KeepDigits(input)|)]
  {
    var value := KeepDigits(input);
    if |value| >= 2 then
      var head, tail := value[..2], value[2..Min(4, |value|)];
      ExpiryDigits(head, tail);
      assert head + tail == value[..Min(4, |value|)];
      head + "/" + tail
    else
      KeepDigitsOfDigits(value);
      value
  }

  /** The expiry field holds at most five characters; its digits are the
      first four typed digits (or all of them, when fewer), with a '/' after
      the second one and a digit everywhere else. */
  lemma ExpiryFormatting(input: string)
    ensures |FormatExpiry(input)| <= 5
    ensures |KeepDigits(input)| < 2 ==> FormatExpiry(input) == KeepDigits(input)
    ensures |KeepDigits(input)| >= 2 ==>
              FormatExpiry(input)[2] == '/'
              && KeepDigits(FormatExpiry(input)) == KeepDigits(input)[..Min(4, |KeepDigits(input)|)]
    ensures |KeepDigits(input)| >= 2 ==>
              forall i :: 0 <= i < |FormatExpiry(input)| && i != 2 ==> IsAsciiDigit(FormatExpiry(input)[i])
  {
    var value := KeepDigits(input);
    if |value| >= 2 {
      var r := FormatExpiry(input);
      forall i | 0 <= i < |r| && i != 2
        ensures IsAsciiDigit(r[i])
      {
        if i < 2 {
          assert r[i] == value[i];
        } else {
          assert r[i] == value[i - 1];
        }
      }
    }
  }

  lemma ExpiryDigits(head: string, tail: string)
    requires AllAsciiDigits(head) && AllAsciiDigits(tail)
    ensures KeepDigits(head + "/" + tail) == head + tail
  {
    var slashTail := "/" + tail;
    assert head + "/" + tail == head + slashTail;
    assert KeepDigits(slashTail) == KeepDigits(tail) by {
      assert slashTail[1..] == tail;
    }
    KeepDigitsAppend(head, slashTail);
    RemoveSpacesOfDigits(head);
    RemoveSpacesOfDigits(tail);
  }

  /** Formatting an already formatted expiry date changes nothing. */
  lemma ExpiryFormattingIdempotent(input: string)
    ensures FormatExpiry(FormatExpiry(input)) == FormatExpiry(input)
  {
    var value := KeepDigits(input);
    ExpiryFormatting(input);
    if |value| < 2 {
      KeepDigitsOfDigits(value);
    } else {
      var r := FormatExpiry(input);
      var d := KeepDigits(r);
      assert d == value[..Min(4, |value|)];
      assert d[..2] == value[..2];
      assert d[2..Min(4, |d|)] == value[2..Min(4, |value|)];
    }
  }

  /** The formatted expiry date has the shape the expiry check asks for
      exactly when at least four digits were typed and the first two name a
      month. */
  lemma ExpiryFormattingShape(input: string)
    ensures ExpiryShape(FormatExpiry(input)) <==>
              var value := KeepDigits(input);
              |value| >= 4
              && ((value[0] == '0' && value[1] != '0') || (value[0] == '1' && value[1] <= '2'))
  {
    var value := KeepDigits(input);
    if |value| >= 2 {
      var r := FormatExpiry(input);
      assert r[0] == value[0] && r[1] == value[1];
      if |value| >= 4 {
        assert r[3] == value[2] && r[4] == value[3];
      }
    }
  }

  /** Typing "1225" leaves "12/25" in the field. */
  lemma ExpiryFormattingExample()
    ensures FormatExpiry("1225") == "12/25"
  {
    assert KeepDigits("1225") == "1225" by {
      RemoveSpacesOfDigits("1225");
    }
  }

  // ---------------------------------------------------------------------
  // CVV: digits only
  // ---------------------------------------------------------------------

  /** The CVV listener: every character but an ASCII digit is removed. */
  function FormatCvv(input: string): (r: string)
    ensures AllAsciiDigits(r) && |r| <= |input|
  {
    KeepDigits(input)
  }

  /** The CVV field keeps only digits, in the order typed, and is accepted
      by the CVV check exactly when three or four digits were typed. */
  lemma CvvFormatting(input: string)
    ensures AllAsciiDigits(FormatCvv(input))
    ensures FormatCvv(FormatCvv(input)) == FormatCvv(input)
    ensures ValidateCVV(FormatCvv(input)) <==> 3 <= |KeepDigits(input)| <= 4
  {
    KeepDigitsOfDigits(KeepDigits(input));
  }

  // ---------------------------------------------------------------------
  // Message character counter
  // ---------------------------------------------------------------------

  /** The counter's colour: grey (#666), orange (#f39c12) or red (#e74c3c). */
  datatype CounterBand = Normal | Warning | Over

  /** The colour the message listener gives the counter for `count` characters:
      its rank is the number of thresholds (400 and 500) the count exceeds. */
  function Band(count: nat): (b: CounterBand)
    ensures BandRank(b) == (if count > 400 then 1 else 0) + (if count > 500 then 1 else 0)
  {
    if count > 500 then Over else if count > 400 then Warning else Normal
  }

  function BandRank(b: CounterBand): nat {
    match b
    case Normal => 0
    case Warning => 1
    case Over => 2
  }

  /** Typing more never lowers the colour band, and each band is reached
      exactly beyond its threshold. */
  lemma BandMonotone(a: nat, b: nat)
    requires a <= b
    ensures BandRank(Band(a)) <= BandRank(Band(b))
    ensures Band(b) == Over <==> b > 500
    ensures Band(b) == Normal <==> b <= 400
  {
  }
}
