/** Reading and writing 16-bit integers in decimal (xlc_str_to_int, fmt_i16): what the loops compute, within
  * 16 bits, and that one undoes the other. */
module Numerals {
  import opened Bytes
  import opened Values
  import opened Decimal

  /** The number that a sequence of digits denotes. */
  function ValueOf(ds: seq<Byte>): int
    decreases |ds|
  {
    if ds == [] then 0 else ValueOf(ds[..|ds| - 1]) * 10 + (ds[|ds| - 1] - ZERO)
  }

  predicate AllDigits(ds: seq<Byte>) {
    forall i :: 0 <= i < |ds| ==> IsDigit(ds[i])
  }

  predicate Signed(text: seq<Byte>) {
    text != [] && (text[0] == PLUS || text[0] == MINUS)
  }

  function Unsigned(text: seq<Byte>): seq<Byte> {
    if Signed(text) then text[1..] else text
  }

  /** An optional sign and at least one digit. */
  predicate Numeral(text: seq<Byte>) {
    Unsigned(text) != [] && AllDigits(Unsigned(text))
  }

  function NumeralValue(text: seq<Byte>): int {
    if text != [] && text[0] == MINUS then -ValueOf(Unsigned(text)) else ValueOf(Unsigned(text))
  }

  /** More digits do not make a number smaller. */
  lemma {:induction false} ValueGrows(ds: seq<Byte>, i: nat)
    requires AllDigits(ds) && i <= |ds|
    ensures 0 <= ValueOf(ds[..i]) <= ValueOf(ds)
    decreases |ds|
  {
    if i == |ds| {
      assert ds[..i] == ds;
      if ds != [] {
        ValueGrows(ds[..i - 1], i - 1);
      }
    } else {
      ValueGrows(ds[..|ds| - 1], i);
      assert ds[..|ds| - 1][..i] == ds[..i];
    }
  }

  lemma {:induction false} NextDigit(ds: seq<Byte>, i: nat)
    requires i < |ds|
    ensures ValueOf(ds[..i + 1]) == ValueOf(ds[..i]) * 10 + (ds[i] - ZERO)
  {
    assert ds[..i + 1][..i] == ds[..i];
  }

  /** The guard that keeps the accumulator within 16 bits refuses exactly the numbers beyond the limit. */
  lemma {:induction false} GuardExact(acc: U16, digit: int, limit: U16)
    requires 0 <= digit <= 9 && limit >= 9
    ensures acc > (limit - digit) / 10 <==> acc * 10 + digit > limit
  {
  }

  /** xlc_str_to_int. All arithmetic stays within 16 bits, and a string of any length is read exactly. */
  method ParseInt(data: seq<Byte>) returns (r: Option<I16>)
    ensures r == if Numeral(data) && -0x8000 <= NumeralValue(data) < 0x8000 then Some(NumeralValue(data)) else None
  {
    hide ValueOf;
    if |data| == 0 {
      return None;
    }
    var i, neg := 0, false;
    if data[0] == MINUS || data[0] == PLUS {
      neg, i := data[0] == MINUS, 1;
    }
    ghost var first, ds := i, Unsigned(data);
    var limit: U16 := if neg then 32768 else 32767;
    var acc: U16 := 0;
    var any := false;
    EmptyValue(ds);
    while i < |data|
      invariant first <= i <= |data| && any == (i > first)
      invariant AllDigits(ds[..i - first]) && acc == ValueOf(ds[..i - first]) <= limit
    {
      var c := data[i];
      assert c == ds[i - first];
      if c < ZERO || c > ZERO + 9 {
        return None;
      }
      var digit: U16 := c - ZERO;
      GuardExact(acc, digit, limit);
      NextDigit(ds, i - first);
      assert ds[..i - first + 1] == ds[..i - first] + [c];
      if acc > (limit - digit) / 10 {
        if AllDigits(ds) {
          ValueGrows(ds, i - first + 1);
        }
        return None;
      }
      var more: int := acc * 10 + digit;
      assert more <= limit;
      acc := more;
      any := true;
      i := i + 1;
    }
    assert ds[..|ds|] == ds;
    if !any {
      return None;
    }
    return Some(if neg then Wrap16(-(acc as int)) else Wrap16(acc));
  }

  lemma {:induction false} EmptyValue(ds: seq<Byte>)
    ensures ds[..0] == [] && ValueOf(ds[..0]) == 0
  {
  }

  /** The digits of `un`, last first. */
  method DigitsBackward(n: U16) returns (tmp: seq<Byte>)
    ensures Back(tmp) == Digits(n)
  {
    hide Digits, Back;
    LastDigit(n);
    BackLast([], ZERO + n % 10);
    assert [] + [ZERO + n % 10] == [ZERO + n % 10] && [ZERO + n % 10] + [] == [ZERO + n % 10];
    NothingBack();
    tmp := [];
    var un: U16 := n;
    if un == 0 {
      return [ZERO];
    }
    while un > 0
      invariant if un == 0 then Back(tmp) == Digits(n) else Digits(un) + Back(tmp) == Digits(n)
    {
      LastDigit(un);
      var digit := ZERO + un % 10;
      BackLast(tmp, digit);
      assert Digits(un / 10) + [digit] + Back(tmp) == Digits(un / 10) + ([digit] + Back(tmp));
      tmp := tmp + [digit];
      un := un / 10;
    }
  }

  /** fmt_i16: the digits come out last first and are turned round behind the sign. */
  method FormatInt(n: I16) returns (text: seq<Byte>)
    ensures text == Format(n)
  {
    hide Digits, Back;
    var tmp := DigitsBackward(if n < 0 then -(n as int) else n as int);
    text := if n < 0 then [MINUS] else [];
    ghost var sign, left := text, |tmp|;
    var i := |tmp|;
    assert tmp[..i] == tmp;
    while i > 0
      invariant 0 <= i <= |tmp| && text + Back(tmp[..i]) == sign + Back(tmp)
    {
      i := i - 1;
      BackLast(tmp[..i], tmp[i]);
      assert tmp[..i] + [tmp[i]] == tmp[..i + 1];
      assert text + ([tmp[i]] + Back(tmp[..i])) == text + [tmp[i]] + Back(tmp[..i]);
      text := text + [tmp[i]];
    }
    NothingBack();
    assert tmp[..i] == [] && text + [] == text;
  }

  lemma {:induction false} NothingBack()
    ensures Back([]) == []
  {
  }

  /** A sequence from its end to its start. */
  function Back(s: seq<Byte>): (r: seq<Byte>)
    ensures |r| == |s|
    decreases |s|
  {
    if s == [] then [] else [s[|s| - 1]] + Back(s[..|s| - 1])
  }

  lemma {:induction false} BackLast(s: seq<Byte>, c: Byte)
    ensures Back(s + [c]) == [c] + Back(s)
  {
    assert (s + [c])[..|s|] == s;
  }

  lemma {:induction false} LastDigit(n: nat)
    ensures Digits(n) == if n < 10 then [ZERO + n] else Digits(n / 10) + [ZERO + n % 10]
  {
  }

  lemma {:induction false} DigitsDenote(n: nat)
    ensures AllDigits(Digits(n)) && ValueOf(Digits(n)) == n
    decreases n
  {
    if n < 10 {
      assert [ZERO + n][..0] == [];
    } else {
      DigitsDenote(n / 10);
      var ds := Digits(n);
      assert ds[..|ds| - 1] == Digits(n / 10);
    }
  }

  /** Every 16-bit integer is the value of its text. */
  lemma {:induction false} FormatDenotes(n: I16)
    ensures Numeral(Format(n)) && NumeralValue(Format(n)) == n
  {
    hide Digits, ValueOf;
    var m: int := n;
    DigitsDenote(if m < 0 then -m else m);
    if m < 0 {
      assert Format(n)[1..] == Digits(-m);
    } else {
      assert IsDigit(Digits(m)[0]);
    }
  }

  /** Printing an integer and parsing the text gives the integer back. */
  method PrintThenParse(n: I16) returns (r: Option<I16>)
    ensures r == Some(n)
  {
    var text := FormatInt(n);
    FormatDenotes(n);
    r := ParseInt(text);
  }
}
