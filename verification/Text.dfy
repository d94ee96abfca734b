// Text as the client and the server read and write it: decimals, lines, and the C library's
// way of scanning them.
module Text {

  predicate IsDigit(c: char)
  {
    '0' <= c <= '9'
  }

  function DigitValue(c: char): nat
    requires IsDigit(c)
  {
    c as int - '0' as int
  }

  function DigitChar(d: nat): (c: char)
    requires d < 10
    ensures IsDigit(c) && DigitValue(c) == d
  {
    (d + '0' as int) as char
  }

  function Digits(n: nat): (s: string)
    ensures s != "" && forall i :: 0 <= i < |s| ==> IsDigit(s[i])
  {
    if n < 10 then [DigitChar(n)] else Digits(n / 10) + [DigitChar(n % 10)]
  }

  // printf("%lld")
  function Decimal(n: int): string
  {
    if n < 0 then "-" + Digits(-n) else Digits(n)
  }

  // The digits at the start of `s`, after `acc` has been read.
  function ReadDigits(s: string, acc: int): int
    decreases |s|
  {
    if s == "" || !IsDigit(s[0]) then acc else ReadDigits(s[1..], acc * 10 + DigitValue(s[0]))
  }

  predicate IsBlank(c: char)
  {
    c == ' ' || 9 <= c as int <= 13
  }

  // atoll, on values that fit
  function Atoll(s: string): int
    decreases |s|
  {
    if s == "" then 0
    else if IsBlank(s[0]) then Atoll(s[1..])
    else if s[0] == '-' then -ReadDigits(s[1..], 0)
    else if s[0] == '+' then ReadDigits(s[1..], 0)
    else ReadDigits(s, 0)
  }

  lemma {:induction false} ReadDigitsOf(n: nat, tail: string)
    requires tail == "" || !IsDigit(tail[0])
    ensures ReadDigits(Digits(n) + tail, 0) == n
  {
    DigitsThen(n, tail, 0);
    assert PowerOfTen(|Digits(n)|) * 0 == 0;
  }

  function PowerOfTen(k: nat): nat
  {
    if k == 0 then 1 else 10 * PowerOfTen(k - 1)
  }

  lemma ShiftDigit(acc: int, p: int, n: nat)
    ensures (acc * p + n / 10) * 10 + n % 10 == acc * (10 * p) + n
  {
  }

  lemma {:induction false} DigitsThen(n: nat, tail: string, acc: int)
    ensures ReadDigits(Digits(n) + tail, acc) == ReadDigits(tail, acc * PowerOfTen(|Digits(n)|) + n)
    decreases n
  {
    if n < 10 {
      assert Digits(n) + tail == [DigitChar(n)] + tail;
      assert ([DigitChar(n)] + tail)[1..] == tail;
      assert PowerOfTen(1) == 10 * PowerOfTen(0) == 10;
    } else {
      var last := [DigitChar(n % 10)];
      assert Digits(n) + tail == Digits(n / 10) + (last + tail);
      DigitsThen(n / 10, last + tail, acc);
      assert (last + tail)[1..] == tail;
      var p := PowerOfTen(|Digits(n / 10)|);
      assert |Digits(n)| == |Digits(n / 10)| + 1 && PowerOfTen(|Digits(n)|) == 10 * p;
      ShiftDigit(acc, p, n);
    }
  }

  // What was printed as a number reads back as that number, whatever follows it.
  lemma AtollOfDecimal(n: int, tail: string)
    requires tail == "" || !IsDigit(tail[0])
    ensures Atoll(Decimal(n) + tail) == n
  {
    hide Digits, ReadDigits, Atoll;
    if n < 0 {
      ReadDigitsOf(-n, tail);
      AtollSigned(Digits(-n) + tail);
      assert Decimal(n) + tail == "-" + (Digits(-n) + tail);
    } else {
      ReadDigitsOf(n, tail);
      AtollUnsigned(Digits(n) + tail);
    }
  }

  lemma AtollSigned(s: string)
    ensures Atoll("-" + s) == -ReadDigits(s, 0)
  {
  }

  lemma AtollUnsigned(s: string)
    requires s != "" && IsDigit(s[0])
    ensures Atoll(s) == ReadDigits(s, 0)
  {
  }

  // snprintf into a buffer of `size` characters keeps at most size - 1.
  function Truncated(s: string, size: nat): string
    requires size > 0
  {
    if |s| < size then s else s[..size - 1]
  }

  // Number of characters one fgets call takes with room for `room`: up to and including the
  // first line end.
  function LineLength(text: string, room: nat): (n: nat)
    ensures n <= |text| && n <= room
    ensures text != "" && room > 0 ==> n > 0
  {
    if text == "" || room == 0 then 0
    else if text[0] == '\n' then 1
    else 1 + LineLength(text[1..], room - 1)
  }

  lemma {:induction false} WholeLine(body: string, rest: string, room: nat)
    requires '\n' !in body && |body| < room
    ensures LineLength(body + "\n" + rest, room) == |body| + 1
    decreases |body|
  {
    if body != "" {
      assert (body + "\n" + rest)[1..] == body[1..] + "\n" + rest;
      WholeLine(body[1..], rest, room - 1);
    }
  }

  lemma {:induction false} CutLine(body: string, rest: string, room: nat)
    requires '\n' !in body && |body| >= room
    ensures LineLength(body + rest, room) == room
    decreases room
  {
    if room > 0 {
      assert (body + rest)[1..] == body[1..] + rest;
      CutLine(body[1..], rest, room - 1);
    }
  }

  // The end of the text can come before the end of the line.
  lemma {:induction false} OpenLine(body: string, room: nat)
    requires '\n' !in body && |body| <= room
    ensures LineLength(body, room) == |body|
    decreases |body|
  {
    if body != "" {
      OpenLine(body[1..], room - 1);
    }
  }
}
